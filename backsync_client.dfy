/**
 * The browser half of the Backsync protocol (static/backsync/backsync.js).
 *
 * `Backbone.sync` turns a model operation into a request envelope and records
 * the caller's success/error continuations under the request id in a pending
 * table.  Every inbound message is either the reply to a pending request (its
 * entry is consumed and at most one continuation runs) or a push event that is
 * re-triggered by name.  A `Backsync.Collection` listens on `<url>:upsert` and
 * `<url>:delete` and replicates the server's changes into its list of models.
 */
module BacksyncClient {
  import opened Common
  import opened Json

  /** A JavaScript function value, identified by an opaque handle. */
  type CallbackId = nat

  /** The methods Backbone hands to `Backbone.sync`. */
  datatype SyncMethod = Create | Read | Update | Delete | Patch

  function MethodName(m: SyncMethod): string {
    match m
    case Create => "create"
    case Read => "read"
    case Update => "update"
    case Delete => "delete"
    case Patch => "patch"
  }

  /** The verb put on the wire: creating and updating are both an upsert. */
  function WireVerb(m: SyncMethod): (verb: string)
    ensures verb == "upsert" <==> m == Create || m == Update
    ensures m != Create && m != Update ==> verb == MethodName(m)
    ensures ':' !in verb
  {
    if m == Create || m == Update then "upsert" else MethodName(m)
  }

  /** The event name of a request or a push channel: `namespace + ':' + verb`. */
  function EventName(namespace: string, verb: string): string {
    namespace + ":" + verb
  }

  /** The envelope `Backbone.sync` serialises: `data` is absent on a read. */
  datatype Request = Request(id: string, event: string, data: Option<Json>)

  function BuildRequest(m: SyncMethod, namespace: string, model: Json, id: string): (r: Request)
    ensures r.id == id
    ensures r.event == EventName(namespace, WireVerb(m))
    ensures r.data.None? <==> m == Read
    ensures r.data.Some? ==> r.data.value == model
  {
    Request(id, EventName(namespace, WireVerb(m)), if m == Read then None else Some(model))
  }

  /** `options.success` and `options.error`; None when the caller gave none. */
  datatype Continuations = Continuations(success: Option<CallbackId>, error: Option<CallbackId>)

  type PendingTable = map<string, Continuations>

  /** An inbound message; JNull stands for a field the message lacks. */
  datatype Inbound = Inbound(id: Option<string>, event: Json, data: Json, error: Json)

  /** What handling one inbound message does beyond updating the pending table. */
  datatype Effect =
    | Call(cb: CallbackId, arg: Json)
    | NoCall
    | Trigger(event: Json, payload: Json)

  /** The message answers a request that is still pending. */
  predicate Matched(pending: PendingTable, msg: Inbound) {
    msg.id.Some? && msg.id.value in pending
  }

  /** `onmessage`: the new pending table and the effect of one inbound message. */
  function Dispatch(pending: PendingTable, msg: Inbound): (r: (PendingTable, Effect))
    ensures Matched(pending, msg) ==> r.0 == pending - {msg.id.value} && !r.1.Trigger?
    ensures r.1.Call? && JsTruthy(msg.error) ==>
      Matched(pending, msg) && pending[msg.id.value].error == Some(r.1.cb) && r.1.arg == msg.error
    ensures r.1.Call? && !JsTruthy(msg.error) ==>
      Matched(pending, msg) && pending[msg.id.value].success == Some(r.1.cb) && r.1.arg == msg.data
    ensures Matched(pending, msg) && r.1 == NoCall ==>
      if JsTruthy(msg.error) then pending[msg.id.value].error.None? else pending[msg.id.value].success.None?
    ensures !Matched(pending, msg) ==> r.0 == pending && r.1 == Trigger(msg.event, msg.data)
  {
    if Matched(pending, msg) then
      var cb := pending[msg.id.value];
      var effect :=
        if JsTruthy(msg.error) then
          (if cb.error.Some? then Call(cb.error.value, msg.error) else NoCall)
        else if cb.success.Some? then Call(cb.success.value, msg.data)
        else NoCall;
      (pending - {msg.id.value}, effect)
    else
      (pending, Trigger(msg.event, msg.data))
  }

  /** A reply is consumed once: the same message arriving again is handled as a push event. */
  lemma ReplyConsumedOnce(pending: PendingTable, msg: Inbound)
    requires Matched(pending, msg)
    ensures Dispatch(Dispatch(pending, msg).0, msg).1 == Trigger(msg.event, msg.data)
    ensures Dispatch(Dispatch(pending, msg).0, msg).0 == pending - {msg.id.value}
  {
  }

  /** One error continuation called with 'CLOSED' when the socket closes. */
  datatype CloseNotice = CloseNotice(id: string, cb: CallbackId, arg: Json)

  /** The Backsync object: its pending table and the SockJS socket it writes to. */
  class Transport {
    var pending: PendingTable
    /** `io.readyState == SockJS.OPEN`. */
    var socketOpen: bool
    /** Sends registered as listeners of the socket's 'open' event, in order. */
    var deferred: seq<Request>
    /** Envelopes written to the socket, in order. */
    var sent: seq<Request>

    ghost predicate Valid()
      reads this
    {
      socketOpen ==> deferred == []
    }

    constructor ()
      ensures Valid()
      ensures pending == map[] && !socketOpen && deferred == [] && sent == []
    {
      pending := map[];
      socketOpen := false;
      deferred := [];
      sent := [];
    }

    /** `addTx`: records the continuations of request `id`. */
    method AddTx(id: string, success: Option<CallbackId>, error: Option<CallbackId>)
      modifies this
      ensures pending == old(pending)[id := Continuations(success, error)]
      ensures socketOpen == old(socketOpen) && deferred == old(deferred) && sent == old(sent)
    {
      pending := pending[id := Continuations(success, error)];
    }

    /** `Backbone.sync`: `id` is the fresh id `Math.uuid()` draws.  The continuations are
        recorded before the envelope is written, or deferred until the socket opens. */
    method Sync(m: SyncMethod, namespace: string, model: Json, id: string,
                success: Option<CallbackId>, error: Option<CallbackId>)
      requires Valid()
      modifies this
      ensures Valid()
      ensures pending == old(pending)[id := Continuations(success, error)]
      ensures socketOpen == old(socketOpen)
      ensures old(socketOpen) ==>
        sent == old(sent) + [BuildRequest(m, namespace, model, id)] && deferred == old(deferred)
      ensures !old(socketOpen) ==>
        deferred == old(deferred) + [BuildRequest(m, namespace, model, id)] && sent == old(sent)
    {
      var request := BuildRequest(m, namespace, model, id);
      AddTx(id, success, error);
      if socketOpen {
        sent := sent + [request];
      } else {
        deferred := deferred + [request];
      }
    }

    /** The socket's 'open' event: every deferred send fires, in the order registered. */
    method SocketOpened()
      modifies this
      ensures Valid()
      ensures socketOpen
      ensures sent == old(sent) + old(deferred) && deferred == []
      ensures pending == old(pending)
    {
      sent := sent + deferred;
      deferred := [];
      socketOpen := true;
    }

    /** `onmessage`. */
    method OnMessage(msg: Inbound) returns (effect: Effect)
      requires Valid()
      modifies this
      ensures Valid()
      ensures (pending, effect) == Dispatch(old(pending), msg)
      ensures socketOpen == old(socketOpen) && deferred == old(deferred) && sent == old(sent)
    {
      var r := Dispatch(pending, msg);
      pending := r.0;
      effect := r.1;
    }

    /** `onclose`: every pending entry with an error continuation hears 'CLOSED' exactly
        once, and the table is emptied. */
    method OnClose() returns (notices: seq<CloseNotice>)
      requires Valid()
      modifies this
      ensures Valid()
      ensures pending == map[] && !socketOpen
      ensures deferred == old(deferred) && sent == old(sent)
      ensures forall i :: 0 <= i < |notices| ==>
        notices[i].id in old(pending) && old(pending)[notices[i].id].error == Some(notices[i].cb)
        && notices[i].arg == JStr("CLOSED")
      ensures forall i, j :: 0 <= i < j < |notices| ==> notices[i].id != notices[j].id
      ensures forall id :: id in old(pending) && old(pending)[id].error.Some? ==>
        exists i :: 0 <= i < |notices| && notices[i].id == id
    {
      var todo := pending.Keys;
      ghost var done: set<string> := {};
      notices := [];
      while todo != {}
        invariant pending == old(pending)
        invariant todo + done == old(pending).Keys && todo * done == {}
        invariant forall i :: 0 <= i < |notices| ==>
          notices[i].id in done && old(pending)[notices[i].id].error == Some(notices[i].cb)
          && notices[i].arg == JStr("CLOSED")
        invariant forall i, j :: 0 <= i < j < |notices| ==> notices[i].id != notices[j].id
        invariant forall id :: id in done && old(pending)[id].error.Some? ==>
          exists i :: 0 <= i < |notices| && notices[i].id == id
        decreases todo
      {
        var id :| id in todo;
        var entry := pending[id];
        ghost var before := notices;
        if entry.error.Some? {
          notices := notices + [CloseNotice(id, entry.error.value, JStr("CLOSED"))];
        }
        forall d | d in done + {id} && old(pending)[d].error.Some?
          ensures exists i :: 0 <= i < |notices| && notices[i].id == d
        {
          if d == id {
            assert notices[|notices| - 1].id == d;
          } else {
            var i :| 0 <= i < |before| && before[i].id == d;
            assert notices[i] == before[i];
          }
        }
        todo := todo - {id};
        done := done + {id};
      }
      pending := map[];
      socketOpen := false;
    }
  }

  // ----- Backsync.Collection -----

  /** A Backbone model's attributes. */
  type Attributes = map<string, Json>

  /** The id a model or a pushed record carries; Backbone's `get` finds nothing for a
      missing or null id. */
  function IdOf(m: Attributes, idAttribute: string): Option<Json> {
    if idAttribute in m && m[idAttribute] != JNull then Some(m[idAttribute]) else None
  }

  /** No two models of a collection share an id. */
  ghost predicate UniqueIds(models: seq<Attributes>, idAttribute: string) {
    forall i, j :: 0 <= i < j < |models| && IdOf(models[i], idAttribute).Some? ==>
      IdOf(models[i], idAttribute) != IdOf(models[j], idAttribute)
  }

  /** `findModelFromData`: the position of the model with the record's id. */
  function FindModel(models: seq<Attributes>, idAttribute: string, data: Attributes): (r: Option<nat>)
    ensures r.Some? ==>
      r.value < |models| && IdOf(data, idAttribute).Some?
      && IdOf(models[r.value], idAttribute) == IdOf(data, idAttribute)
    ensures r.Some? ==> forall j :: 0 <= j < r.value ==>
      IdOf(models[j], idAttribute) != IdOf(data, idAttribute)
    ensures r.None? ==>
      IdOf(data, idAttribute).None? ||
      forall j :: 0 <= j < |models| ==> IdOf(models[j], idAttribute) != IdOf(data, idAttribute)
  {
    if IdOf(data, idAttribute).None? || models == [] then None
    else if IdOf(models[0], idAttribute) == IdOf(data, idAttribute) then Some(0)
    else match FindModel(models[1..], idAttribute, data)
      case None => None
      case Some(k) => Some(k + 1)
  }

  /** `serverUpsert`: merge the record into the model with its id, or add it. */
  function Upserted(models: seq<Attributes>, idAttribute: string, data: Attributes): seq<Attributes> {
    match FindModel(models, idAttribute, data)
    case Some(i) => models[i := models[i] + data]
    case None => models + [data]
  }

  /** `serverDelete`: remove the model with the record's id, if there is one. */
  function Deleted(models: seq<Attributes>, idAttribute: string, data: Attributes): seq<Attributes> {
    match FindModel(models, idAttribute, data)
    case Some(i) => models[..i] + models[i + 1..]
    case None => models
  }

  /** After an upsert the collection holds a model that carries every attribute of the
      record, found under the record's id when it has one. */
  lemma UpsertThenFind(models: seq<Attributes>, idAttribute: string, data: Attributes)
    ensures var after := Upserted(models, idAttribute, data);
      exists i :: 0 <= i < |after| && data.Keys <= after[i].Keys
        && (forall k :: k in data ==> after[i][k] == data[k])
        && (IdOf(data, idAttribute).Some? ==> FindModel(after, idAttribute, data) == Some(i))
  {
    var after := Upserted(models, idAttribute, data);
    match FindModel(models, idAttribute, data)
    case Some(i) =>
      assert IdOf(after[i], idAttribute) == IdOf(data, idAttribute);
      assert forall j :: 0 <= j < i ==> after[j] == models[j];
      FindModelFirst(after, idAttribute, data, i);
    case None =>
      var i := |models|;
      assert after[i] == data;
      assert forall j :: 0 <= j < i ==> after[j] == models[j];
      if IdOf(data, idAttribute).Some? {
        FindModelFirst(after, idAttribute, data, i);
      }
  }

  /** The first model with the record's id is the one `findModelFromData` returns. */
  lemma {:induction false} FindModelFirst(models: seq<Attributes>, idAttribute: string, data: Attributes, i: nat)
    requires i < |models| && IdOf(data, idAttribute).Some?
    requires IdOf(models[i], idAttribute) == IdOf(data, idAttribute)
    requires forall j :: 0 <= j < i ==> IdOf(models[j], idAttribute) != IdOf(data, idAttribute)
    ensures FindModel(models, idAttribute, data) == Some(i)
  {
    if i > 0 {
      FindModelFirst(models[1..], idAttribute, data, i - 1);
    }
  }

  /** Upserting keeps the ids of a collection unique. */
  lemma UpsertKeepsIdsUnique(models: seq<Attributes>, idAttribute: string, data: Attributes)
    requires UniqueIds(models, idAttribute)
    ensures UniqueIds(Upserted(models, idAttribute, data), idAttribute)
  {
    var after := Upserted(models, idAttribute, data);
    match FindModel(models, idAttribute, data)
    case Some(i) =>
      assert IdOf(after[i], idAttribute) == IdOf(models[i], idAttribute);
      assert forall j :: 0 <= j < |after| ==> IdOf(after[j], idAttribute) == IdOf(models[j], idAttribute);
    case None =>
      assert forall j :: 0 <= j < |models| ==> after[j] == models[j];
  }

  /** After a delete the record's id is no longer in a collection with unique ids, and
      every other model keeps its place in order. */
  lemma DeleteThenFindNothing(models: seq<Attributes>, idAttribute: string, data: Attributes)
    requires UniqueIds(models, idAttribute)
    ensures FindModel(Deleted(models, idAttribute, data), idAttribute, data).None?
    ensures UniqueIds(Deleted(models, idAttribute, data), idAttribute)
    ensures FindModel(models, idAttribute, data).None? ==> Deleted(models, idAttribute, data) == models
    ensures FindModel(models, idAttribute, data).Some? ==>
      var i := FindModel(models, idAttribute, data).value;
      Deleted(models, idAttribute, data) == models[..i] + models[i + 1..]
  {
    var after := Deleted(models, idAttribute, data);
    var found := FindModel(models, idAttribute, data);
    if found.Some? {
      var i := found.value;
      assert after == models[..i] + models[i + 1..];
      assert |after| == |models| - 1;
      forall j | 0 <= j < |after| ensures after[j] == models[Skip(j, i)] {
      }
      forall j | 0 <= j < |after| ensures IdOf(after[j], idAttribute) != IdOf(data, idAttribute) {
        if j >= i {
          assert IdOf(models[i], idAttribute) != IdOf(models[j + 1], idAttribute);
        }
      }
      forall a, b | 0 <= a < b < |after| && IdOf(after[a], idAttribute).Some?
        ensures IdOf(after[a], idAttribute) != IdOf(after[b], idAttribute)
      {
        assert Skip(a, i) < Skip(b, i);
      }
    }
  }

  /** The position in the list before the deletion of position `j` of the list after
      the model at `i` was deleted. */
  function Skip(j: nat, i: nat): nat {
    if j < i then j else j + 1
  }

  /** Delivering the same upsert twice has the effect of delivering it once. */
  lemma UpsertIdempotent(models: seq<Attributes>, idAttribute: string, data: Attributes)
    requires IdOf(data, idAttribute).Some?
    ensures Upserted(Upserted(models, idAttribute, data), idAttribute, data) == Upserted(models, idAttribute, data)
  {
    var once := Upserted(models, idAttribute, data);
    UpsertThenFind(models, idAttribute, data);
    var i :| 0 <= i < |once| && data.Keys <= once[i].Keys
      && (forall k :: k in data ==> once[i][k] == data[k])
      && FindModel(once, idAttribute, data) == Some(i);
    assert once[i] + data == once[i];
  }

  /** `parse`: the models of a read reply sit under 'collection'. */
  function Parse(response: Json): Option<Json> {
    Field(response, "collection")
  }

  /** A `Backsync.Collection` bound to the server's push channels for its url. */
  class Collection {
    const url: string
    const idAttribute: string
    var models: seq<Attributes>

    ghost predicate Valid()
      reads this
    {
      UniqueIds(models, idAttribute)
    }

    constructor (url: string, idAttribute: string)
      ensures Valid() && this.url == url && this.idAttribute == idAttribute && models == []
    {
      this.url := url;
      this.idAttribute := idAttribute;
      models := [];
    }

    /** `initialize`: the two events `syncBind` subscribes to, distinct from each other. */
    function Channels(): (channels: seq<string>)
      ensures channels == [EventName(url, "upsert"), EventName(url, "delete")]
      ensures channels[0] != channels[1]
    {
      var upsert := EventName(url, "upsert");
      var delete := EventName(url, "delete");
      assert upsert[|url| + 1] != delete[|url| + 1];
      [upsert, delete]
    }

    method ServerUpsert(data: Attributes)
      requires Valid()
      modifies this
      ensures Valid()
      ensures models == Upserted(old(models), idAttribute, data)
    {
      UpsertKeepsIdsUnique(models, idAttribute, data);
      match FindModel(models, idAttribute, data)
      case Some(i) =>
        models := models[i := models[i] + data];
      case None =>
        models := models + [data];
    }

    method ServerDelete(data: Attributes)
      requires Valid()
      modifies this
      ensures Valid()
      ensures models == Deleted(old(models), idAttribute, data)
      ensures FindModel(models, idAttribute, data).None?
    {
      DeleteThenFindNothing(models, idAttribute, data);
      match FindModel(models, idAttribute, data)
      case Some(i) =>
        models := models[..i] + models[i + 1..];
      case None =>
    }
  }
}
