/**
 * The server half of the Backsync protocol (backsync/router.py): a registry of
 * model handlers, the set of open connections with one of them chosen as the
 * active session, the routing of an inbound `model:method` event to a handler
 * method with the reply envelope it produces, and the push envelopes sent after
 * a save or a delete.
 */
module BacksyncRouter {
  import opened Common
  import opened Text
  import opened Json
  import BacksyncClient

  /** An open SockJS connection. */
  type Session = nat

  /** A registered handler class, with the names of the methods it defines. */
  datatype Handler = Handler(key: nat, methods: set<string>)

  /** An inbound message; JNull stands for a missing 'id' or 'data'. */
  datatype ServerMessage = ServerMessage(event: string, id: Json, data: Json)

  /** One call of a handler method: `func()` when data is JNull, `func(**data)` otherwise. */
  datatype Invocation = Invocation(handler: Handler, action: string, data: Json)

  /** What the handler method did: returned a value or raised an exception with a message. */
  datatype CallOutcome = Returned(result: Json) | Raised(message: string)

  /** The reply envelope; `error` is absent from the envelope when None. */
  datatype Reply = Reply(id: Json, event: string, data: Json, error: Option<string>)

  /** The call made, if any, and the reply sent, if any. */
  datatype Handling = Handling(call: Option<Invocation>, reply: Option<Reply>)

  /** `msg['event'].split(':', 1)`: the model name and the method name.  It succeeds
      exactly when the event holds a ':', and then the model name is what precedes
      the first ':' and the method name all that follows it. */
  function ParseEvent(event: string): (r: Option<(string, string)>)
    ensures r.Some? <==> ':' in event
    ensures r.Some? ==> r.value.0 + ":" + r.value.1 == event && ':' !in r.value.0
  {
    var split := SplitOnce(event, ':');
    if split.Some? then SplitOnceRejoin(event, ':'); split else split
  }

  function UnknownModelError(model: string): string {
    "Unable to locate model handler for: " + model
  }

  function MissingMethodError(model: string, action: string): string {
    "Missing Method " + model + ":" + action
  }

  function ExceptionError(message: string): string {
    "EXCEPTION: " + message
  }

  /** `on_message`.  An event without ':' makes the unpacking raise, and the message is
      dropped (Err).  `run` stands for the handler code, which this model does not see. */
  function OnMessage(models: map<string, Handler>, msg: ServerMessage,
                     run: Invocation -> CallOutcome): (r: Result<Handling, string>)
    ensures r.Err? <==> ':' !in msg.event
    ensures r.Ok? ==>
      var (model, action) := ParseEvent(msg.event).value;
      && (r.value.call.Some? <==> model in models && action in models[model].methods)
      && (r.value.call.Some? ==> r.value.call.value == Invocation(models[model], action, msg.data))
      && (r.value.reply.Some? <==> PyTruthy(msg.id))
      && (r.value.reply.Some? ==>
            var reply := r.value.reply.value;
            && reply.id == msg.id
            && reply.event == msg.event
            && (model !in models ==> reply.error == Some(UnknownModelError(model)))
            && (model in models && action !in models[model].methods ==>
                  reply.error == Some(MissingMethodError(model, action)))
            && (r.value.call.Some? && run(r.value.call.value).Raised? ==>
                  reply.error == Some(ExceptionError(run(r.value.call.value).message)))
            && (reply.error.Some? ==> reply.data == JNull)
            && (reply.error.None? <==> r.value.call.Some? && run(r.value.call.value).Returned?)
            && (reply.error.None? ==> reply.data == run(r.value.call.value).result))
  {
    match ParseEvent(msg.event)
    case None => Err("ValueError")
    case Some((model, action)) =>
      var call :=
        if model in models && action in models[model].methods
        then Some(Invocation(models[model], action, msg.data)) else None;
      var outcome: (Json, Option<string>) :=
        if model !in models then (JNull, Some(UnknownModelError(model)))
        else if call.None? then (JNull, Some(MissingMethodError(model, action)))
        else match run(call.value)
          case Returned(result) => (result, None)
          case Raised(message) => (JNull, Some(ExceptionError(message)));
      var reply :=
        if PyTruthy(msg.id) then Some(Reply(msg.id, model + ":" + action, outcome.0, outcome.1))
        else None;
      Ok(Handling(call, reply))
  }

  /** An event built by the browser from a namespace without ':' is split back into that
      namespace and the wire verb. */
  lemma ClientEventParses(namespace: string, m: BacksyncClient.SyncMethod)
    requires ':' !in namespace
    ensures ParseEvent(BacksyncClient.EventName(namespace, BacksyncClient.WireVerb(m)))
      == Some((namespace, BacksyncClient.WireVerb(m)))
  {
    SplitOnceJoin(namespace, ':', BacksyncClient.WireVerb(m));
  }

  /** A model class as `post_save`/`post_delete` see it: its `sync_name` attribute, if
      any, and its `__name__`. */
  datatype ModelClass = ModelClass(syncName: Option<string>, className: string)

  /** A push envelope and the connections it is broadcast to. */
  datatype Broadcast = Broadcast(recipients: set<Session>, event: string, data: Json)

  class Router {
    var models: map<string, Handler>
    var listeners: set<Session>
    var activeSession: Option<Session>

    /** There is an active session exactly when some connection is open, and it is one
        of them. */
    ghost predicate Valid()
      reads this
    {
      (activeSession.None? <==> listeners == {})
      && (activeSession.Some? ==> activeSession.value in listeners)
    }

    constructor ()
      ensures Valid() && models == map[] && listeners == {} && activeSession == None
    {
      models := map[];
      listeners := {};
      activeSession := None;
    }

    /** `register`: a later registration under the same name replaces the earlier one. */
    method Register(name: string, handler: Handler)
      modifies this
      ensures models == old(models)[name := handler]
      ensures listeners == old(listeners) && activeSession == old(activeSession)
    {
      models := models[name := handler];
    }

    /** `instance`. */
    function Instance(name: string): (h: Option<Handler>)
      reads this
      ensures h.Some? <==> name in models
      ensures h.Some? ==> h.value == models[name]
    {
      if name in models then Some(models[name]) else None
    }

    /** `on_open`: the new connection listens and becomes the active session. */
    method OnOpen(s: Session)
      requires Valid()
      modifies this
      ensures Valid()
      ensures listeners == old(listeners) + {s} && activeSession == Some(s)
      ensures models == old(models)
    {
      listeners := listeners + {s};
      activeSession := Some(s);
    }

    /** `on_close`: the connection stops listening; the active session becomes some
        remaining listener, or None when none remains.  Closing a connection that is not
        listening raises KeyError and changes nothing. */
    method OnClose(s: Session) returns (outcome: Outcome<string>)
      requires Valid()
      modifies this
      ensures Valid()
      ensures outcome.Fail? <==> s !in old(listeners)
      ensures outcome.Fail? ==> listeners == old(listeners) && activeSession == old(activeSession)
      ensures outcome.Pass? ==> listeners == old(listeners) - {s}
      ensures models == old(models)
    {
      if s !in listeners {
        return Fail("KeyError");
      }
      listeners := listeners - {s};
      if listeners != {} {
        var t :| t in listeners;
        activeSession := Some(t);
      } else {
        activeSession := None;
      }
      outcome := Pass;
    }

    /** `post_save` (verb "upsert") and `post_delete` (verb "delete"): the push envelope
        goes to every listener, and only when there is an active session. */
    method Push(model: ModelClass, verb: string, instance: Json) returns (b: Option<Broadcast>)
      requires Valid()
      ensures b.Some? <==> listeners != {}
      ensures b.Some? ==> b.value.recipients == listeners && b.value.data == instance
      ensures b.Some? ==> b.value.event == BacksyncClient.EventName(SyncName(model), verb)
    {
      var name := SyncName(model);
      var message := Broadcast(listeners, name + ":" + verb, instance);
      if activeSession.Some? {
        b := Some(message);
      } else {
        b := None;
      }
    }
  }

  /** `getattr(model, 'sync_name', model.__name__)`. */
  function SyncName(model: ModelClass): string {
    model.syncName.GetOr(model.className)
  }

  /** The message a push puts on the wire: 'event' and 'data', with no 'id' and no
      'error', as the browser's transport receives it. */
  function PushEnvelope(b: Broadcast): BacksyncClient.Inbound {
    BacksyncClient.Inbound(None, JStr(b.event), b.data, JNull)
  }
}
