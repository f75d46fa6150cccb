/**
 * The Backsync side of the distribution server (FileDistribution/backsync_api.py):
 * three handlers that serve the stash, the targets and the tasks as collections
 * over the socket, and the two observers that turn the queue's and the stash's
 * notifications into pushes on the channels '/api/tasks' and '/api/file_stash'.
 * The handlers' `upsert` and `delete` are not implemented and raise.
 */
module BacksyncApi {
  import opened Common
  import opened Json
  import BacksyncRouter
  import BacksyncClient
  import SendorTask
  import FileStash
  import Targets
  import DistributionApi
  import SendorQueue
  import Observable

  const TasksSyncName: string := "/api/tasks"
  const FileStashSyncName: string := "/api/file_stash"
  const TargetsSyncName: string := "/api/targets"

  /** `SendorTasksModel` and `FileStashModel`: classes that exist only to carry the
      `sync_name` the pushes go out under. */
  const TasksModel: BacksyncRouter.ModelClass := BacksyncRouter.ModelClass(Some(TasksSyncName), "SendorTasksModel")
  const FileStashModel: BacksyncRouter.ModelClass := BacksyncRouter.ModelClass(Some(FileStashSyncName), "FileStashModel")

  /** `NotImplementedError` raised without arguments: its message is empty. */
  const NotImplemented: string := ""

  /** Which push an observer event becomes: 'add' and 'change' are saves, sent as
      "upsert"; 'remove' is a delete, sent as "delete"; any other event raises
      `NotImplementedError` (None). */
  function PushVerb(eventType: string): (verb: Option<string>)
    ensures verb == Some("upsert") <==> eventType == "add" || eventType == "change"
    ensures verb == Some("delete") <==> eventType == "remove"
    ensures verb.None? <==> eventType != "add" && eventType != "change" && eventType != "remove"
  {
    if eventType == "add" || eventType == "change" then Some("upsert")
    else if eventType == "remove" then Some("delete")
    else None
  }

  /** `task.progress()` as the dictionary that is pushed and listed.  The enqueue time
      is given as the number the model keeps rather than as formatted text, and the
      completion ratio, a float, is not part of the model. */
  function ProgressJson(p: SendorTask.Progress): (j: Json)
    ensures j.JObj?
    ensures j.fields.Keys == {"task_id", "description", "enqueue_time", "duration", "state",
                              "activity", "is_cancelable", "log"}
    ensures j.fields["task_id"] == (if p.taskId.Some? then JInt(p.taskId.value) else JNull)
    ensures j.fields["state"] == JStr(p.state) && j.fields["log"] == JStr(p.log)
    ensures j.fields["description"] == JStr(p.description) && j.fields["activity"] == JStr(p.activity)
    ensures j.fields["is_cancelable"] == JBool(p.isCancelable)
    ensures j.fields["enqueue_time"] == (if p.enqueueTime.Some? then JInt(p.enqueueTime.value) else JNull)
    ensures j.fields["duration"] == (if p.duration.Some? then JStr(p.duration.value) else JNull)
  {
    JObj(map[
      "task_id" := (if p.taskId.Some? then JInt(p.taskId.value) else JNull),
      "description" := JStr(p.description),
      "enqueue_time" := (if p.enqueueTime.Some? then JInt(p.enqueueTime.value) else JNull),
      "duration" := (if p.duration.Some? then JStr(p.duration.value) else JNull),
      "state" := JStr(p.state),
      "activity" := JStr(p.activity),
      "is_cancelable" := JBool(p.isCancelable),
      "log" := JStr(p.log)])
  }

  /** `tasks_notification`: a task the queue added, changed or removed is pushed, as its
      progress, on '/api/tasks'; the push reaches every listener when a session is
      active and nobody otherwise.  Another event raises before the progress is taken,
      and a progress that cannot be made raises too. */
  method TasksNotification(router: BacksyncRouter.Router, eventType: string, task: SendorTask.Task, now: nat)
    returns (r: Result<Option<BacksyncRouter.Broadcast>, string>)
    requires router.Valid()
    ensures PushVerb(eventType).None? ==> r == Err(NotImplemented)
    ensures PushVerb(eventType).Some? && task.Report(now).Err? ==> r == Err(task.Report(now).error)
    ensures PushVerb(eventType).Some? && task.Report(now).Ok? ==>
      && r.Ok?
      && (r.value.Some? <==> router.listeners != {})
      && (r.value.Some? ==> r.value.value == BacksyncRouter.Broadcast(router.listeners,
            BacksyncClient.EventName(TasksSyncName, PushVerb(eventType).value),
            ProgressJson(task.Report(now).value)))
  {
    var verb := PushVerb(eventType);
    if verb.None? {
      return Err(NotImplemented);
    }
    var progress := task.Report(now);
    if progress.Err? {
      return Err(progress.error);
    }
    var pushed := router.Push(TasksModel, verb.value, ProgressJson(progress.value));
    r := Ok(pushed);
  }

  /** `file_stash_notification`: a stash entry that was added, changed or removed is
      pushed, as its JSON, on '/api/file_stash'; another event raises. */
  method FileStashNotification(router: BacksyncRouter.Router, eventType: string, f: FileStash.StashedFile)
    returns (r: Result<Option<BacksyncRouter.Broadcast>, string>)
    requires router.Valid()
    ensures r.Err? <==> PushVerb(eventType).None?
    ensures r.Err? ==> r.error == NotImplemented
    ensures r.Ok? ==>
      && (r.value.Some? <==> router.listeners != {})
      && (r.value.Some? ==> r.value.value == BacksyncRouter.Broadcast(router.listeners,
            BacksyncClient.EventName(FileStashSyncName, PushVerb(eventType).value), FileStash.ToJson(f)))
  {
    var verb := PushVerb(eventType);
    if verb.None? {
      return Err(NotImplemented);
    }
    var pushed := router.Push(FileStashModel, verb.value, FileStash.ToJson(f));
    r := Ok(pushed);
  }

  /** A push of an observer event `eventType` on the channel `syncName` reaches the
      browser's collection served at that url: its event is one of the two the
      collection bound, the save channel for 'add' and 'change' and the delete channel
      for 'remove', and the browser, which holds no request under a push's missing id,
      triggers that event with the pushed record. */
  lemma PushReachesCollection(c: BacksyncClient.Collection, eventType: string, b: BacksyncRouter.Broadcast,
                              pending: BacksyncClient.PendingTable)
    requires Observable.ChangeEvent(eventType)
    requires b.event == BacksyncClient.EventName(c.url, PushVerb(eventType).value)
    ensures b.event in c.Channels()
    ensures b.event == c.Channels()[0] <==> eventType == "add" || eventType == "change"
    ensures b.event == c.Channels()[1] <==> eventType == "remove"
    ensures BacksyncClient.Dispatch(pending, BacksyncRouter.PushEnvelope(b))
      == (pending, BacksyncClient.Trigger(JStr(b.event), b.data))
  {
  }

  /** Every change the queue announces, once `tasks_notification` has made it a push,
      reaches the browser's task collection: on the save channel for 'add' and
      'change', on the delete channel for 'remove', carrying the task's progress. */
  lemma QueueAnnouncementReachesCollection(q: SendorQueue.Queue, i: nat, c: BacksyncClient.Collection,
                                           listeners: set<BacksyncRouter.Session>, now: nat,
                                           pending: BacksyncClient.PendingTable)
    requires q.Valid() && i < |q.events| && c.url == TasksSyncName
    requires q.events[i].task.Report(now).Ok?
    ensures PushVerb(q.events[i].eventType).Some?
    ensures var e := q.events[i];
      var b := BacksyncRouter.Broadcast(listeners, BacksyncClient.EventName(TasksSyncName, PushVerb(e.eventType).value),
                                        ProgressJson(e.task.Report(now).value));
      && b.event in c.Channels()
      && (b.event == c.Channels()[0] <==> e.eventType != "remove")
      && BacksyncClient.Dispatch(pending, BacksyncRouter.PushEnvelope(b))
         == (pending, BacksyncClient.Trigger(JStr(b.event), ProgressJson(e.task.Report(now).value)))
  {
    var e := q.events[i];
    var b := BacksyncRouter.Broadcast(listeners, BacksyncClient.EventName(TasksSyncName, PushVerb(e.eventType).value),
                                      ProgressJson(e.task.Report(now).value));
    PushReachesCollection(c, e.eventType, b, pending);
  }

  /** Every change the stash announces, once `file_stash_notification` has made it a
      push, reaches the browser's stash collection: on the save channel for 'add' and
      'change', on the delete channel for 'remove', carrying the entry's JSON. */
  lemma StashAnnouncementReachesCollection(stash: FileStash.Stash, i: nat, c: BacksyncClient.Collection,
                                           listeners: set<BacksyncRouter.Session>,
                                           pending: BacksyncClient.PendingTable)
    requires stash.Valid() && i < |stash.events| && c.url == FileStashSyncName
    ensures PushVerb(stash.events[i].eventType).Some?
    ensures var e := stash.events[i];
      var b := BacksyncRouter.Broadcast(listeners, BacksyncClient.EventName(FileStashSyncName, PushVerb(e.eventType).value),
                                        FileStash.ToJson(e.file));
      && b.event in c.Channels()
      && (b.event == c.Channels()[0] <==> e.eventType != "remove")
      && BacksyncClient.Dispatch(pending, BacksyncRouter.PushEnvelope(b))
         == (pending, BacksyncClient.Trigger(JStr(b.event), FileStash.ToJson(e.file)))
  {
    var e := stash.events[i];
    var b := BacksyncRouter.Broadcast(listeners, BacksyncClient.EventName(FileStashSyncName, PushVerb(e.eventType).value),
                                      FileStash.ToJson(e.file));
    PushReachesCollection(c, e.eventType, b, pending);
  }

  /** A pushed progress carries the task's id under 'task_id', the id attribute of the
      browser's task models: an enqueued task's upsert merges into the model of that
      task, and its delete finds that model. */
  lemma ProgressPushFindsTask(p: SendorTask.Progress, models: seq<BacksyncClient.Attributes>, i: nat)
    requires p.taskId.Some? && i < |models|
    requires BacksyncClient.IdOf(models[i], "task_id") == Some(JInt(p.taskId.value))
    requires BacksyncClient.UniqueIds(models, "task_id")
    ensures BacksyncClient.FindModel(models, "task_id", ProgressJson(p).fields) == Some(i)
  {
    var data := ProgressJson(p).fields;
    assert BacksyncClient.IdOf(data, "task_id") == Some(JInt(p.taskId.value));
    FindsTheModelWithTheId(models, "task_id", data, i);
  }

  lemma FindsTheModelWithTheId(models: seq<BacksyncClient.Attributes>, idAttribute: string,
                               data: BacksyncClient.Attributes, i: nat)
    requires i < |models| && BacksyncClient.IdOf(models[i], idAttribute).Some?
    requires BacksyncClient.IdOf(models[i], idAttribute) == BacksyncClient.IdOf(data, idAttribute)
    requires BacksyncClient.UniqueIds(models, idAttribute)
    ensures BacksyncClient.FindModel(models, idAttribute, data) == Some(i)
  {
    var found := BacksyncClient.FindModel(models, idAttribute, data);
    assert found.Some?;
    assert found.value >= i;
  }

  // ----- The handlers -----

  /** `{'collection': items}`, the shape every `read` returns. */
  function Collection(items: seq<Json>): (j: Json)
    ensures j.JObj? && j.fields.Keys == {"collection"} && j.fields["collection"] == JArr(items)
  {
    JObj(map["collection" := JArr(items)])
  }

  /** `FileStashHandler.read`: the stash entries in ascending timestamp order, as JSON. */
  function FileStashRead(listed: seq<FileStash.StashedFile>): (r: Json)
    ensures r.JObj? && r.fields.Keys == {"collection"} && r.fields["collection"].JArr?
    ensures var items := r.fields["collection"].items;
      && |items| == |listed|
      && forall k :: 0 <= k < |items| ==> items[k] == FileStash.ToJson(DistributionApi.SortByTimestamp(listed)[k])
  {
    var sorted := DistributionApi.SortByTimestamp(listed);
    Collection(seq(|sorted|, k requires 0 <= k < |sorted| => FileStash.ToJson(sorted[k])))
  }

  /** The socket and the REST route list the stash the same way, and that listing is
      every entry once, oldest first. */
  lemma FileStashReadAgrees(listed: seq<FileStash.StashedFile>)
    ensures FileStashRead(listed).fields["collection"].items == DistributionApi.FileStashGet(listed).body.items
    ensures var sorted := DistributionApi.SortByTimestamp(listed);
      && DistributionApi.SortedByTimestamp(sorted) && multiset(sorted) == multiset(listed)
      && FileStashRead(listed).fields["collection"].items ==
         seq(|sorted|, k requires 0 <= k < |sorted| => FileStash.ToJson(sorted[k]))
  {
    DistributionApi.SortByTimestampSorts(listed);
  }

  /** `TargetsHandler.read`: each target, in the order the dictionary lists the ids, as
      its id and name; a target without a name raises. */
  function TargetsRead(t: Targets.Targets, order: seq<string>): (r: Result<Json, Targets.TargetsError>)
    requires forall id :: id in order ==> id in t.GetTargets()
    ensures r.Ok? <==> DistributionApi.TargetsCollection(t.GetTargets(), order).Ok?
    ensures r.Ok? ==> r.value == Collection(DistributionApi.TargetsCollection(t.GetTargets(), order).value)
    ensures r.Err? ==> r.error == Targets.KeyError(Targets.NameKey)
  {
    match DistributionApi.TargetsCollection(t.GetTargets(), order)
    case Ok(items) => Ok(Collection(items))
    case Err(e) => Err(e)
  }

  /** The socket answers the targets with what the REST route answers with 200, and
      fails exactly when the route answers 500. */
  lemma TargetsReadAgrees(t: Targets.Targets, order: seq<string>)
    requires forall id :: id in order ==> id in t.GetTargets()
    ensures TargetsRead(t, order).Ok? <==> DistributionApi.TargetsGet(t, order).status == 200
    ensures TargetsRead(t, order).Ok? ==>
      DistributionApi.TargetsGet(t, order).body == DistributionApi.JsonCollection(TargetsRead(t, order).value.fields["collection"].items)
  {
  }

  /** `TasksHandler.read`: every task's progress, in queue order; the first task whose
      progress cannot be made raises. */
  function TasksRead(tasks: seq<SendorTask.Task>, now: nat): (r: Result<Json, string>)
    reads set t | t in tasks
    ensures r.Ok? <==> forall k :: 0 <= k < |tasks| ==> tasks[k].Report(now).Ok?
    ensures r.Ok? ==> r.value.JObj? && r.value.fields.Keys == {"collection"}
    ensures r.Ok? ==> var items := r.value.fields["collection"];
      && items.JArr? && |items.items| == |tasks|
      && forall k :: 0 <= k < |tasks| ==> items.items[k] == ProgressJson(tasks[k].Report(now).value)
  {
    match DistributionApi.TasksProgress(tasks, now)
    case Err(e) => Err(e)
    case Ok(ps) => Ok(Collection(seq(|ps|, k requires 0 <= k < |ps| => ProgressJson(ps[k]))))
  }

  /** What a handler method does when the router calls it: `read` returns the listing
      (or raises what the listing raised); `upsert` and `delete` raise
      `NotImplementedError`. */
  function HandlerCall(action: string, listing: Result<Json, string>): (o: BacksyncRouter.CallOutcome)
    ensures action != "read" ==> o == BacksyncRouter.Raised(NotImplemented)
    ensures action == "read" ==> (o.Returned? <==> listing.Ok?)
    ensures action == "read" && listing.Ok? ==> o.result == listing.value
  {
    if action != "read" then BacksyncRouter.Raised(NotImplemented)
    else match listing
      case Ok(j) => BacksyncRouter.Returned(j)
      case Err(e) => BacksyncRouter.Raised(e)
  }

  /** The methods each handler class defines. */
  const HandlerMethods: set<string> := {"read", "upsert", "delete"}
  const FileStashHandler: BacksyncRouter.Handler := BacksyncRouter.Handler(0, HandlerMethods)
  const TargetsHandler: BacksyncRouter.Handler := BacksyncRouter.Handler(1, HandlerMethods)
  const TasksHandler: BacksyncRouter.Handler := BacksyncRouter.Handler(2, HandlerMethods)

  /** `create_backsync_api`: the three handlers are registered under their urls; the
      two subscriptions are the notification methods above. */
  method CreateBacksyncApi(router: BacksyncRouter.Router)
    modifies router
    ensures router.models == old(router.models)[FileStashSyncName := FileStashHandler]
      [TargetsSyncName := TargetsHandler][TasksSyncName := TasksHandler]
    ensures router.listeners == old(router.listeners) && router.activeSession == old(router.activeSession)
  {
    router.Register(FileStashSyncName, FileStashHandler);
    router.Register(TargetsSyncName, TargetsHandler);
    router.Register(TasksSyncName, TasksHandler);
  }

  /** A browser that saves a task (Backbone's create or update, sent as upsert) gets a
      reply carrying the handler's exception, with no data. */
  lemma ClientSaveIsRefused(models: map<string, BacksyncRouter.Handler>, id: string,
                            m: BacksyncClient.SyncMethod, data: Json, listing: Result<Json, string>)
    requires TasksSyncName in models && models[TasksSyncName] == TasksHandler
    requires m == BacksyncClient.Create || m == BacksyncClient.Update
    requires id != ""
    ensures var msg := BacksyncRouter.ServerMessage(
              BacksyncClient.EventName(TasksSyncName, BacksyncClient.WireVerb(m)), JStr(id), data);
      var handled := BacksyncRouter.OnMessage(models, msg,
              (inv: BacksyncRouter.Invocation) => HandlerCall(inv.action, listing));
      && handled.Ok?
      && handled.value.reply.Some?
      && handled.value.reply.value.error == Some(BacksyncRouter.ExceptionError(NotImplemented))
      && handled.value.reply.value.data == JNull
  {
    var event := BacksyncClient.EventName(TasksSyncName, BacksyncClient.WireVerb(m));
    var msg := BacksyncRouter.ServerMessage(event, JStr(id), data);
    var run := (inv: BacksyncRouter.Invocation) => HandlerCall(inv.action, listing);
    assert BacksyncRouter.ParseEvent(event) == Some((TasksSyncName, "upsert")) by {
      assert ':' !in TasksSyncName;
      BacksyncRouter.ClientEventParses(TasksSyncName, m);
    }
    assert PyTruthy(JStr(id));
    var handled := BacksyncRouter.OnMessage(models, msg, run);
    assert handled.Ok? && handled.value.reply.Some?;
    assert handled.value.call == Some(BacksyncRouter.Invocation(TasksHandler, "upsert", data));
    assert run(handled.value.call.value) == BacksyncRouter.Raised(NotImplemented);
  }
}
