/**
 * The HTTP routes of the file distribution service (FileDistribution/rest_api.py,
 * and its earlier form FileDistribution/api.py).  The web framework is not
 * modelled: a route is a method or function over the queue, the stash and the
 * targets that returns the status code and body it answers with; an exception a
 * route lets through is answered with status 500.  The order in which a
 * dictionary lists its entries is not known to the program and is a parameter
 * here.
 */
module DistributionApi {
  import opened Common
  import opened Text
  import opened Json
  import opened Lists
  import opened SendorTask
  import opened SendorQueue
  import opened FileStash
  import Targets
  import SendorWorker

  /** What a route answers with. */
  datatype Body =
    | EmptyObject
    | MessageBody(message: string)
    | ProgressBody(progress: Progress)
    | ProgressCollection(progresses: seq<Progress>)
    | JsonCollection(items: seq<Json>)

  datatype Reply = Reply(status: nat, body: Body)

  /** `str` of a task id, which is `None` before the queue assigns one. */
  function IdString(id: Option<nat>): string {
    if id.Some? then NatToString(id.value) else "None"
  }

  function TaskNotFoundMessage(taskId: nat): string {
    "Task with id " + NatToString(taskId) + " does not exist in SendorQueue"
  }

  function TaskHasCompletedMessage(taskId: Option<nat>): string {
    "Task " + IdString(taskId) + " has already completed execution"
  }

  // ----- DistributeFileTask -----

  /** `string_description` of a distribution task. */
  function Description(source: string, target: string): string {
    "Distribute file " + source + " to " + target
  }

  /** A task that distributes one stashed file to one target, with the actions that
      will run it.  Its task holds a lock on the file from its construction and gives
      it back when it completes, fails or is canceled (`Task.End`). */
  class DistributeFileTask {
    const task: Task
    var actions: seq<Targets.Action>

    constructor (stash: Stash, source: string, target: string, fileId: string)
      ensures actions == []
      ensures fresh(task) && task.Valid() && task.held == FileLock(stash, fileId)
      ensures task.description == Description(source, target) && task.state == NotStarted
    {
      task := new Task(Description(source, target), FileLock(stash, fileId));
      actions := [];
    }

    /** Construction: the file is locked, or the missing file's error propagates and no
        task exists. */
    static method Create(stash: Stash, source: string, target: string, fileId: string)
      returns (r: Result<DistributeFileTask, StashError>)
      requires stash.Valid()
      modifies stash
      ensures stash.Valid()
      ensures r.Err? <==> fileId !in old(stash.stashed)
      ensures r.Err? ==> r.error == FileDoesNotExist(fileId) && stash.stashed == old(stash.stashed)
      ensures r.Ok? ==>
        && fresh(r.value) && fresh(r.value.task) && r.value.task.Valid()
        && r.value.task.held == FileLock(stash, fileId) && r.value.actions == []
        && r.value.task.description == Description(source, target) && r.value.task.state == NotStarted
        && stash.stashed == Relocked(old(stash.stashed), fileId, 1)
      ensures stash.physical == old(stash.physical) && stash.disk == old(stash.disk)
      ensures stash.uniqueId == old(stash.uniqueId)
    {
      var locked := stash.Lock(fileId);
      if locked.Err? {
        return Err(locked.error);
      }
      var d := new DistributeFileTask(stash, source, target, fileId);
      r := Ok(d);
    }
  }

  /** A distribution task canceled while it waits: making it locks the file,
      enqueueing it on a queue whose workers are all busy leaves it waiting, and the
      queue's cancel gives the lock back, so the stash's index is as it was. */
  method CancelWhileWaiting(stash: Stash, queue: Queue, source: string, target: string, fileId: string, now: nat)
    returns (r: Outcome<QueueError>, task: Task)
    requires stash.Valid() && queue.Valid() && fileId in stash.stashed
    requires |queue.workerTasks| == queue.numProcesses
    modifies stash, queue
    ensures stash.Valid() && queue.Valid()
    ensures r == Pass && task.state == Canceled && queue.tasks == old(queue.tasks) + [task]
    ensures stash.stashed == old(stash.stashed)
  {
    ghost var before := stash.stashed;
    var made := DistributeFileTask.Create(stash, source, target, fileId);
    task := made.value.task;
    queue.Add(task, now);
    assert task in queue.nonprocessed;
    r := queue.Cancel(task, now);
    LockThenUnlock(before, fileId);
  }

  /** A distribution task that the worker sees complete: the first resolution ends the
      task, which gives the lock back, so the stash's index is as it was before the
      task was made. */
  method CompleteInFlight(stash: Stash, worker: SendorWorker.Worker, source: string, target: string,
                          fileId: string, id: nat, now: nat)
    returns (r: Outcome<string>, task: Task)
    requires stash.Valid() && fileId in stash.stashed
    modifies stash, worker
    ensures stash.Valid()
    ensures r == Pass && task.state == Completed
    ensures stash.stashed == old(stash.stashed)
  {
    task := MakeInFlight(stash, worker, source, target, fileId, id);
    r := worker.HandleItem(SendorWorker.Status(id, "completed"), now, false, false);
    assert task.LockValid();
    LockThenUnlock(old(stash.stashed), fileId);
  }

  /** A distribution task made and handed to the worker under `id`: the file is
      locked once more and the task waits for its first status. */
  method MakeInFlight(stash: Stash, worker: SendorWorker.Worker, source: string, target: string,
                      fileId: string, id: nat)
    returns (task: Task)
    requires stash.Valid() && fileId in stash.stashed
    modifies stash, worker
    ensures fresh(task) && task.held == FileLock(stash, fileId) && task.LockValid()
    ensures task.state == NotStarted
    ensures worker.tasksInFlight == old(worker.tasksInFlight)[id := SendorWorker.InFlight(task, false, false)]
    ensures stash.stashed == Relocked(old(stash.stashed), fileId, 1)
  {
    var made := DistributeFileTask.Create(stash, source, target, fileId);
    task := made.value.task;
    worker.Add(task, id);
  }

  // ----- Routes over the queue -----

  /** The first task with the given id. */
  function Lookup(tasks: seq<Task>, taskId: nat): (r: Option<Task>)
    reads set t | t in tasks
    ensures r.None? <==> forall t :: t in tasks ==> t.taskId != Some(taskId)
    ensures r.Some? ==> r.value in tasks && r.value.taskId == Some(taskId)
  {
    if tasks == [] then None
    else if tasks[0].taskId == Some(taskId) then Some(tasks[0])
    else Lookup(tasks[1..], taskId)
  }

  /** The task the queue's `get` returns is the first one with the id. */
  lemma {:induction false} LookupFirst(tasks: seq<Task>, taskId: nat, i: nat)
    requires i < |tasks| && tasks[i].taskId == Some(taskId)
    requires forall j :: 0 <= j < i ==> tasks[j].taskId != Some(taskId)
    ensures Lookup(tasks, taskId) == Some(tasks[i])
  {
    if i > 0 {
      assert forall j :: 0 <= j < i - 1 ==> tasks[1..][j].taskId != Some(taskId) by {
        forall j | 0 <= j < i - 1 ensures tasks[1..][j].taskId != Some(taskId) {
          assert tasks[1..][j] == tasks[j + 1];
        }
      }
      LookupFirst(tasks[1..], taskId, i - 1);
    }
  }

  /** `[task.progress() for task in tasks]`: the first task whose state has no name
      raises. */
  function TasksProgress(tasks: seq<Task>, now: nat): (r: Result<seq<Progress>, string>)
    reads set t | t in tasks
    ensures r.Ok? <==> forall k :: 0 <= k < |tasks| ==> tasks[k].Report(now).Ok?
    ensures r.Ok? ==> |r.value| == |tasks| && forall k :: 0 <= k < |tasks| ==> r.value[k] == tasks[k].Report(now).value
  {
    if tasks == [] then Ok([])
    else match tasks[0].Report(now)
      case Err(e) => Err(e)
      case Ok(p) =>
        match TasksProgress(tasks[1..], now)
        case Err(e) => Err(e)
        case Ok(ps) => Ok([p] + ps)
  }

  /** `tasks_get`: the progress of every task of the queue, in queue order. */
  function TasksGet(queue: Queue, now: nat): (r: Reply)
    reads queue, set t | t in queue.tasks
    ensures r.status == 200 <==> TasksProgress(queue.tasks, now).Ok?
    ensures r.status == 200 ==> r.body == ProgressCollection(TasksProgress(queue.tasks, now).value)
    ensures r.status != 200 ==> r.status == 500
  {
    match TasksProgress(queue.tasks, now)
    case Ok(ps) => Reply(200, ProgressCollection(ps))
    case Err(e) => Reply(500, MessageBody(e))
  }

  /** `task_get`: the task's progress; an unknown id is answered with 404; a task whose
      progress cannot be rendered makes the route return nothing, which the framework
      answers with 500. */
  method TaskGet(queue: Queue, taskId: nat, now: nat) returns (r: Reply)
    ensures var found := Lookup(queue.tasks, taskId);
      && (found.None? ==> r == Reply(404, MessageBody(TaskNotFoundMessage(taskId))))
      && (found.Some? && found.value.Report(now).Ok? ==> r == Reply(200, ProgressBody(found.value.Report(now).value)))
      && (found.Some? && found.value.Report(now).Err? ==> r.status == 500)
  {
    var got := queue.Get(taskId);
    if got.Err? {
      return Reply(404, MessageBody(TaskNotFoundMessage(taskId)));
    }
    var i :| 0 <= i < |queue.tasks| && queue.tasks[i] == got.value
      && forall j :: 0 <= j < i ==> queue.tasks[j].taskId != Some(taskId);
    LookupFirst(queue.tasks, taskId, i);
    var report := got.value.Report(now);
    if report.Err? {
      return Reply(500, MessageBody(report.error));
    }
    r := Reply(200, ProgressBody(report.value));
  }

  /** `task_cancel`: an unknown id is answered with 404 and a task that has completed
      with 403, each with the exception's message; otherwise the queue cancels the
      task.  Cancelling a waiting distribution task gives back its lock on the
      stashed file.  Every task the routes enqueue holds its lock, if any, in the
      routes' stash. */
  method TaskCancel(queue: Queue, stash: Stash, taskId: nat, now: nat) returns (r: Reply)
    requires queue.Valid() && stash.Valid()
    requires forall t :: t in queue.tasks ==> t.held.NoLock? || t.held.stash == stash
    modifies queue, stash, set t | t in queue.tasks
    ensures queue.Valid() && stash.Valid()
    ensures var found := old(Lookup(queue.tasks, taskId));
      && (found.None? ==> r == Reply(404, MessageBody(TaskNotFoundMessage(taskId))))
      && (found.Some? && found.value !in old(queue.nonprocessed) && found.value !in old(queue.workerTasks) ==>
            r == Reply(403, MessageBody(TaskHasCompletedMessage(found.value.taskId))))
      && (found.Some? && found.value in old(queue.nonprocessed) ==>
            r == Reply(200, EmptyObject) && found.value.state == Canceled && found.value !in queue.nonprocessed)
      && (found.Some? && found.value !in old(queue.nonprocessed) && found.value in old(queue.workerTasks) ==>
            r == Reply(200, EmptyObject) && queue.cancelForwarded == old(queue.cancelForwarded) + [found.value])
    ensures var found := old(Lookup(queue.tasks, taskId));
      stash.stashed ==
        (if found.Some? && found.value in old(queue.nonprocessed) && found.value.held.FileLock?
         then Unlocked(old(stash.stashed), found.value.held.fileId)
         else old(stash.stashed))
    ensures stash.physical == old(stash.physical) && stash.disk == old(stash.disk)
    ensures queue.tasks == old(queue.tasks)
  {
    var got := queue.Get(taskId);
    if got.Err? {
      return Reply(404, MessageBody(TaskNotFoundMessage(taskId)));
    }
    var task := got.value;
    var i :| 0 <= i < |queue.tasks| && queue.tasks[i] == task
      && forall j :: 0 <= j < i ==> queue.tasks[j].taskId != Some(taskId);
    LookupFirst(queue.tasks, taskId, i);
    assert old(Lookup(queue.tasks, taskId)) == Some(task);
    r := CancelFound(queue, stash, task, now);
  }

  /** The answer of `task_cancel` for the task the id names: 403 for a task that has
      completed, otherwise 200 once the queue has canceled it. */
  method CancelFound(queue: Queue, stash: Stash, task: Task, now: nat) returns (r: Reply)
    requires queue.Valid() && stash.Valid()
    requires task.held.NoLock? || task.held.stash == stash
    modifies queue, stash, task
    ensures queue.Valid() && stash.Valid()
    ensures task !in old(queue.nonprocessed) && task !in old(queue.workerTasks) ==>
      r == Reply(403, MessageBody(TaskHasCompletedMessage(old(task.taskId))))
    ensures task in old(queue.nonprocessed) ==>
      r == Reply(200, EmptyObject) && task.state == Canceled && task !in queue.nonprocessed
    ensures task !in old(queue.nonprocessed) && task in old(queue.workerTasks) ==>
      r == Reply(200, EmptyObject) && queue.cancelForwarded == old(queue.cancelForwarded) + [task]
    ensures stash.stashed ==
      (if task in old(queue.nonprocessed) && task.held.FileLock?
       then Unlocked(old(stash.stashed), task.held.fileId)
       else old(stash.stashed))
    ensures stash.physical == old(stash.physical) && stash.disk == old(stash.disk)
    ensures queue.tasks == old(queue.tasks) && task.taskId == old(task.taskId)
  {
    var canceled := queue.Cancel(task, now);
    if canceled.Fail? {
      return Reply(403, MessageBody(TaskHasCompletedMessage(task.taskId)));
    }
    r := Reply(200, EmptyObject);
  }

  // ----- Routes over the stash -----

  /** `file_stash_delete`: a missing file is answered with 404 and a locked one with
      403, each with the exception's message; otherwise the entry is removed. */
  method FileStashDelete(stash: Stash, fileId: string) returns (r: Reply)
    requires stash.Valid()
    modifies stash
    ensures stash.Valid()
    ensures fileId !in old(stash.stashed) ==>
      r == Reply(404, MessageBody(ErrorMessage(FileDoesNotExist(fileId)))) && stash.stashed == old(stash.stashed)
    ensures fileId in old(stash.stashed) && !IsDeletable(old(stash.stashed)[fileId]) ==>
      r == Reply(403, MessageBody(ErrorMessage(FileCannotBeRemoved(fileId)))) && stash.stashed == old(stash.stashed)
    ensures fileId in old(stash.stashed) && IsDeletable(old(stash.stashed)[fileId]) ==>
      r == Reply(200, EmptyObject) && stash.stashed == old(stash.stashed) - {fileId}
  {
    var removed := stash.Remove(fileId);
    if removed.Fail? {
      return Reply(if removed.error.FileDoesNotExist? then 404 else 403, MessageBody(ErrorMessage(removed.error)));
    }
    r := Reply(200, EmptyObject);
  }

  predicate SortedByTimestamp(s: seq<StashedFile>) {
    forall i, j :: 0 <= i < j < |s| ==> s[i].timestamp <= s[j].timestamp
  }

  /** `f` placed after every entry not newer than it. */
  function InsertByTimestamp(f: StashedFile, s: seq<StashedFile>): (r: seq<StashedFile>)
    ensures |r| == |s| + 1
  {
    if s == [] then [f]
    else if f.timestamp < s[0].timestamp then [f] + s
    else [s[0]] + InsertByTimestamp(f, s[1..])
  }

  /** `sorted(..., cmp = ... timestamp ...)`: entries in ascending timestamp order;
      an entry listed later goes after listed-earlier entries of the same time. */
  function SortByTimestamp(s: seq<StashedFile>): (r: seq<StashedFile>)
    ensures |r| == |s|
  {
    if s == [] then []
    else InsertByTimestamp(s[|s| - 1], SortByTimestamp(s[..|s| - 1]))
  }

  lemma {:induction false} InsertPermutes(f: StashedFile, s: seq<StashedFile>)
    ensures multiset(InsertByTimestamp(f, s)) == multiset(s) + multiset{f}
  {
    if s != [] && f.timestamp >= s[0].timestamp {
      InsertPermutes(f, s[1..]);
      assert s == [s[0]] + s[1..];
    }
  }

  lemma {:induction false} InsertSorted(f: StashedFile, s: seq<StashedFile>)
    requires SortedByTimestamp(s)
    ensures SortedByTimestamp(InsertByTimestamp(f, s))
  {
    if s != [] && f.timestamp >= s[0].timestamp {
      var rest := InsertByTimestamp(f, s[1..]);
      InsertSorted(f, s[1..]);
      InsertPermutes(f, s[1..]);
      forall j | 0 <= j < |rest| ensures s[0].timestamp <= rest[j].timestamp {
        assert rest[j] in multiset(rest);
        assert rest[j] == f || rest[j] in s[1..];
      }
    }
  }

  /** The stash listing is sorted, and holds exactly the entries it was given. */
  lemma {:induction false} SortByTimestampSorts(s: seq<StashedFile>)
    ensures SortedByTimestamp(SortByTimestamp(s))
    ensures multiset(SortByTimestamp(s)) == multiset(s)
  {
    if s != [] {
      SortByTimestampSorts(s[..|s| - 1]);
      InsertSorted(s[|s| - 1], SortByTimestamp(s[..|s| - 1]));
      InsertPermutes(s[|s| - 1], SortByTimestamp(s[..|s| - 1]));
      assert s == s[..|s| - 1] + [s[|s| - 1]];
    }
  }

  /** `file_stash_get`: the entries the stash lists, oldest first, as JSON. */
  function FileStashGet(listed: seq<StashedFile>): (r: Reply)
    ensures r.status == 200 && r.body.JsonCollection? && |r.body.items| == |listed|
    ensures forall k :: 0 <= k < |listed| ==> r.body.items[k] == ToJson(SortByTimestamp(listed)[k])
  {
    var sorted := SortByTimestamp(listed);
    Reply(200, JsonCollection(seq(|sorted|, k requires 0 <= k < |sorted| => ToJson(sorted[k]))))
  }

  /** `targets_get`: each target, in the order the dictionary lists the ids, as exactly
      its id and its name; a target without a name raises. */
  function TargetsCollection(targets: map<string, Targets.Target>, order: seq<string>)
    : (r: Result<seq<Json>, Targets.TargetsError>)
    requires forall id :: id in order ==> id in targets
    ensures r.Ok? <==> forall k :: 0 <= k < |order| ==> Targets.NameKey in targets[order[k]]
    ensures r.Err? ==> r.error == Targets.KeyError(Targets.NameKey)
    ensures r.Ok? ==> |r.value| == |order| && forall k :: 0 <= k < |order| ==>
      && r.value[k].JObj? && r.value[k].fields.Keys == {"target_id", "name"}
      && r.value[k].fields["target_id"] == JStr(order[k])
      && r.value[k].fields["name"] == JStr(targets[order[k]][Targets.NameKey])
  {
    if order == [] then Ok([])
    else
      var id := order[0];
      if Targets.NameKey !in targets[id] then Err(Targets.KeyError(Targets.NameKey))
      else
        match TargetsCollection(targets, order[1..])
        case Err(e) => Err(e)
        case Ok(rest) =>
          Ok([JObj(map["target_id" := JStr(id), "name" := JStr(targets[id][Targets.NameKey])])] + rest)
  }

  /** A listed target's entry carries the id `id`. */
  predicate ListsId(item: Json, id: string) {
    item.JObj? && "target_id" in item.fields && item.fields["target_id"] == JStr(id)
  }

  /** Listing every id once lists every target exactly once. */
  lemma TargetsListedOnce(targets: map<string, Targets.Target>, order: seq<string>)
    requires NoDuplicates(order) && forall id :: id in order <==> id in targets
    requires TargetsCollection(targets, order).Ok?
    ensures var items := TargetsCollection(targets, order).value;
      && (forall id :: id in targets ==> exists k :: 0 <= k < |items| && ListsId(items[k], id))
      && (forall k, m, id :: 0 <= k < m < |items| && ListsId(items[k], id) ==> !ListsId(items[m], id))
  {
    var items := TargetsCollection(targets, order).value;
    assert |items| == |order|;
    forall k | 0 <= k < |items| ensures ListsId(items[k], order[k]) {
    }
    forall id | id in targets
      ensures exists k :: 0 <= k < |items| && ListsId(items[k], id)
    {
      assert id in order;
      var k :| 0 <= k < |order| && order[k] == id;
      assert ListsId(items[k], order[k]);
    }
    forall k, m, id | 0 <= k < m < |items| && ListsId(items[k], id)
      ensures !ListsId(items[m], id)
    {
      assert ListsId(items[k], order[k]) && ListsId(items[m], order[m]);
      assert order[k] != order[m];
    }
  }

  /** The route's answer for the targets. */
  function TargetsGet(t: Targets.Targets, order: seq<string>): (r: Reply)
    requires forall id :: id in order ==> id in t.GetTargets()
    ensures r.status == 200 <==> TargetsCollection(t.GetTargets(), order).Ok?
    ensures r.status == 200 ==> r.body == JsonCollection(TargetsCollection(t.GetTargets(), order).value)
    ensures r.status != 200 ==> r.status == 500
  {
    match TargetsCollection(t.GetTargets(), order)
    case Ok(items) => Reply(200, JsonCollection(items))
    case Err(e) => Reply(500, MessageBody(Targets.ErrorMessage(e)))
  }

  /** The empty stash and the empty queue are listed as empty collections. */
  lemma EmptyCollections(queue: Queue, now: nat)
    requires queue.tasks == []
    ensures TasksGet(queue, now) == Reply(200, ProgressCollection([]))
    ensures FileStashGet([]) == Reply(200, JsonCollection([]))
  {
  }

  // ----- Distributing a file -----

  /** The actions for a stashed file and a target. */
  function ActionsFor(targets: Targets.Targets, registry: Targets.Registry, stashRoot: string,
                      f: StashedFile, targetId: string): Result<seq<Targets.Action>, Targets.TargetsError>
    reads registry
  {
    Targets.CreateDistributionActions(targets, registry, PathJoin(stashRoot, f.sha1sum), f.originalFilename,
                                      Some(f.sha1sum), Some(f.size), targetId)
  }

  /** Adding two lock changes to an entry's count. */
  lemma RelockedTwice(stashed: map<string, StashedFile>, fileId: string, a: int, b: int)
    requires fileId in stashed
    ensures Relocked(Relocked(stashed, fileId, a), fileId, b) == Relocked(stashed, fileId, a + b)
  {
  }

  /** The first steps of `file_stash_distribute`: the route locks the file, then makes
      the task, which locks it again. */
  method LockAndMakeTask(stash: Stash, fileId: string, targetId: string)
    returns (r: Result<(StashedFile, DistributeFileTask), StashError>)
    requires stash.Valid()
    modifies stash
    ensures stash.Valid()
    ensures r.Err? <==> fileId !in old(stash.stashed)
    ensures r.Err? ==> r.error == FileDoesNotExist(fileId) && stash.stashed == old(stash.stashed)
    ensures r.Ok? ==>
      var (f, d) := r.value;
      && f == old(stash.stashed)[fileId].(refCount := old(stash.stashed)[fileId].refCount + 1)
      && fresh(d) && fresh(d.task) && d.actions == [] && d.task.held == FileLock(stash, fileId)
      && d.task.description == Description(f.originalFilename, targetId)
      && stash.stashed == Relocked(old(stash.stashed), fileId, 2)
  {
    ghost var before := stash.stashed;
    var locked := stash.Lock(fileId);
    if locked.Err? {
      return Err(locked.error);
    }
    var f := locked.value;
    ghost var once := stash.stashed;
    assert once == Relocked(before, fileId, 1);
    var made := DistributeFileTask.Create(stash, f.originalFilename, targetId, fileId);
    assert stash.stashed == Relocked(once, fileId, 1);
    RelockedTwice(before, fileId, 1, 1);
    r := Ok((f, made.value));
  }

  /** The last steps of `file_stash_distribute` once the actions are built (or have
      raised): actions that were built go to the task and the task to the queue; in
      both cases the route then releases its own lock. */
  method Finish(stash: Stash, queue: Queue, d: DistributeFileTask,
                built: Result<seq<Targets.Action>, Targets.TargetsError>, fileId: string, now: nat,
    ghost before: map<string, StashedFile>)
    returns (r: Reply)
    requires stash.Valid() && queue.Valid() && fileId in before
    requires stash.stashed == Relocked(before, fileId, 2)
    requires d.task !in queue.tasks
    modifies stash, queue, d, d.task
    ensures stash.Valid() && queue.Valid()
    ensures stash.stashed == Relocked(before, fileId, 1)
    ensures built.Err? ==>
      && r == Reply(500, MessageBody(Targets.ErrorMessage(built.error)))
      && queue.tasks == old(queue.tasks) && d.actions == old(d.actions)
    ensures built.Ok? ==>
      && r == Reply(200, EmptyObject)
      && queue.tasks == old(queue.tasks) + [d.task] && d.actions == old(d.actions) + built.value
  {
    if built.Ok? {
      d.actions := d.actions + built.value;
      queue.Add(d.task, now);
      r := Reply(200, EmptyObject);
    } else {
      r := Reply(500, MessageBody(Targets.ErrorMessage(built.error)));
    }
    ReleaseRouteLock(stash, fileId, before);
  }

  /** The route's own lock, given back once the task holds its own: the entry keeps
      the task's lock only. */
  method ReleaseRouteLock(stash: Stash, fileId: string, ghost before: map<string, StashedFile>)
    requires stash.Valid() && fileId in before
    requires stash.stashed == Relocked(before, fileId, 2)
    modifies stash
    ensures stash.Valid()
    ensures stash.stashed == Relocked(before, fileId, 1)
  {
    ghost var locked := stash.stashed;
    stash.Unlock(fileId);
    assert stash.stashed == Relocked(locked, fileId, -1);
    RelockedTwice(before, fileId, 2, -1);
  }

  /** `file_stash_distribute`, as written.  The route locks the file (a missing file is
      answered with 404), makes the task, which locks it again, builds the actions and
      enqueues the task, then releases its own lock.  When building the actions
      raises, the route releases its own lock and re-raises, but the task, never
      enqueued, keeps its lock: the entry stays locked for good. */
  method FileStashDistribute(stash: Stash, queue: Queue, targets: Targets.Targets, registry: Targets.Registry,
                             stashRoot: string, fileId: string, targetId: string, now: nat)
    returns (r: Reply, created: Option<DistributeFileTask>)
    requires stash.Valid() && queue.Valid()
    modifies stash, queue
    ensures stash.Valid() && queue.Valid()
    ensures fileId !in old(stash.stashed) ==>
      && r == Reply(404, MessageBody(ErrorMessage(FileDoesNotExist(fileId))))
      && created.None? && stash.stashed == old(stash.stashed) && queue.tasks == old(queue.tasks)
    ensures fileId in old(stash.stashed) ==> stash.stashed == Relocked(old(stash.stashed), fileId, 1)
    ensures fileId in old(stash.stashed) ==>
      created.Some? && created.value.task.description == Description(old(stash.stashed)[fileId].originalFilename, targetId)
    ensures fileId in old(stash.stashed) ==>
      var built := old(ActionsFor(targets, registry, stashRoot, stash.stashed[fileId], targetId));
      && (built.Err? ==> r == Reply(500, MessageBody(Targets.ErrorMessage(built.error))) && queue.tasks == old(queue.tasks))
      && (built.Ok? ==>
        && r == Reply(200, EmptyObject)
        && created.value.actions == built.value
        && queue.tasks == old(queue.tasks) + [created.value.task])
  {
    var made := LockAndMakeTask(stash, fileId, targetId);
    if made.Err? {
      return Reply(404, MessageBody(ErrorMessage(made.error))), None;
    }
    var (f, d) := made.value;
    var built := Targets.CreateDistributionActions(targets, registry, PathJoin(stashRoot, f.sha1sum),
                                                   f.originalFilename, Some(f.sha1sum), Some(f.size), targetId);
    assert built == old(ActionsFor(targets, registry, stashRoot, stash.stashed[fileId], targetId));
    r := Finish(stash, queue, d, built, fileId, now, old(stash.stashed));
    created := Some(d);
  }

  /** The task's own lock, given back when the task will never run: the entry is as
      it was before the route locked it. */
  method ReleaseTaskLock(stash: Stash, fileId: string, ghost before: map<string, StashedFile>)
    requires stash.Valid() && fileId in before
    requires stash.stashed == Relocked(before, fileId, 1)
    modifies stash
    ensures stash.Valid()
    ensures stash.stashed == before
  {
    ghost var locked := stash.stashed;
    stash.Unlock(fileId);
    assert stash.stashed == Relocked(locked, fileId, -1);
    RelockedTwice(before, fileId, 1, -1);
    assert Relocked(before, fileId, 0) == before;
  }

  /** `file_stash_distribute` as evidently intended: when building the actions
      raises, the task that will never run gives back its lock too, so a failed
      distribution leaves the stash as it found it. */
  method FileStashDistributeReleasing(stash: Stash, queue: Queue, targets: Targets.Targets,
                                      registry: Targets.Registry, stashRoot: string, fileId: string,
                                      targetId: string, now: nat)
    returns (r: Reply, created: Option<DistributeFileTask>)
    requires stash.Valid() && queue.Valid()
    modifies stash, queue
    ensures stash.Valid() && queue.Valid()
    ensures fileId !in old(stash.stashed) ==>
      && r == Reply(404, MessageBody(ErrorMessage(FileDoesNotExist(fileId))))
      && created.None? && stash.stashed == old(stash.stashed) && queue.tasks == old(queue.tasks)
    ensures fileId in old(stash.stashed) ==>
      var built := old(ActionsFor(targets, registry, stashRoot, stash.stashed[fileId], targetId));
      && (built.Err? ==>
        && r == Reply(500, MessageBody(Targets.ErrorMessage(built.error)))
        && created.None? && stash.stashed == old(stash.stashed) && queue.tasks == old(queue.tasks))
      && (built.Ok? ==>
        && r == Reply(200, EmptyObject)
        && stash.stashed == Relocked(old(stash.stashed), fileId, 1)
        && created.Some? && created.value.actions == built.value
        && created.value.task.description == Description(old(stash.stashed)[fileId].originalFilename, targetId)
        && queue.tasks == old(queue.tasks) + [created.value.task])
  {
    var made := LockAndMakeTask(stash, fileId, targetId);
    if made.Err? {
      return Reply(404, MessageBody(ErrorMessage(made.error))), None;
    }
    var (f, d) := made.value;
    var built := Targets.CreateDistributionActions(targets, registry, PathJoin(stashRoot, f.sha1sum),
                                                   f.originalFilename, Some(f.sha1sum), Some(f.size), targetId);
    assert built == old(ActionsFor(targets, registry, stashRoot, stash.stashed[fileId], targetId));
    r := Finish(stash, queue, d, built, fileId, now, old(stash.stashed));
    if built.Err? {
      ReleaseTaskLock(stash, fileId, old(stash.stashed));
      return r, None;
    }
    created := Some(d);
  }

  /** A fresh stash holding one uploaded file, under id "0", that nothing holds. */
  method OneFileStash() returns (stash: Stash)
    ensures fresh(stash) && stash.Valid()
    ensures "0" in stash.stashed && IsDeletable(stash.stashed["0"])
  {
    stash := new Stash();
    var added := stash.Add("upload.bin", "da39a3ee5e6b4b0d3255bfef95601890afd80709  upload.bin", 0, 0);
    assert NatToString(0) == "0";
  }

  /** That file, distributed to a target id that is not configured: the route as
      written answers 500, and the file can no longer be deleted. */
  method UnknownTargetLeaks() returns (reply: Reply, removed: Outcome<StashError>)
    ensures reply == Reply(500, MessageBody(Targets.ErrorMessage(Targets.UnknownTarget("nowhere"))))
    ensures removed == Fail(FileCannotBeRemoved("0"))
  {
    var registry := new Targets.Registry();
    var stash := OneFileStash();
    var queue := new Queue(1, "work");
    var created;
    reply, created := FileStashDistribute(stash, queue, Targets.Targets(map[]), registry, "stash", "0", "nowhere", 0);
    removed := stash.Remove("0");
  }

  /** The same distribution through the corrected route: the same answer, and the
      file can still be deleted. */
  method UnknownTargetReleases() returns (reply: Reply, removed: Outcome<StashError>)
    ensures reply == Reply(500, MessageBody(Targets.ErrorMessage(Targets.UnknownTarget("nowhere"))))
    ensures removed == Pass
  {
    var registry := new Targets.Registry();
    var stash := OneFileStash();
    var queue := new Queue(1, "work");
    var created;
    reply, created := FileStashDistributeReleasing(stash, queue, Targets.Targets(map[]), registry, "stash", "0", "nowhere", 0);
    removed := stash.Remove("0");
  }
}
