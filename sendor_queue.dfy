/**
 * The task queue: every task ever added (`tasks`), the ones waiting for a worker
 * (`nonprocessed_tasks`) and the ones a worker is running (`worker_tasks`).  At most
 * `num_processes` tasks run at once, and the waiting task added last is the next to
 * run.  The worker itself is represented by the calls handed to it; its own
 * bookkeeping is modelled in module SendorWorker.
 */
module SendorQueue {
  import opened Common
  import opened Text
  import opened Lists
  import opened SendorTask
  import Observable

  datatype QueueError = TaskNotFound | TaskHasCompleted | TaskHasNotCompleted

  /** The waiting and running lists, as one value. */
  datatype Lanes = Lanes(waiting: seq<Task>, running: seq<Task>)

  /** `process_next_task_if_available` on the lists: while there is room and a task
      waits, the waiting task at the end of the list moves to the end of the running
      list. */
  function DispatchStep(l: Lanes, numProcesses: nat): Lanes {
    if |l.running| < numProcesses && l.waiting != [] then
      Lanes(l.waiting[..|l.waiting| - 1], l.running + [l.waiting[|l.waiting| - 1]])
    else l
  }

  /** Whether `DispatchStep` moves a task. */
  predicate Dispatches(l: Lanes, numProcesses: nat) {
    |l.running| < numProcesses && l.waiting != []
  }

  /** The lanes keep their tasks apart, without duplicates, and run no more tasks
      than there are processes. */
  ghost predicate LanesOk(l: Lanes, numProcesses: nat) {
    && NoDuplicates(l.waiting)
    && NoDuplicates(l.running)
    && (forall t :: t in l.waiting ==> t !in l.running)
    && |l.running| <= numProcesses
  }

  /** Dispatch keeps the lanes well formed, runs the last waiting task when there is
      room, and loses and invents no task. */
  lemma DispatchStepOk(l: Lanes, numProcesses: nat)
    requires LanesOk(l, numProcesses)
    ensures LanesOk(DispatchStep(l, numProcesses), numProcesses)
    ensures Dispatches(l, numProcesses) ==>
      && DispatchStep(l, numProcesses).running == l.running + [l.waiting[|l.waiting| - 1]]
      && l.waiting[|l.waiting| - 1] !in DispatchStep(l, numProcesses).waiting
    ensures !Dispatches(l, numProcesses) ==> DispatchStep(l, numProcesses) == l
    ensures forall t :: (t in l.waiting || t in l.running) <==>
      (t in DispatchStep(l, numProcesses).waiting || t in DispatchStep(l, numProcesses).running)
  {
    if Dispatches(l, numProcesses) {
      var last := l.waiting[|l.waiting| - 1];
      DropLast(l.waiting);
      AppendFresh(l.running, last);
    }
  }

  /** Tasks whose age at `now` exceeds `limit` seconds, in list order: the selection
      of the cleanup thread. */
  function Older(ts: seq<Task>, now: int, limit: int): (r: seq<Task>)
    reads ts
    requires forall i :: 0 <= i < |ts| ==> ts[i].enqueueTime.Some?
    ensures forall i :: 0 <= i < |ts| ==> (ts[i] in r <==> now - ts[i].enqueueTime.value > limit)
    ensures forall k :: 0 <= k < |r| ==> r[k] in ts
    ensures |r| <= |ts|
  {
    if ts == [] then []
    else
      var last := ts[|ts| - 1];
      Older(ts[..|ts| - 1], now, limit) + (if now - last.enqueueTime.value > limit then [last] else [])
  }

  class Queue {
    const numProcesses: nat
    /** `os.path.join(work_directory, 'active_tasks')`. */
    const tasksWorkDirectory: string
    var uniqueId: nat
    var tasks: seq<Task>
    var nonprocessed: seq<Task>
    var workerTasks: seq<Task>
    /** The tasks handed to `worker.add`, in order. */
    var handedToWorker: seq<Task>
    /** The tasks handed to `worker.cancel`, in order. */
    var cancelForwarded: seq<Task>
    /** The queue's own notifications, in order. */
    var events: seq<Notification>

    ghost predicate Valid()
      reads this
    {
      && LanesOk(Lanes(nonprocessed, workerTasks), numProcesses)
      && NoDuplicates(tasks)
      && (forall t :: t in nonprocessed ==> t in tasks)
      && (forall t :: t in workerTasks ==> t in tasks)
      && (forall i :: 0 <= i < |events| ==> Observable.ChangeEvent(events[i].eventType))
    }

    constructor(numProcesses: nat, workDirectory: string)
      ensures Valid()
      ensures this.numProcesses == numProcesses
      ensures tasksWorkDirectory == PathJoin(workDirectory, "active_tasks")
      ensures uniqueId == 0 && tasks == [] && nonprocessed == [] && workerTasks == []
      ensures handedToWorker == [] && cancelForwarded == [] && events == []
    {
      this.numProcesses := numProcesses;
      tasksWorkDirectory := PathJoin(workDirectory, "active_tasks");
      uniqueId := 0;
      tasks := [];
      nonprocessed := [];
      workerTasks := [];
      handedToWorker := [];
      cancelForwarded := [];
      events := [];
    }

    /** `process_next_task_if_available`. */
    method ProcessNextTaskIfAvailable()
      requires Valid()
      modifies this
      ensures Valid()
      ensures Lanes(nonprocessed, workerTasks) == DispatchStep(Lanes(old(nonprocessed), old(workerTasks)), numProcesses)
      ensures handedToWorker == old(handedToWorker) +
        (if Dispatches(Lanes(old(nonprocessed), old(workerTasks)), numProcesses)
         then [old(nonprocessed)[|old(nonprocessed)| - 1]] else [])
      ensures tasks == old(tasks) && uniqueId == old(uniqueId)
      ensures cancelForwarded == old(cancelForwarded) && events == old(events)
    {
      DispatchStepOk(Lanes(nonprocessed, workerTasks), numProcesses);
      if |workerTasks| < numProcesses && nonprocessed != [] {
        var task := nonprocessed[|nonprocessed| - 1];
        nonprocessed := nonprocessed[..|nonprocessed| - 1];
        workerTasks := workerTasks + [task];
        handedToWorker := handedToWorker + [task];
      }
    }

    /** `add`: the task gets the next id, its own work directory under the queue's and
        the enqueue time, joins both the full and the waiting list, becomes cancelable
        and is announced; then a worker slot is filled if one is free. */
    method Add(task: Task, now: nat)
      requires Valid() && task !in tasks
      modifies this, task
      ensures Valid()
      ensures uniqueId == old(uniqueId) + 1
      ensures task.taskId == Some(old(uniqueId))
      ensures task.workDirectory == Some(PathJoin(tasksWorkDirectory, NatToString(old(uniqueId))))
      ensures task.enqueueTime == Some(now) && task.isCancelable
      ensures task.state == old(task.state) && task.log == old(task.log)
      ensures tasks == old(tasks) + [task]
      ensures Lanes(nonprocessed, workerTasks) ==
        DispatchStep(Lanes(old(nonprocessed) + [task], old(workerTasks)), numProcesses)
      ensures events == old(events) + [Notification("add", task)]
      ensures handedToWorker == old(handedToWorker) + (if |old(workerTasks)| < numProcesses then [task] else [])
      ensures cancelForwarded == old(cancelForwarded)
    {
      var taskId := uniqueId;
      uniqueId := uniqueId + 1;
      var dir := PathJoin(tasksWorkDirectory, NatToString(taskId));
      task.Enqueued(taskId, dir, now);
      AppendFresh(nonprocessed, task);
      AppendFresh(tasks, task);
      nonprocessed := nonprocessed + [task];
      tasks := tasks + [task];
      task.SetCancelable(true);
      events := events + [Notification("add", task)];
      assert nonprocessed[|nonprocessed| - 1] == task;
      assert Dispatches(Lanes(nonprocessed, workerTasks), numProcesses) <==> |workerTasks| < numProcesses;
      ProcessNextTaskIfAvailable();
    }

    /** The queue's subscription to its worker.  A `'change'` is passed on.  A
        `'remove'` takes the task off the running list (raising, as `list.remove`
        does, when it is not there), makes it no longer cancelable, is passed on as a
        `'change'`, and lets the next waiting task run.  Other events are ignored. */
    method Notifier(eventType: string, task: Task) returns (r: Outcome<string>)
      requires Valid()
      modifies this, task
      ensures Valid()
      ensures r.Fail? <==> eventType == "remove" && task !in old(workerTasks)
      ensures r.Fail? || (eventType != "change" && eventType != "remove") ==>
        && events == old(events) && workerTasks == old(workerTasks)
        && nonprocessed == old(nonprocessed) && handedToWorker == old(handedToWorker)
        && task.isCancelable == old(task.isCancelable)
      ensures eventType == "change" ==>
        && events == old(events) + [Notification("change", task)]
        && workerTasks == old(workerTasks) && nonprocessed == old(nonprocessed)
        && handedToWorker == old(handedToWorker) && task.isCancelable == old(task.isCancelable)
      ensures eventType == "remove" && r.Pass? ==>
        && task !in workerTasks && !task.isCancelable
        && events == old(events) + [Notification("change", task)]
        && Lanes(nonprocessed, workerTasks) ==
          DispatchStep(Lanes(old(nonprocessed), RemoveFirst(old(workerTasks), task)), numProcesses)
        && handedToWorker == old(handedToWorker) +
          (if Dispatches(Lanes(old(nonprocessed), RemoveFirst(old(workerTasks), task)), numProcesses)
           then [old(nonprocessed)[|old(nonprocessed)| - 1]] else [])
      ensures tasks == old(tasks) && uniqueId == old(uniqueId) && cancelForwarded == old(cancelForwarded)
      ensures task.state == old(task.state) && task.log == old(task.log) && task.taskId == old(task.taskId)
    {
      r := Pass;
      if eventType == "change" {
        events := events + [Notification("change", task)];
      } else if eventType == "remove" {
        if task !in workerTasks {
          return Fail("list.remove(x): x not in list");
        }
        RemoveFirstExact(workerTasks, task);
        workerTasks := RemoveFirst(workerTasks, task);
        task.SetCancelable(false);
        events := events + [Notification("change", task)];
        ProcessNextTaskIfAvailable();
      }
    }

    /** `list`: a copy of every task the queue holds. */
    method List() returns (r: seq<Task>)
      ensures r == tasks
    {
      r := tasks;
    }

    /** `get`: the first task with the given id, or `TaskNotFoundError`. */
    method Get(taskId: nat) returns (r: Result<Task, QueueError>)
      ensures r.Err? <==> forall t :: t in tasks ==> t.taskId != Some(taskId)
      ensures r.Err? ==> r.error == TaskNotFound
      ensures r.Ok? ==> r.value.taskId == Some(taskId)
      ensures r.Ok? ==> exists i :: (0 <= i < |tasks| && tasks[i] == r.value
        && forall j :: 0 <= j < i ==> tasks[j].taskId != Some(taskId))
    {
      var i := 0;
      while i < |tasks|
        invariant 0 <= i <= |tasks|
        invariant forall j :: 0 <= j < i ==> tasks[j].taskId != Some(taskId)
      {
        if tasks[i].taskId == Some(taskId) {
          return Ok(tasks[i]);
        }
        i := i + 1;
      }
      return Err(TaskNotFound);
    }

    /** `cancel`: a waiting task is canceled, which for a task holding a stash lock
        gives the lock back, and leaves the waiting list; a running task is passed to
        the worker to cancel; any other task has completed. */
    method Cancel(task: Task, now: nat) returns (r: Outcome<QueueError>)
      requires Valid() && task.LockValid()
      modifies this, task.EndFrame()
      ensures Valid() && task.LockValid()
      ensures task.LockReleased(task in old(nonprocessed))
      ensures r.Fail? <==> task !in old(nonprocessed) && task !in old(workerTasks)
      ensures r.Fail? ==> r.error == TaskHasCompleted
      ensures task in old(nonprocessed) ==>
        && task.state == Canceled && task.endTime == Some(now)
        && nonprocessed == RemoveFirst(old(nonprocessed), task) && task !in nonprocessed
        && events == old(events) + [Notification("change", task)]
        && cancelForwarded == old(cancelForwarded)
      ensures task !in old(nonprocessed) ==>
        && nonprocessed == old(nonprocessed) && events == old(events)
        && task.state == old(task.state) && task.endTime == old(task.endTime)
      ensures task !in old(nonprocessed) && task in old(workerTasks) ==>
        cancelForwarded == old(cancelForwarded) + [task]
      ensures r.Fail? ==> cancelForwarded == old(cancelForwarded)
      ensures tasks == old(tasks) && workerTasks == old(workerTasks)
      ensures handedToWorker == old(handedToWorker) && uniqueId == old(uniqueId)
      ensures task.isCancelable == old(task.isCancelable) && task.log == old(task.log) && task.taskId == old(task.taskId)
    {
      if task in nonprocessed {
        task.End(Canceled, now);
        RemoveFirstExact(nonprocessed, task);
        nonprocessed := RemoveFirst(nonprocessed, task);
        events := events + [Notification("change", task)];
        r := Pass;
      } else if task in workerTasks {
        cancelForwarded := cancelForwarded + [task];
        r := Pass;
      } else {
        r := Fail(TaskHasCompleted);
      }
    }

    /** `remove`: an unknown task is not found, a waiting or running one has not
        completed; otherwise exactly that task leaves the queue and is announced. */
    method Remove(task: Task) returns (r: Outcome<QueueError>)
      requires Valid()
      modifies this
      ensures Valid()
      ensures r == Fail(TaskNotFound) <==> task !in old(tasks)
      ensures r == Fail(TaskHasNotCompleted) <==>
        task in old(tasks) && (task in old(nonprocessed) || task in old(workerTasks))
      ensures r.Pass? ==>
        && tasks == RemoveFirst(old(tasks), task) && task !in tasks
        && (forall t :: t != task ==> (t in tasks <==> t in old(tasks)))
        && events == old(events) + [Notification("remove", task)]
      ensures r.Fail? ==> tasks == old(tasks) && events == old(events)
      ensures nonprocessed == old(nonprocessed) && workerTasks == old(workerTasks)
      ensures handedToWorker == old(handedToWorker) && cancelForwarded == old(cancelForwarded)
      ensures uniqueId == old(uniqueId)
    {
      if task !in tasks {
        return Fail(TaskNotFound);
      }
      if task in nonprocessed || task in workerTasks {
        return Fail(TaskHasNotCompleted);
      }
      RemoveFirstExact(tasks, task);
      tasks := RemoveFirst(tasks, task);
      events := events + [Notification("remove", task)];
      r := Pass;
    }

    /** The selection step of the cleanup thread: waiting tasks older than the wait
        limit are to be canceled, and tasks of any kind older than the existence limit
        (in days) are to be removed. */
    method SelectForCleanup(now: int, maxTaskWaitSeconds: int, maxTaskExistDays: int)
      returns (toCancel: seq<Task>, toRemove: seq<Task>)
      requires forall i :: 0 <= i < |tasks| ==> tasks[i].enqueueTime.Some?
      requires forall i :: 0 <= i < |nonprocessed| ==> nonprocessed[i].enqueueTime.Some?
      ensures toCancel == Older(nonprocessed, now, maxTaskWaitSeconds)
      ensures toRemove == Older(tasks, now, maxTaskExistDays * 86400)
    {
      toCancel := [];
      var i := 0;
      while i < |nonprocessed|
        invariant 0 <= i <= |nonprocessed|
        invariant toCancel == Older(nonprocessed[..i], now, maxTaskWaitSeconds)
      {
        var task := nonprocessed[i];
        assert nonprocessed[..i + 1][..i] == nonprocessed[..i];
        if now - task.enqueueTime.value > maxTaskWaitSeconds {
          toCancel := toCancel + [task];
        }
        i := i + 1;
      }
      assert nonprocessed[..i] == nonprocessed;
      toRemove := [];
      i := 0;
      while i < |tasks|
        invariant 0 <= i <= |tasks|
        invariant toRemove == Older(tasks[..i], now, maxTaskExistDays * 86400)
      {
        var task := tasks[i];
        assert tasks[..i + 1][..i] == tasks[..i];
        if now - task.enqueueTime.value > maxTaskExistDays * 86400 {
          toRemove := toRemove + [task];
        }
        i := i + 1;
      }
      assert tasks[..i] == tasks;
    }
  }
}
