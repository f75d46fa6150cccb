/**
 * The worker that runs queued tasks.  Each task runs in its own process, which
 * reports back through a queue of items (`SendorWorkerTask`); the worker reads the
 * items and applies them to the task (`SendorWorker.handle_worker_queue_item`).
 * Processes and threads are not modelled: a run is described by what its threads
 * had done when the supervising wait ended, and the order in which the items of its
 * two threads reach the queue by a schedule.
 */
module SendorWorker {
  import opened Common
  import opened Text
  import opened SendorTask

  /** The items a task's process puts on the result queue. */
  datatype Item =
    | Status(taskId: nat, status: string)
    | Activity(taskId: nat, activity: string)
    | CompletionRatio(taskId: nat)
    | Log(taskId: nat, log: string)
    | StdOut(taskId: nat, message: string)
    | TaskDone(taskId: nat)
    /** An item of a type the worker does not know. */
    | Other(taskId: nat, itemType: string)

  // ----- The enqueue gate of SendorWorkerTask -----

  /** The queue has been closed by `task_done`. */
  predicate Closed(q: seq<Item>) {
    q != [] && q[|q| - 1].TaskDone?
  }

  /** What passes `enqueue` when every item but `task_done` leaves the queue active:
      items are put until the first `task_done`, which is put, and nothing after. */
  function Gate(items: seq<Item>): seq<Item> {
    if items == [] then []
    else
      var g := Gate(items[..|items| - 1]);
      if Closed(g) then g else g + [items[|items| - 1]]
  }

  /** A queue in which only the last item may be `task_done`, and which is still
      active exactly when it is not closed. */
  ghost predicate GateOk(q: seq<Item>, active: bool) {
    && (forall i :: 0 <= i < |q| - 1 ==> !q[i].TaskDone?)
    && (active <==> !Closed(q))
  }

  predicate HasTaskDone(items: seq<Item>) {
    exists i :: 0 <= i < |items| && items[i].TaskDone?
  }

  /** The gate passes a prefix of the items, all of them while it stays open. */
  lemma {:induction false} GatePrefix(items: seq<Item>)
    ensures Gate(items) <= items
    ensures !Closed(Gate(items)) ==> Gate(items) == items
  {
    if items != [] {
      var init := items[..|items| - 1];
      GatePrefix(init);
      var g := Gate(init);
      assert forall k :: 0 <= k < |g| ==> g[k] == init[k] == items[k];
      assert items == init + [items[|items| - 1]];
    }
  }

  /** The gate closes exactly when a `task_done` was offered. */
  lemma {:induction false} GateClosed(items: seq<Item>)
    ensures Closed(Gate(items)) <==> HasTaskDone(items)
  {
    if items != [] {
      var init := items[..|items| - 1];
      GateClosed(init);
      if HasTaskDone(items) && !items[|items| - 1].TaskDone? {
        var i :| 0 <= i < |items| && items[i].TaskDone?;
        assert init[i].TaskDone?;
      }
      if HasTaskDone(init) {
        var i :| 0 <= i < |init| && init[i].TaskDone?;
        assert items[i].TaskDone?;
      }
    }
  }

  /** Only the last item that passes the gate can be `task_done`. */
  lemma {:induction false} GateShape(items: seq<Item>)
    ensures GateOk(Gate(items), !Closed(Gate(items)))
  {
    if items != [] {
      GateShape(items[..|items| - 1]);
    }
  }

  /** Offering items that hold no `task_done` lets them all through. */
  lemma {:induction false} GateOpen(items: seq<Item>)
    requires !HasTaskDone(items)
    ensures Gate(items) == items
  {
    if items != [] {
      var init := items[..|items| - 1];
      assert !HasTaskDone(init) by {
        forall i | 0 <= i < |init| ensures !init[i].TaskDone? {
          assert init[i] == items[i];
        }
      }
      GateOpen(init);
      GateClosed(init);
      assert init + [items[|items| - 1]] == items;
    }
  }

  /** Whatever is offered after `task_done` is dropped. */
  lemma {:induction false} GateAfterDone(items: seq<Item>, late: seq<Item>)
    requires Closed(Gate(items))
    ensures Gate(items + late) == Gate(items)
  {
    if late != [] {
      var init := late[..|late| - 1];
      GateAfterDone(items, init);
      assert (items + late)[..|items + late| - 1] == items + init;
    } else {
      assert items + late == items;
    }
  }

  /** Offering `a` and then `b` to an open gate. */
  lemma {:induction false} GateAppend(a: seq<Item>, b: seq<Item>)
    requires !HasTaskDone(a)
    ensures Gate(a + b) == a + Gate(b)
  {
    if b == [] {
      assert a + b == a;
      GateOpen(a);
    } else {
      var init := b[..|b| - 1];
      GateAppend(a, init);
      assert (a + b)[..|a + b| - 1] == a + init;
      GateOpen(a);
      if Closed(Gate(init)) {
        assert Closed(a + Gate(init));
      } else if Gate(init) == [] && a != [] {
        assert !a[|a| - 1].TaskDone?;
      }
    }
  }

  /** `SendorWorkerTask`: the result queue as seen from the task's process. */
  class WorkerTask {
    const taskId: nat
    /** The items put on the result queue, in order. */
    var queue: seq<Item>
    var queueActive: bool

    ghost predicate Valid()
      reads this
    {
      GateOk(queue, queueActive)
    }

    constructor(taskId: nat)
      ensures Valid()
      ensures this.taskId == taskId && queue == [] && queueActive
    {
      this.taskId := taskId;
      queue := [];
      queueActive := true;
    }

    /** `enqueue`: the item is put only while the queue is active, which then stays
        active as the caller says. */
    method Enqueue(item: Item, leaveQueueActive: bool)
      modifies this
      ensures old(queueActive) ==> queue == old(queue) + [item] && queueActive == leaveQueueActive
      ensures !old(queueActive) ==> queue == old(queue) && !queueActive
    {
      if queueActive {
        queue := queue + [item];
        queueActive := leaveQueueActive;
      }
    }

    /** The `enqueue_*` helpers: only `enqueue_task_done` closes the queue. */
    method Put(item: Item)
      requires Valid()
      modifies this
      ensures Valid()
      ensures queue == old(queue) + (if old(queueActive) then [item] else [])
      ensures queueActive <==> old(queueActive) && !item.TaskDone?
    {
      Enqueue(item, !item.TaskDone?);
    }

    /** A sequence of `enqueue_*` calls. */
    method Emit(items: seq<Item>)
      requires Valid()
      modifies this
      ensures Valid()
      ensures queue == old(queue) + (if old(queueActive) then Gate(items) else [])
      ensures queueActive <==> old(queueActive) && !Closed(Gate(items))
    {
      var i := 0;
      while i < |items|
        invariant 0 <= i <= |items|
        invariant Valid()
        invariant queue == old(queue) + (if old(queueActive) then Gate(items[..i]) else [])
        invariant queueActive <==> old(queueActive) && !Closed(Gate(items[..i]))
      {
        assert items[..i + 1][..i] == items[..i];
        Put(items[i]);
        i := i + 1;
      }
      assert items[..i] == items;
    }

    /** A whole run of the task's process from a fresh queue; see `RunItems`. */
    method Run(r: RunOutline)
      requires Valid() && queue == [] && queueActive
      requires forall i :: 0 <= i < |r.actionItems| ==> ContextItem(r.actionItems[i])
      modifies this
      ensures Valid()
      ensures queue == RunItems(taskId, r)
      ensures !queueActive
    {
      RunGate(taskId, r);
      Emit(Attempts(taskId, r));
    }
  }

  /** What the task's threads had done when the supervising wait ended: an error
      while setting up (the work directory could not be made, say), the items the
      actions reported through the context, whether an action raised, whether the
      cancel flag was set, and whether the actions were still running. */
  datatype RunOutline = RunOutline(
    setupError: Option<string>,
    actionItems: seq<Item>,
    raised: Option<string>,
    cancelSet: bool,
    actionsAlive: bool,
    maxTaskExecutionTime: nat)

  /** The items an action may report through its context. */
  predicate ContextItem(item: Item) {
    item.Activity? || item.CompletionRatio? || item.Log?
  }

  /** `run_actions_thread_func` up to the end of the actions. */
  function RunnerHead(id: nat, actionItems: seq<Item>): seq<Item> {
    [Status(id, "started"), Log(id, "Task execution started")] + actionItems
  }

  /** `run_actions_thread_func` after the actions: completed, or failed with the
      traceback. */
  function RunnerTail(id: nat, raised: Option<string>): seq<Item> {
    if raised.None? then [Status(id, "completed"), Log(id, "Task execution completed")]
    else [Status(id, "failed"), Log(id, "Task execution failed due to exception. Callstack:"), Log(id, raised.value)]
  }

  /** `run` after the wait: canceled if the flag is set, failed if the actions are
      still running, failed if setting up raised; `task_done` always last. */
  function SupervisorItems(id: nat, r: RunOutline): seq<Item> {
    (if r.setupError.Some? then
       [Status(id, "failed"), Log(id, "Task execution failed due to exception. Callstack:"), Log(id, r.setupError.value)]
     else if r.cancelSet then [Status(id, "canceled"), Log(id, "Task execution canceled")]
     else if r.actionsAlive then
       [Status(id, "failed"), Log(id, "Task execution failed due to timeout -- more than "
         + NatToString(r.maxTaskExecutionTime) + " seconds, terminating task")]
     else [])
    + [TaskDone(id)]
  }

  /** The result queue of a whole run: the runner's items that came before the
      supervisor's `task_done`, then the supervisor's items. */
  function RunItems(id: nat, r: RunOutline): seq<Item> {
    RunnerItems(id, r) + SupervisorItems(id, r)
  }

  /** The runner's items that come before the supervisor's. */
  function RunnerItems(id: nat, r: RunOutline): seq<Item> {
    if r.setupError.Some? then []
    else if r.actionsAlive then RunnerHead(id, r.actionItems)
    else RunnerHead(id, r.actionItems) + RunnerTail(id, r.raised)
  }

  lemma NoTaskDoneInRunner(id: nat, actionItems: seq<Item>, raised: Option<string>)
    requires forall i :: 0 <= i < |actionItems| ==> ContextItem(actionItems[i])
    ensures !HasTaskDone(RunnerHead(id, actionItems))
    ensures !HasTaskDone(RunnerTail(id, raised))
    ensures !HasTaskDone(RunnerHead(id, actionItems) + RunnerTail(id, raised))
  {
    var h := RunnerHead(id, actionItems);
    assert forall i :: 2 <= i < |h| ==> h[i] == actionItems[i - 2];
    var ht := h + RunnerTail(id, raised);
    assert forall i :: |h| <= i < |ht| ==> ht[i] == RunnerTail(id, raised)[i - |h|];
  }

  lemma SupervisorCloses(id: nat, r: RunOutline)
    ensures Gate(SupervisorItems(id, r)) == SupervisorItems(id, r)
    ensures Closed(SupervisorItems(id, r))
  {
    var s := SupervisorItems(id, r);
    var init := s[..|s| - 1];
    assert !HasTaskDone(init);
    GateOpen(init);
    assert init + [s[|s| - 1]] == s;
  }

  /** The order in which the task's threads offer their items: the runner's items
      up to the end of the actions, then (if the actions had finished) the rest of
      the runner's items, then the supervisor's, then (if the actions were still
      running) the rest of the runner's items, late.  A failed setup starts no
      runner. */
  function Attempts(id: nat, r: RunOutline): seq<Item> {
    if r.setupError.Some? then SupervisorItems(id, r)
    else if r.actionsAlive then
      RunnerHead(id, r.actionItems) + SupervisorItems(id, r) + RunnerTail(id, r.raised)
    else RunnerHead(id, r.actionItems) + RunnerTail(id, r.raised) + SupervisorItems(id, r)
  }

  /** The gate turns the attempts into the run's queue: late items are dropped. */
  lemma RunGate(id: nat, r: RunOutline)
    requires forall i :: 0 <= i < |r.actionItems| ==> ContextItem(r.actionItems[i])
    ensures Gate(Attempts(id, r)) == RunItems(id, r)
    ensures Closed(RunItems(id, r)) && GateOk(RunItems(id, r), false)
  {
    var head := RunnerHead(id, r.actionItems);
    var tail := RunnerTail(id, r.raised);
    var sup := SupervisorItems(id, r);
    NoTaskDoneInRunner(id, r.actionItems, r.raised);
    SupervisorCloses(id, r);
    if r.setupError.None? {
      if r.actionsAlive {
        GateAppend(head, sup);
        GateAfterDone(head + sup, tail);
      } else {
        GateAppend(head + tail, sup);
      }
    }
    RunItemsClosed(id, r);
  }

  /** The queue of a run ends with its one `task_done`. */
  lemma RunItemsClosed(id: nat, r: RunOutline)
    requires forall i :: 0 <= i < |r.actionItems| ==> ContextItem(r.actionItems[i])
    ensures Closed(RunItems(id, r)) && GateOk(RunItems(id, r), false)
  {
    var pre := RunnerItems(id, r);
    var s := SupervisorItems(id, r);
    var q := pre + s;
    NoTaskDoneInRunner(id, r.actionItems, r.raised);
    assert !HasTaskDone(pre);
    assert forall i :: 0 <= i < |s| - 1 ==> !s[i].TaskDone?;
    forall i | 0 <= i < |q| - 1 ensures !q[i].TaskDone? {
      if i >= |pre| {
        assert q[i] == s[i - |pre|];
      } else {
        assert q[i] == pre[i];
      }
    }
  }

  // ----- Every order of the two threads -----

  /** Everything the actions thread offers when it runs to its end; a failed setup
      starts no actions thread. */
  function RunnerAll(id: nat, r: RunOutline): seq<Item> {
    if r.setupError.Some? then [] else RunnerHead(id, r.actionItems) + RunnerTail(id, r.raised)
  }

  /** The items of two threads in the order `schedule` picks them, `true` for the
      first thread and `false` for the second.  A pick of a thread with nothing left
      is skipped; once the schedule runs out, the first thread's remaining items come,
      then the second's.  Every order that keeps each thread's own order is one of
      these. */
  function Interleave(a: seq<Item>, b: seq<Item>, schedule: seq<bool>): seq<Item>
    decreases |schedule|
  {
    if schedule == [] then a + b
    else if schedule[0] && a != [] then [a[0]] + Interleave(a[1..], b, schedule[1..])
    else if !schedule[0] && b != [] then [b[0]] + Interleave(a, b[1..], schedule[1..])
    else Interleave(a, b, schedule[1..])
  }

  /** An interleaving holds exactly the items of both threads. */
  lemma {:induction false} InterleaveItems(a: seq<Item>, b: seq<Item>, schedule: seq<bool>)
    ensures multiset(Interleave(a, b, schedule)) == multiset(a) + multiset(b)
    decreases |schedule|
  {
    if schedule == [] {
    } else if schedule[0] && a != [] {
      InterleaveItems(a[1..], b, schedule[1..]);
      assert a == [a[0]] + a[1..];
    } else if !schedule[0] && b != [] {
      InterleaveItems(a, b[1..], schedule[1..]);
      assert b == [b[0]] + b[1..];
    } else {
      InterleaveItems(a, b, schedule[1..]);
    }
  }

  /** The run's queue when the two threads offer their items in the order `schedule`
      picks. */
  function ScheduledItems(id: nat, r: RunOutline, schedule: seq<bool>): seq<Item> {
    Gate(Interleave(RunnerAll(id, r), SupervisorItems(id, r), schedule))
  }

  /** In every order of the two threads, the queue is what they offered up to the
      supervisor's `task_done`, which ends it and is its only one. */
  lemma ScheduledClosed(id: nat, r: RunOutline, schedule: seq<bool>)
    ensures ScheduledItems(id, r, schedule) <= Interleave(RunnerAll(id, r), SupervisorItems(id, r), schedule)
    ensures Closed(ScheduledItems(id, r, schedule)) && GateOk(ScheduledItems(id, r, schedule), false)
  {
    var sup := SupervisorItems(id, r);
    var items := Interleave(RunnerAll(id, r), sup, schedule);
    assert TaskDone(id) in items by {
      InterleaveItems(RunnerAll(id, r), sup, schedule);
      assert sup[|sup| - 1] == TaskDone(id);
      assert TaskDone(id) in multiset(items);
    }
    assert HasTaskDone(items);
    GateClosed(items);
    GateShape(items);
    GatePrefix(items);
  }

  /** `n` picks of the same thread. */
  function Repeat(pick: bool, n: nat): (s: seq<bool>)
    ensures |s| == n && forall i :: 0 <= i < n ==> s[i] == pick
  {
    if n == 0 then [] else [pick] + Repeat(pick, n - 1)
  }

  lemma {:induction false} InterleaveFirst(a1: seq<Item>, a2: seq<Item>, b: seq<Item>, schedule: seq<bool>)
    ensures Interleave(a1 + a2, b, Repeat(true, |a1|) + schedule) == a1 + Interleave(a2, b, schedule)
    decreases |a1|
  {
    if a1 == [] {
      assert a1 + a2 == a2;
      assert Repeat(true, 0) + schedule == schedule;
    } else {
      var picks := Repeat(true, |a1|) + schedule;
      assert (a1 + a2)[1..] == a1[1..] + a2;
      assert picks[1..] == Repeat(true, |a1| - 1) + schedule;
      InterleaveFirst(a1[1..], a2, b, schedule);
      assert a1 == [a1[0]] + a1[1..];
    }
  }

  lemma {:induction false} InterleaveSecond(a: seq<Item>, b1: seq<Item>, b2: seq<Item>, schedule: seq<bool>)
    ensures Interleave(a, b1 + b2, Repeat(false, |b1|) + schedule) == b1 + Interleave(a, b2, schedule)
    decreases |b1|
  {
    if b1 == [] {
      assert b1 + b2 == b2;
      assert Repeat(false, 0) + schedule == schedule;
    } else {
      var picks := Repeat(false, |b1|) + schedule;
      assert (b1 + b2)[1..] == b1[1..] + b2;
      assert picks[1..] == Repeat(false, |b1| - 1) + schedule;
      InterleaveSecond(a, b1[1..], b2, schedule);
      assert b1 == [b1[0]] + b1[1..];
    }
  }

  /** The order `Attempts` stands for: the actions thread's items up to the end of the
      actions, and the rest of them too when the actions had finished, before the
      supervisor's. */
  function ThreadOrder(id: nat, r: RunOutline): seq<bool> {
    if r.setupError.Some? then []
    else if r.actionsAlive then
      Repeat(true, |RunnerHead(id, r.actionItems)|) + Repeat(false, |SupervisorItems(id, r)|)
    else Repeat(true, |RunnerAll(id, r)|)
  }

  /** `Attempts` is one of the interleavings, and its queue is `RunItems`. */
  lemma AttemptsOrder(id: nat, r: RunOutline)
    requires forall i :: 0 <= i < |r.actionItems| ==> ContextItem(r.actionItems[i])
    ensures Interleave(RunnerAll(id, r), SupervisorItems(id, r), ThreadOrder(id, r)) == Attempts(id, r)
    ensures ScheduledItems(id, r, ThreadOrder(id, r)) == RunItems(id, r)
  {
    var head := RunnerHead(id, r.actionItems);
    var tail := RunnerTail(id, r.raised);
    var sup := SupervisorItems(id, r);
    if r.setupError.None? {
      if r.actionsAlive {
        assert Interleave(head + tail, sup, ThreadOrder(id, r)) == head + Interleave(tail, sup, Repeat(false, |sup|)) by {
          InterleaveFirst(head, tail, sup, Repeat(false, |sup|));
        }
        assert Interleave(tail, sup, Repeat(false, |sup|)) == sup + tail by {
          InterleaveSecond(tail, sup, [], []);
          assert sup + [] == sup && Repeat(false, |sup|) + [] == Repeat(false, |sup|);
        }
      } else {
        assert Interleave(head + tail, sup, ThreadOrder(id, r)) == head + tail + sup by {
          InterleaveFirst(head + tail, [], sup, []);
          assert head + tail + [] == head + tail && Repeat(true, |head + tail|) + [] == Repeat(true, |head + tail|);
        }
      }
    }
    RunGate(id, r);
  }

  // ----- First resolution wins -----

  /** The task's state together with `resolution_signaled`. */
  datatype Resolution = Resolution(state: int, signaled: bool)

  function TerminalCode(status: string): Option<int> {
    if status == "completed" then Some(Completed)
    else if status == "failed" then Some(Failed)
    else if status == "canceled" then Some(Canceled)
    else None
  }

  /** A status item applied to the task: `started` always takes effect, the first of
      `completed`/`failed`/`canceled` takes effect and marks the resolution, later
      ones are ignored, anything else raises. */
  function ApplyStatus(r: Resolution, status: string): Result<Resolution, string> {
    if status == "started" then Ok(Resolution(Started, r.signaled))
    else if TerminalCode(status).Some? then
      (if r.signaled then Ok(r) else Ok(Resolution(TerminalCode(status).value, true)))
    else Err("Unknown status: " + status)
  }

  function ApplyAll(r: Resolution, statuses: seq<string>): Result<Resolution, string>
    decreases |statuses|
  {
    if statuses == [] then Ok(r)
    else
      match ApplyStatus(r, statuses[0])
      case Err(e) => Err(e)
      case Ok(r1) => ApplyAll(r1, statuses[1..])
  }

  function FirstTerminal(statuses: seq<string>): Option<int> {
    if statuses == [] then None
    else if TerminalCode(statuses[0]).Some? then TerminalCode(statuses[0])
    else FirstTerminal(statuses[1..])
  }

  /** Statuses the source knows. */
  predicate KnownStatuses(statuses: seq<string>) {
    forall i :: 0 <= i < |statuses| ==> statuses[i] == "started" || TerminalCode(statuses[i]).Some?
  }

  /** Known statuses with no `started` after a resolution. */
  predicate WellOrdered(statuses: seq<string>) {
    && KnownStatuses(statuses)
    && (forall i, j :: 0 <= i < j < |statuses| && TerminalCode(statuses[i]).Some? ==> statuses[j] != "started")
  }

  /** However many resolutions follow, the task ends in the first one, and is
      resolved exactly when one arrived. */
  lemma {:induction false} FirstResolutionWins(r: Resolution, statuses: seq<string>)
    requires WellOrdered(statuses)
    requires r.signaled ==> forall i :: 0 <= i < |statuses| ==> statuses[i] != "started"
    ensures ApplyAll(r, statuses).Ok?
    ensures r.signaled ==> ApplyAll(r, statuses).value == r
    ensures !r.signaled ==>
      && (ApplyAll(r, statuses).value.signaled <==> FirstTerminal(statuses).Some?)
      && (FirstTerminal(statuses).Some? ==> ApplyAll(r, statuses).value.state == FirstTerminal(statuses).value)
    decreases |statuses|
  {
    if statuses != [] {
      var rest := statuses[1..];
      assert WellOrdered(rest) by {
        forall i, j | 0 <= i < j < |rest| && TerminalCode(rest[i]).Some? ensures rest[j] != "started" {
          assert statuses[i + 1] == rest[i] && statuses[j + 1] == rest[j];
        }
      }
      var r1 := ApplyStatus(r, statuses[0]).value;
      if TerminalCode(statuses[0]).Some? {
        forall j | 0 <= j < |rest| ensures rest[j] != "started" {
          assert statuses[j + 1] == rest[j];
        }
      }
      FirstResolutionWins(r1, rest);
    }
  }

  /** The statuses among the items, in order. */
  function StatusesOf(items: seq<Item>): seq<string> {
    if items == [] then []
    else (if items[0].Status? then [items[0].status] else []) + StatusesOf(items[1..])
  }

  lemma {:induction false} StatusesOfAppend(a: seq<Item>, b: seq<Item>)
    ensures StatusesOf(a + b) == StatusesOf(a) + StatusesOf(b)
  {
    if a != [] {
      assert (a + b)[1..] == a[1..] + b;
      StatusesOfAppend(a[1..], b);
    } else {
      assert a + b == b;
    }
  }

  lemma {:induction false} ContextStatuses(items: seq<Item>)
    requires forall i :: 0 <= i < |items| ==> !items[i].Status?
    ensures StatusesOf(items) == []
  {
    if items != [] {
      ContextStatuses(items[1..]);
    }
  }

  /** The state a run's queue leaves the task in.  Actions that finished before the
      wait ended decide, even if a cancel arrived meanwhile; otherwise a set cancel
      flag cancels, and actions still running fail the task. */
  function RunResult(r: RunOutline): int {
    if r.setupError.Some? then Failed
    else if !r.actionsAlive then (if r.raised.None? then Completed else Failed)
    else if r.cancelSet then Canceled
    else Failed
  }

  /** One status, then items that carry none. */
  lemma OneStatus(items: seq<Item>)
    requires items != [] && items[0].Status?
    requires forall i :: 1 <= i < |items| ==> !items[i].Status?
    ensures StatusesOf(items) == [items[0].status]
  {
    var rest := items[1..];
    assert forall i :: 0 <= i < |rest| ==> rest[i] == items[i + 1];
    ContextStatuses(rest);
  }

  lemma RunnerStatuses(id: nat, actionItems: seq<Item>, raised: Option<string>)
    requires forall i :: 0 <= i < |actionItems| ==> ContextItem(actionItems[i])
    ensures StatusesOf(RunnerHead(id, actionItems)) == ["started"]
    ensures StatusesOf(RunnerTail(id, raised)) == [if raised.None? then "completed" else "failed"]
  {
    var head := RunnerHead(id, actionItems);
    assert forall i :: 2 <= i < |head| ==> head[i] == actionItems[i - 2];
    OneStatus(head);
    OneStatus(RunnerTail(id, raised));
  }

  lemma SupervisorStatuses(id: nat, r: RunOutline)
    ensures StatusesOf(SupervisorItems(id, r)) ==
      if r.setupError.Some? then ["failed"]
      else if r.cancelSet then ["canceled"]
      else if r.actionsAlive then ["failed"]
      else []
  {
    var sup := SupervisorItems(id, r);
    if r.setupError.Some? || r.cancelSet || r.actionsAlive {
      OneStatus(sup);
    } else {
      assert sup == [TaskDone(id)];
      assert StatusesOf(sup) == [] + StatusesOf(sup[1..]);
    }
  }

  /** The statuses of a whole run, in order. */
  lemma RunStatuses(id: nat, r: RunOutline)
    requires forall i :: 0 <= i < |r.actionItems| ==> ContextItem(r.actionItems[i])
    ensures StatusesOf(RunItems(id, r)) ==
      (if r.setupError.Some? then [] else ["started"])
      + (if r.setupError.Some? || r.actionsAlive then []
         else [if r.raised.None? then "completed" else "failed"])
      + StatusesOf(SupervisorItems(id, r))
  {
    var head := RunnerHead(id, r.actionItems);
    var tail := RunnerTail(id, r.raised);
    RunnerStatuses(id, r.actionItems, r.raised);
    StatusesOfAppend(RunnerItems(id, r), SupervisorItems(id, r));
    if r.setupError.None? && !r.actionsAlive {
      StatusesOfAppend(head, tail);
    }
  }

  /** The statuses a run reports, in order. */
  function RunStatusList(r: RunOutline): seq<string> {
    if r.setupError.Some? then ["failed"]
    else if r.actionsAlive then ["started", if r.cancelSet then "canceled" else "failed"]
    else (["started", if r.raised.None? then "completed" else "failed"]
      + (if r.cancelSet then ["canceled"] else []))
  }

  lemma RunStatusesAre(id: nat, r: RunOutline)
    requires forall i :: 0 <= i < |r.actionItems| ==> ContextItem(r.actionItems[i])
    ensures StatusesOf(RunItems(id, r)) == RunStatusList(r)
  {
    RunStatuses(id, r);
    SupervisorStatuses(id, r);
  }

  /** The run's statuses resolve a fresh task with `RunResult`: the first resolution
      reported wins. */
  lemma RunStatusListResolves(r: RunOutline)
    ensures ApplyAll(Resolution(NotStarted, false), RunStatusList(r)) == Ok(Resolution(RunResult(r), true))
  {
    var s := RunStatusList(r);
    assert WellOrdered(s);
    FirstResolutionWins(Resolution(NotStarted, false), s);
  }

  /** Applying the statuses of a whole run to a fresh task resolves it with
      `RunResult`. */
  lemma RunResolves(id: nat, r: RunOutline)
    requires forall i :: 0 <= i < |r.actionItems| ==> ContextItem(r.actionItems[i])
    ensures ApplyAll(Resolution(NotStarted, false), StatusesOf(RunItems(id, r)))
      == Ok(Resolution(RunResult(r), true))
  {
    RunStatusesAre(id, r);
    RunStatusListResolves(r);
  }

  // ----- A late 'started' -----

  /** A status item that cannot be mistaken for no status. */
  predicate KnownItem(item: Item) {
    item.Status? ==> item.status == "started" || TerminalCode(item.status).Some?
  }

  lemma {:induction false} KnownItemsStatuses(items: seq<Item>)
    requires forall x :: x in items ==> KnownItem(x)
    ensures KnownStatuses(StatusesOf(items))
    decreases |items|
  {
    if items != [] {
      assert KnownItem(items[0]);
      assert forall x :: x in items[1..] ==> x in items;
      KnownItemsStatuses(items[1..]);
    }
  }

  lemma {:induction false} InterleaveKnown(a: seq<Item>, b: seq<Item>, schedule: seq<bool>)
    requires forall x :: x in a ==> KnownItem(x)
    requires forall x :: x in b ==> KnownItem(x)
    ensures forall x :: x in Interleave(a, b, schedule) ==> KnownItem(x)
    decreases |schedule|
  {
    if schedule == [] {
    } else if schedule[0] && a != [] {
      assert KnownItem(a[0]);
      assert forall x :: x in a[1..] ==> x in a;
      InterleaveKnown(a[1..], b, schedule[1..]);
    } else if !schedule[0] && b != [] {
      assert KnownItem(b[0]);
      assert forall x :: x in b[1..] ==> x in b;
      InterleaveKnown(a, b[1..], schedule[1..]);
    } else {
      InterleaveKnown(a, b, schedule[1..]);
    }
  }

  lemma ThreadsKnown(id: nat, r: RunOutline)
    requires forall i :: 0 <= i < |r.actionItems| ==> ContextItem(r.actionItems[i])
    ensures forall x :: x in RunnerAll(id, r) ==> KnownItem(x)
    ensures forall x :: x in SupervisorItems(id, r) ==> KnownItem(x)
  {
    var head := RunnerHead(id, r.actionItems);
    assert forall i :: 2 <= i < |head| ==> head[i] == r.actionItems[i - 2];
    assert forall x :: x in head ==> KnownItem(x);
  }

  /** Whatever order the two threads take, every status on the queue is one the
      worker knows. */
  lemma ScheduledStatusesKnown(id: nat, r: RunOutline, schedule: seq<bool>)
    requires forall i :: 0 <= i < |r.actionItems| ==> ContextItem(r.actionItems[i])
    ensures KnownStatuses(StatusesOf(ScheduledItems(id, r, schedule)))
  {
    var items := Interleave(RunnerAll(id, r), SupervisorItems(id, r), schedule);
    var q := ScheduledItems(id, r, schedule);
    assert forall x :: x in items ==> KnownItem(x) by {
      ThreadsKnown(id, r);
      InterleaveKnown(RunnerAll(id, r), SupervisorItems(id, r), schedule);
    }
    assert forall x :: x in q ==> KnownItem(x) by {
      ScheduledClosed(id, r, schedule);
      assert q <= items;
      forall x | x in q ensures x in items {
        var i :| 0 <= i < |q| && q[i] == x;
        assert items[i] == x;
      }
    }
    KnownItemsStatuses(q);
  }

  /** `handle_worker_queue_item` as evidently intended: a `started` that arrives once
      the task is resolved is ignored, like a second resolution. */
  function ApplyStatusGuarded(r: Resolution, status: string): Result<Resolution, string> {
    if status == "started" && r.signaled then Ok(r) else ApplyStatus(r, status)
  }

  function ApplyAllGuarded(r: Resolution, statuses: seq<string>): Result<Resolution, string>
    decreases |statuses|
  {
    if statuses == [] then Ok(r)
    else
      match ApplyStatusGuarded(r, statuses[0])
      case Err(e) => Err(e)
      case Ok(r1) => ApplyAllGuarded(r1, statuses[1..])
  }

  /** Handled as intended, the first resolution wins in whatever order the statuses
      come. */
  lemma {:induction false} GuardedFirstResolutionWins(r: Resolution, statuses: seq<string>)
    requires KnownStatuses(statuses)
    ensures ApplyAllGuarded(r, statuses).Ok?
    ensures r.signaled ==> ApplyAllGuarded(r, statuses).value == r
    ensures !r.signaled ==>
      && (ApplyAllGuarded(r, statuses).value.signaled <==> FirstTerminal(statuses).Some?)
      && (FirstTerminal(statuses).Some? ==> ApplyAllGuarded(r, statuses).value.state == FirstTerminal(statuses).value)
    decreases |statuses|
  {
    if statuses != [] {
      var rest := statuses[1..];
      assert KnownStatuses(rest) by {
        forall i | 0 <= i < |rest| ensures rest[i] == "started" || TerminalCode(rest[i]).Some? {
          assert rest[i] == statuses[i + 1];
        }
      }
      GuardedFirstResolutionWins(ApplyStatusGuarded(r, statuses[0]).value, rest);
    }
  }

  /** Handled as intended, every order of the two threads resolves the task with the
      first resolution its queue reports. */
  lemma ScheduledResolvesGuarded(id: nat, r: RunOutline, schedule: seq<bool>)
    requires forall i :: 0 <= i < |r.actionItems| ==> ContextItem(r.actionItems[i])
    ensures var statuses := StatusesOf(ScheduledItems(id, r, schedule));
      var end := ApplyAllGuarded(Resolution(NotStarted, false), statuses);
      && end.Ok?
      && (end.value.signaled <==> FirstTerminal(statuses).Some?)
      && (FirstTerminal(statuses).Some? ==> end.value.state == FirstTerminal(statuses).value)
  {
    ScheduledStatusesKnown(id, r, schedule);
    GuardedFirstResolutionWins(Resolution(NotStarted, false), StatusesOf(ScheduledItems(id, r, schedule)));
  }

  /** A task cancelled as soon as it was added, before its process's threads ran. */
  const EarlyCancel: RunOutline := RunOutline(None, [], None, true, true, 10)

  /** The queue when the supervisor reports the cancel before the actions thread
      reports anything: the cancel and its log, all of the actions thread's items, then
      `task_done`. */
  lemma EarlyCancelItems()
    ensures ScheduledItems(0, EarlyCancel, [false, false])
      == [Status(0, "canceled"), Log(0, "Task execution canceled")] + RunnerAll(0, EarlyCancel) + [TaskDone(0)]
  {
    var runner := RunnerAll(0, EarlyCancel);
    var sup := SupervisorItems(0, EarlyCancel);
    var canceled := [Status(0, "canceled"), Log(0, "Task execution canceled")];
    assert sup == canceled + [TaskDone(0)];
    var offered := canceled + runner;
    assert Interleave(runner, sup, [false, false]) == offered + [TaskDone(0)] by {
      assert sup[1..][1..] == [TaskDone(0)];
    }
    assert !HasTaskDone(offered) by {
      NoTaskDoneInRunner(0, [], None);
      assert !HasTaskDone(runner);
    }
    GateAppend(offered, [TaskDone(0)]);
    assert Gate([TaskDone(0)]) == [TaskDone(0)];
  }

  /** The statuses on that queue: the cancel, then the actions thread's. */
  lemma EarlyCancelQueue()
    ensures StatusesOf(ScheduledItems(0, EarlyCancel, [false, false])) == ["canceled", "started", "completed"]
  {
    var runner := RunnerAll(0, EarlyCancel);
    var canceled := [Status(0, "canceled"), Log(0, "Task execution canceled")];
    EarlyCancelItems();
    StatusesOfAppend(canceled + runner, [TaskDone(0)]);
    StatusesOfAppend(canceled, runner);
    OneStatus(canceled);
    RunnerStatuses(0, [], None);
    StatusesOfAppend(RunnerHead(0, []), RunnerTail(0, None));
    assert StatusesOf([TaskDone(0)]) == [];
  }

  /** A cancel, then `started`, then a completion: as written the task ends in
      progress though resolved; handled as intended it stays canceled. */
  lemma LateStartedResolution()
    ensures ApplyAll(Resolution(NotStarted, false), ["canceled", "started", "completed"])
      == Ok(Resolution(Started, true))
    ensures ApplyAllGuarded(Resolution(NotStarted, false), ["canceled", "started", "completed"])
      == Ok(Resolution(Canceled, true))
  {
    var statuses: seq<string> := ["canceled", "started", "completed"];
    var canceledTask := Resolution(Canceled, true);
    assert TerminalCode("canceled") == Some(Canceled);
    assert TerminalCode("completed") == Some(Completed);
    assert statuses[1..] == ["started", "completed"] && statuses[1..][1..] == ["completed"];
    assert ApplyAll(Resolution(NotStarted, false), statuses) == Ok(Resolution(Started, true)) by {
      assert ApplyStatus(Resolution(NotStarted, false), "canceled") == Ok(canceledTask);
      assert ApplyStatus(canceledTask, "started") == Ok(Resolution(Started, true));
      assert ApplyAll(Resolution(Started, true), ["completed"]) == Ok(Resolution(Started, true));
    }
    assert ApplyAllGuarded(Resolution(NotStarted, false), statuses) == Ok(canceledTask) by {
      assert ApplyStatusGuarded(Resolution(NotStarted, false), "canceled") == Ok(canceledTask);
      assert ApplyStatusGuarded(canceledTask, "started") == Ok(canceledTask);
      assert ApplyAllGuarded(canceledTask, ["completed"]) == Ok(canceledTask);
    }
  }

  /** The supervisor reports the cancel before the actions thread reports `started`:
      as written, the `started` undoes the cancel and the task, though resolved, is
      left in progress; handled as intended, it stays canceled. */
  lemma EarlyCancelLeavesStarted()
    ensures var statuses := StatusesOf(ScheduledItems(0, EarlyCancel, [false, false]));
      && ApplyAll(Resolution(NotStarted, false), statuses) == Ok(Resolution(Started, true))
      && ApplyAllGuarded(Resolution(NotStarted, false), statuses) == Ok(Resolution(Canceled, true))
  {
    EarlyCancelQueue();
    LateStartedResolution();
  }

  // ----- The worker -----

  /** `SendorTaskInFlight`: the task, its cancel flag and `resolution_signaled`. */
  datatype InFlight = InFlight(task: Task, cancelSet: bool, resolutionSignaled: bool)

  class Worker {
    var tasksInFlight: map<nat, InFlight>
    /** The worker's notifications, in order. */
    var notifications: seq<Notification>

    constructor()
      ensures tasksInFlight == map[] && notifications == []
    {
      tasksInFlight := map[];
      notifications := [];
    }

    /** `add`: the task is in flight under its id, with the cancel flag down and no
        resolution signalled, replacing any earlier entry with that id. */
    method Add(task: Task, taskId: nat)
      modifies this
      ensures tasksInFlight == old(tasksInFlight)[taskId := InFlight(task, false, false)]
      ensures notifications == old(notifications)
    {
      tasksInFlight := tasksInFlight[taskId := InFlight(task, false, false)];
    }

    /** `find_task_in_flight`: the id of an entry holding the task, or None when no
        entry holds it. */
    method FindTaskInFlight(task: Task) returns (r: Option<nat>)
      ensures r.Some? ==> r.value in tasksInFlight && tasksInFlight[r.value].task == task
      ensures r.None? <==> forall id :: id in tasksInFlight ==> tasksInFlight[id].task != task
    {
      var remaining := tasksInFlight.Keys;
      while remaining != {}
        invariant remaining <= tasksInFlight.Keys
        invariant forall id :: id in tasksInFlight && id !in remaining ==> tasksInFlight[id].task != task
        decreases |remaining|
      {
        var id :| id in remaining;
        if tasksInFlight[id].task == task {
          return Some(id);
        }
        remaining := remaining - {id};
      }
      return None;
    }

    /** `cancel`: the cancel flag of the task's entry goes up; a task not in flight
        is left alone. */
    method Cancel(task: Task)
      modifies this
      ensures (forall id :: id in old(tasksInFlight) ==> old(tasksInFlight)[id].task != task) ==>
        tasksInFlight == old(tasksInFlight)
      ensures (exists id :: id in old(tasksInFlight) && old(tasksInFlight)[id].task == task) ==>
        exists id :: id in old(tasksInFlight) && old(tasksInFlight)[id].task == task
          && tasksInFlight == old(tasksInFlight)[id := old(tasksInFlight)[id].(cancelSet := true)]
      ensures notifications == old(notifications)
    {
      var found := FindTaskInFlight(task);
      if found.Some? {
        var id := found.value;
        tasksInFlight := tasksInFlight[id := tasksInFlight[id].(cancelSet := true)];
      }
    }

    /** How the status branch of `handle_worker_queue_item` leaves the entry under
        `id`, whose task is `task`: the task changes as `StatusApplied` says and the
        entry keeps the resolution flag that comes out of it.  An unknown status
        raises and changes nothing.  A handled status is announced as 'change'. */
    twostate predicate StatusHandled(id: nat, task: Task, status: string, now: nat, asWritten: bool,
                                     new r: Outcome<string>)
      reads this, task.EndFrame()
    {
      && id in old(tasksInFlight) && old(tasksInFlight)[id].task == task
      && var entry := old(tasksInFlight)[id];
      && (r.Fail? <==> ApplyStatus(Resolution(0, false), status).Err?)
      && (r.Fail? ==> tasksInFlight == old(tasksInFlight) && notifications == old(notifications))
      && (r.Pass? ==>
        && id in tasksInFlight
        && tasksInFlight == old(tasksInFlight)[id := entry.(resolutionSignaled := tasksInFlight[id].resolutionSignaled)]
        && notifications == old(notifications) + [Notification("change", task)])
      && StatusApplied(task, r.Pass?, entry.resolutionSignaled,
                       if id in tasksInFlight then tasksInFlight[id].resolutionSignaled else entry.resolutionSignaled,
                       status, now, asWritten)
    }

    /** How the other branches of `handle_worker_queue_item` leave the entry of
        `item`, whose task is `task`: the task records the item as `ItemRecorded`
        says, and `task_done` takes the task out of flight.  An unknown item type
        raises.  A handled item is announced, `task_done` as 'remove' and the others
        as 'change'. */
    twostate predicate OtherHandled(item: Item, task: Task, processAlive: bool, new r: Outcome<string>)
      reads this, task.EndFrame()
    {
      && item.taskId in old(tasksInFlight) && old(tasksInFlight)[item.taskId].task == task
      && (r.Fail? <==> item.Other?)
      && notifications == old(notifications) +
           (if r.Pass? then [Notification(if item.TaskDone? then "remove" else "change", task)] else [])
      && tasksInFlight == (if item.TaskDone? then old(tasksInFlight) - {item.taskId} else old(tasksInFlight))
      && ItemRecorded(task, item, processAlive)
    }

    /** `handle_worker_queue_item` (with `finalize` for `task_done`).  An item for an
        id not in flight raises, as the source's attribute lookup on None does, and
        changes nothing; a status item is handled as `StatusHandled` says and any
        other item as `OtherHandled` says. */
    method HandleItem(item: Item, now: nat, processAlive: bool, asWritten: bool) returns (r: Outcome<string>)
      requires item.taskId in tasksInFlight ==> tasksInFlight[item.taskId].task.LockValid()
      modifies this, if item.taskId in tasksInFlight then tasksInFlight[item.taskId].task.EndFrame() else {}
      ensures item.taskId !in old(tasksInFlight) ==>
        r.Fail? && tasksInFlight == old(tasksInFlight) && notifications == old(notifications)
      ensures item.taskId in old(tasksInFlight) && item.Status? ==>
        StatusHandled(item.taskId, old(tasksInFlight)[item.taskId].task, item.status, now, asWritten, r)
      ensures item.taskId in old(tasksInFlight) && !item.Status? ==>
        OtherHandled(item, old(tasksInFlight)[item.taskId].task, processAlive, r)
    {
      if item.taskId !in tasksInFlight {
        return Fail("'NoneType' object has no attribute 'task'");
      }
      if item.Status? {
        r := ApplyStatusItem(item.taskId, item.status, now, asWritten);
      } else {
        r := ApplyOtherItem(item, processAlive);
      }
    }

    /** The status branch of `handle_worker_queue_item`. */
    method ApplyStatusItem(id: nat, status: string, now: nat, asWritten: bool) returns (r: Outcome<string>)
      requires id in tasksInFlight && tasksInFlight[id].task.LockValid()
      modifies this, tasksInFlight[id].task.EndFrame()
      ensures StatusHandled(id, old(tasksInFlight)[id].task, status, now, asWritten, r)
    {
      var entry := tasksInFlight[id];
      var signaled;
      r, signaled := ApplyStatusToTask(entry.task, entry.resolutionSignaled, status, now, asWritten);
      if r.Fail? {
        return;
      }
      tasksInFlight := tasksInFlight[id := entry.(resolutionSignaled := signaled)];
      notifications := notifications + [Notification("change", entry.task)];
    }

    /** What a status does to its task, given whether its resolution was already
        signaled: see `StatusApplied`. */
    method ApplyStatusToTask(task: Task, signaled: bool, status: string, now: nat, asWritten: bool)
      returns (r: Outcome<string>, signaledAfter: bool)
      requires task.LockValid()
      modifies task.EndFrame()
      ensures r.Fail? <==> ApplyStatus(Resolution(0, false), status).Err?
      ensures StatusApplied(task, r.Pass?, signaled, signaledAfter, status, now, asWritten)
    {
      r, signaledAfter := Pass, signaled;
      if status == "started" {
        if asWritten || !signaled {
          task.MarkStarted(now);
        }
      } else if TerminalCode(status).Some? {
        if !signaled {
          task.End(TerminalCode(status).value, now);
          signaledAfter := true;
        }
      } else {
        r := Fail("Unknown status: " + status);
      }
    }

    /** The branches of `handle_worker_queue_item` other than a status. */
    method ApplyOtherItem(item: Item, processAlive: bool) returns (r: Outcome<string>)
      requires !item.Status? && item.taskId in tasksInFlight
      requires tasksInFlight[item.taskId].task.LockValid()
      modifies this, tasksInFlight[item.taskId].task
      ensures OtherHandled(item, old(tasksInFlight)[item.taskId].task, processAlive, r)
    {
      var task := tasksInFlight[item.taskId].task;
      r := RecordItem(task, item, processAlive);
      if r.Fail? {
        return;
      }
      tasksInFlight := if item.TaskDone? then tasksInFlight - {item.taskId} else tasksInFlight;
      notifications := notifications + [Notification(if item.TaskDone? then "remove" else "change", task)];
    }

    /** What an item other than a status does to its task: see `OtherHandled`. */
    method RecordItem(task: Task, item: Item, processAlive: bool) returns (r: Outcome<string>)
      requires !item.Status? && task.LockValid()
      modifies task
      ensures r.Fail? <==> item.Other?
      ensures ItemRecorded(task, item, processAlive)
    {
      r := Pass;
      match item {
        case Activity(_, activity) =>
          task.SetActivity(activity);
          task.AppendLog(activity);
        case CompletionRatio(_) =>
        case Log(_, log) =>
          task.AppendLog(log);
        case StdOut(_, message) =>
          task.AppendLog(message);
        case TaskDone(_) =>
          if processAlive {
            task.AppendLog(StillAliveMessage);
          }
        case Other(_, itemType) =>
          r := Fail("Unknown type: " + itemType);
      }
    }
  }

  const StillAliveMessage: string := "Process is still alive after join timeout; terminating forcefully"

  /** What an item adds to the task's log. */
  /** What a status leaves in its task when `pass` says it was known, given
      whether the task's resolution had been signaled before (`signaled`) and after
      (`signaledAfter`): the state and the flag change as `ApplyStatus` says, or with
      `asWritten` false as `ApplyStatusGuarded` says; the start time is set by an
      applied 'started' and the end time by the first resolution, which also ends
      the task and gives back the stash lock it holds; the other fields keep their
      values.  An unknown status changes nothing. */
  twostate predicate StatusApplied(task: Task, pass: bool, signaled: bool, signaledAfter: bool,
                                   status: string, now: nat, asWritten: bool)
    reads task.EndFrame()
  {
    && (pass ==>
          (if asWritten then ApplyStatus(Resolution(old(task.state), signaled), status)
           else ApplyStatusGuarded(Resolution(old(task.state), signaled), status))
          == Ok(Resolution(task.state, signaledAfter)))
    && (!pass ==> task.state == old(task.state))
    && task.startTime ==
         (if pass && status == "started" && (asWritten || !signaled) then Some(now) else old(task.startTime))
    && task.endTime ==
         (if pass && TerminalCode(status).Some? && !signaled then Some(now) else old(task.endTime))
    && task.taskId == old(task.taskId) && task.workDirectory == old(task.workDirectory)
    && task.enqueueTime == old(task.enqueueTime) && task.isCancelable == old(task.isCancelable)
    && task.log == old(task.log) && task.activity == old(task.activity)
    && task.LockValid()
    && task.LockReleased(pass && TerminalCode(status).Some? && !signaled)
  }

  /** What an item other than a status leaves in its task: the log grows by
      `LogEntry` (the activity, log or stdout text, or for `task_done` a note on a
      process that outlived the join timeout), an activity item sets the activity,
      and the task's state, times,
      id, directory and cancelable flag and the stash it holds keep their values. */
  twostate predicate ItemRecorded(task: Task, item: Item, processAlive: bool)
    reads task.EndFrame()
  {
    && task.log == old(task.log) + LogEntry(item, processAlive)
    && task.activity == (if item.Activity? then item.activity else old(task.activity))
    && task.state == old(task.state) && task.startTime == old(task.startTime) && task.endTime == old(task.endTime)
    && task.taskId == old(task.taskId) && task.workDirectory == old(task.workDirectory)
    && task.enqueueTime == old(task.enqueueTime) && task.isCancelable == old(task.isCancelable)
    && task.LockValid() && task.LockReleased(false)
  }

  function LogEntry(item: Item, processAlive: bool): string {
    match item
    case Activity(_, activity) => activity + "\n"
    case Log(_, log) => log + "\n"
    case StdOut(_, message) => message + "\n"
    case TaskDone(_) => if processAlive then StillAliveMessage + "\n" else ""
    case _ => ""
  }
}
