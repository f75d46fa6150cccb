/**
 * The worker of the first version of the program (SendorWorker.py at the
 * repository root).  Each task runs in a process of its own and reports through
 * one shared queue: a 'started' status, the progress its actions report, then
 * 'completed', or 'failed' and the traceback, and always a 'task_done' item last.
 * The worker reads the queue until it has seen one 'task_done' per task, applying
 * each item to the task it names.  The processes are not modelled: the items the
 * queue yields, in the order it yields them, are a parameter of the result loop,
 * and what a task's actions do is given as the progress they report and the
 * traceback of the action that raised, if any.
 */
module LegacyWorker {
  import opened Common
  import opened Lists
  import SendorTask
  import opened LegacyJob

  /** The queue items (`QueueItem` and its subclasses). */
  datatype Item =
    | Status(taskId: nat, status: string)
    | Progress(taskId: nat, message: string)
    | StdOut(taskId: nat, message: string)
    | TaskDone(taskId: nat)
    | Other(taskId: nat, itemType: string)

  // ----- What one task's process puts on the queue -----

  function ProgressItems(taskId: nat, messages: seq<string>): (items: seq<Item>)
    ensures |items| == |messages|
    ensures forall k :: 0 <= k < |messages| ==> items[k] == Progress(taskId, messages[k])
  {
    seq(|messages|, k requires 0 <= k < |messages| => Progress(taskId, messages[k]))
  }

  /** The items that end a task: 'completed' when every action ran, otherwise
      'failed' and the traceback; then 'task_done'. */
  function Closing(taskId: nat, raised: Option<string>): seq<Item> {
    (if raised.None? then [Status(taskId, "completed")]
     else [Status(taskId, "failed"), StdOut(taskId, raised.value)])
    + [TaskDone(taskId)]
  }

  /** Everything `SendorWorkerTask.run` puts on the queue for one task. */
  function TaskItems(taskId: nat, progress: seq<string>, raised: Option<string>): seq<Item> {
    [Status(taskId, "started")] + ProgressItems(taskId, progress) + Closing(taskId, raised)
  }

  /** The number of 'task_done' items in `items[lo..hi]`. */
  function DoneBetween(items: seq<Item>, lo: nat, hi: nat): nat
    requires hi <= |items|
    decreases hi - lo
  {
    if lo >= hi then 0
    else (if items[lo].TaskDone? then 1 else 0) + DoneBetween(items, lo + 1, hi)
  }

  /** A task's items start with 'started', carry the task's id, hold exactly one
      terminal status ('completed' exactly when no action raised) and end with its
      only 'task_done'. */
  lemma TaskItemsShape(taskId: nat, progress: seq<string>, raised: Option<string>)
    ensures var items := TaskItems(taskId, progress, raised);
      && items[0] == Status(taskId, "started")
      && items[|items| - 1] == TaskDone(taskId)
      && (forall k :: 0 <= k < |items| ==> items[k].taskId == taskId)
      && (forall k :: 0 <= k < |items| - 1 ==> !items[k].TaskDone?)
      && (Status(taskId, "completed") in items <==> raised.None?)
      && (Status(taskId, "failed") in items <==> raised.Some?)
  {
    var items := TaskItems(taskId, progress, raised);
    var n := |progress|;
    assert forall k :: 1 <= k <= n ==> items[k] == Progress(taskId, progress[k - 1]);
    if raised.None? {
      assert items[n + 1] == Status(taskId, "completed");
      assert Status(taskId, "failed") !in items by {
        forall k | 0 <= k < |items| ensures items[k] != Status(taskId, "failed") {
          if 1 <= k <= n {
            assert items[k].Progress?;
          }
        }
      }
    } else {
      assert items[n + 1] == Status(taskId, "failed");
      assert Status(taskId, "completed") !in items by {
        forall k | 0 <= k < |items| ensures items[k] != Status(taskId, "completed") {
          if 1 <= k <= n {
            assert items[k].Progress?;
          }
        }
      }
    }
  }

  /** `SendorWorkerTask`: one task's end of the shared queue. */
  class WorkerTask {
    const taskId: nat
    var queue: seq<Item>

    constructor(taskId: nat)
      ensures this.taskId == taskId && queue == []
    {
      this.taskId := taskId;
      queue := [];
    }

    /** `run`: 'started', the progress of the actions in the order they report it,
        the outcome, and 'task_done' last whatever happened. */
    method Run(progress: seq<string>, raised: Option<string>)
      modifies this
      ensures queue == old(queue) + TaskItems(taskId, progress, raised)
    {
      queue := queue + [Status(taskId, "started")];
      var i := 0;
      while i < |progress|
        invariant 0 <= i <= |progress|
        invariant queue == old(queue) + [Status(taskId, "started")] + ProgressItems(taskId, progress[..i])
      {
        assert ProgressItems(taskId, progress[..i + 1]) == ProgressItems(taskId, progress[..i]) + [Progress(taskId, progress[i])];
        queue := queue + [Progress(taskId, progress[i])];
        i := i + 1;
      }
      assert progress[..i] == progress;
      if raised.None? {
        queue := queue + [Status(taskId, "completed")];
      } else {
        queue := queue + [Status(taskId, "failed")];
        queue := queue + [StdOut(taskId, raised.value)];
      }
      queue := queue + [TaskDone(taskId)];
    }
  }

  // ----- The result loop -----

  /** How the result loop ends: after `consumed` items, with an exception raised by
      the item at `consumed - 1`, or blocked on an empty queue. */
  datatype LoopEnd = Finished(consumed: nat) | Raised(error: string, consumed: nat) | Starved

  /** The state a status name moves a task to. */
  function StatusCode(status: string): Option<int> {
    if status == "started" then Some(SendorTask.Started)
    else if status == "completed" then Some(SendorTask.Completed)
    else if status == "failed" then Some(SendorTask.Failed)
    else None
  }

  const NoSetProgress: string := "'SendorTask' object has no attribute 'set_progress'"
  const IndexError: string := "list index out of range"

  /** One item applied to the task it names.  With `asWritten`, a progress item raises,
      because the task class has no `set_progress`; otherwise the progress is
      recorded and appended to the details. */
  function ApplyItem(v: TaskView, item: Item, asWritten: bool): Result<TaskView, string> {
    match item
    case Status(_, status) =>
      if StatusCode(status).Some? then Ok(v.(state := StatusCode(status).value))
      else Err("Unknown status: " + status)
    case Progress(_, message) =>
      if asWritten then Err(NoSetProgress)
      else Ok(v.(progress := Some(message), details := v.details + ("Progress: " + message) + "\n"))
    case StdOut(_, message) => Ok(v.(details := v.details + message + "\n"))
    case TaskDone(_) => Ok(v)
    case Other(_, itemType) => Err("Unknown type: " + itemType)
  }

  /** An item raises exactly when it names an unknown status or an unknown type, or,
      as written, when it is a progress item; a status sets the state and nothing
      else; the other items keep the state and only add to the details; 'task_done'
      changes nothing. */
  lemma ApplyItemMeaning(v: TaskView, item: Item, asWritten: bool)
    ensures var r := ApplyItem(v, item, asWritten);
      && (r.Err? <==>
        || (item.Status? && StatusCode(item.status).None?)
        || item.Other?
        || (asWritten && item.Progress?))
      && (r.Ok? && item.Status? ==> r.value == v.(state := StatusCode(item.status).value))
      && (r.Ok? ==> v.details <= r.value.details)
      && (r.Ok? && !item.Status? ==> r.value.state == v.state)
      && (item.TaskDone? ==> r == Ok(v))
  {
  }

  /** The result loop of `SendorWorker.run` from item `i` on, with `left` tasks still
      to finish: it ends once `left` reaches 0, raises on the first item it cannot
      apply, and blocks when the queue has nothing more. */
  function RunLoop(views: seq<TaskView>, left: nat, items: seq<Item>, i: nat, asWritten: bool)
    : (LoopEnd, seq<TaskView>)
    requires i <= |items|
    decreases |items| - i
  {
    if left == 0 then (Finished(i), views)
    else if i == |items| then (Starved, views)
    else
      var item := items[i];
      if item.taskId >= |views| then (Raised(IndexError, i + 1), views)
      else match ApplyItem(views[item.taskId], item, asWritten)
        case Err(e) => (Raised(e, i + 1), views)
        case Ok(v) =>
          RunLoop(views[item.taskId := v], if item.TaskDone? then left - 1 else left, items, i + 1, asWritten)
  }

  /** The loop stops exactly at the 'task_done' that finishes the last task: the
      items it consumed hold exactly `left` of them, the last consumed item is one,
      and it blocks only if the queue never yields enough of them. */
  lemma {:induction false} LoopStopsAtLastTaskDone(views: seq<TaskView>, left: nat, items: seq<Item>,
                                                   i: nat, asWritten: bool)
    requires i <= |items|
    ensures var end := RunLoop(views, left, items, i, asWritten).0;
      && |RunLoop(views, left, items, i, asWritten).1| == |views|
      && (end.Finished? ==> i <= end.consumed <= |items|)
      && (end.Raised? ==> i < end.consumed <= |items|)
      && (end.Finished? ==> DoneBetween(items, i, end.consumed) == left)
      && (end.Finished? && left > 0 ==> end.consumed > i && items[end.consumed - 1].TaskDone?)
      && (end.Starved? ==> DoneBetween(items, i, |items|) < left)
    decreases |items| - i
  {
    if left > 0 && i < |items| {
      var item := items[i];
      if item.taskId < |views| && ApplyItem(views[item.taskId], item, asWritten).Ok? {
        var v := ApplyItem(views[item.taskId], item, asWritten).value;
        var left' := if item.TaskDone? then left - 1 else left;
        LoopStopsAtLastTaskDone(views[item.taskId := v], left', items, i + 1, asWritten);
      }
    }
  }

  // ----- Tasks that report one after the other -----

  /** What one task's actions do: the progress they report, and the traceback of the
      action that raised, if one did. */
  datatype Outline = Outline(progress: seq<string>, raised: Option<string>)

  /** The queue when the tasks report one after the other, task `k` with id `k`. */
  function Sequential(os: seq<Outline>): seq<Item> {
    if os == [] then []
    else
      var last := os[|os| - 1];
      Sequential(os[..|os| - 1]) + TaskItems(|os| - 1, last.progress, last.raised)
  }

  /** A task after its progress messages: each is recorded and added to the details. */
  function AfterProgress(v: TaskView, messages: seq<string>): TaskView
    decreases |messages|
  {
    if messages == [] then v
    else AfterProgress(v.(progress := Some(messages[0]), details := v.details + ("Progress: " + messages[0]) + "\n"),
                       messages[1..])
  }

  /** A task after its whole run: completed, or failed with the traceback in its
      details. */
  function FinalView(v: TaskView, o: Outline): TaskView {
    Closed(AfterProgress(v.(state := SendorTask.Started), o.progress), o.raised)
  }

  /** A task after the items that close its run. */
  function Closed(v: TaskView, raised: Option<string>): TaskView {
    if raised.None? then v.(state := SendorTask.Completed)
    else v.(state := SendorTask.Failed, details := v.details + raised.value + "\n")
  }

  /** Whatever else its messages do, a run ends in the state its outcome names and
      keeps the details the task had. */
  lemma {:induction false} FinalViewState(v: TaskView, o: Outline)
    ensures FinalView(v, o).state == (if o.raised.None? then SendorTask.Completed else SendorTask.Failed)
    ensures v.details <= FinalView(v, o).details
  {
    AfterProgressExtends(v.(state := SendorTask.Started), o.progress);
  }

  lemma {:induction false} AfterProgressExtends(v: TaskView, messages: seq<string>)
    ensures v.details <= AfterProgress(v, messages).details
    ensures AfterProgress(v, messages).state == v.state
    decreases |messages|
  {
    if messages != [] {
      var w := v.(progress := Some(messages[0]), details := v.details + ("Progress: " + messages[0]) + "\n");
      AfterProgressExtends(w, messages[1..]);
    }
  }

  /** The loop walks over a task's progress items, recording each. */
  lemma {:induction false} ProgressSteps(views: seq<TaskView>, left: nat, items: seq<Item>, i: nat,
                                         k: nat, messages: seq<string>)
    requires left > 0 && k < |views| && i + |messages| <= |items|
    requires items[i..i + |messages|] == ProgressItems(k, messages)
    ensures RunLoop(views, left, items, i, false)
      == RunLoop(views[k := AfterProgress(views[k], messages)], left, items, i + |messages|, false)
    decreases |messages|
  {
    if messages != [] {
      assert items[i] == items[i..i + |messages|][0];
      var v := views[k].(progress := Some(messages[0]), details := views[k].details + ("Progress: " + messages[0]) + "\n");
      assert items[i + 1..i + 1 + |messages[1..]|] == ProgressItems(k, messages[1..]) by {
        forall j | 0 <= j < |messages[1..]|
          ensures items[i + 1..i + 1 + |messages[1..]|][j] == ProgressItems(k, messages[1..])[j]
        {
          assert items[i + 1 + j] == items[i..i + |messages|][j + 1];
        }
      }
      ProgressSteps(views[k := v], left, items, i + 1, k, messages[1..]);
      assert views[k := v][k := AfterProgress(v, messages[1..])] == views[k := AfterProgress(v, messages[1..])];
    } else {
      assert views[k := AfterProgress(views[k], messages)] == views;
    }
  }

  /** One turn of the loop on an item it can apply. */
  lemma Step(views: seq<TaskView>, left: nat, items: seq<Item>, i: nat, asWritten: bool)
    requires left > 0 && i < |items| && items[i].taskId < |views|
    requires ApplyItem(views[items[i].taskId], items[i], asWritten).Ok?
    ensures RunLoop(views, left, items, i, asWritten)
      == RunLoop(views[items[i].taskId := ApplyItem(views[items[i].taskId], items[i], asWritten).value],
                 if items[i].TaskDone? then left - 1 else left, items, i + 1, asWritten)
  {
  }

  /** The loop walks over the items that close a task's run. */
  lemma ClosingSteps(views: seq<TaskView>, left: nat, items: seq<Item>, j: nat, k: nat, raised: Option<string>)
    requires left > 0 && k < |views|
    requires j + |Closing(k, raised)| <= |items|
    requires items[j..j + |Closing(k, raised)|] == Closing(k, raised)
    ensures RunLoop(views, left, items, j, false)
      == RunLoop(views[k := Closed(views[k], raised)], left - 1, items, j + |Closing(k, raised)|, false)
  {
    var block := Closing(k, raised);
    var w := views[k];
    assert items[j] == block[0];
    if raised.None? {
      assert items[j + 1] == block[1];
      var views1 := views[k := w.(state := SendorTask.Completed)];
      Step(views, left, items, j, false);
      Step(views1, left, items, j + 1, false);
      assert views1[k := views1[k]] == views1;
    } else {
      assert items[j + 1] == block[1];
      assert items[j + 2] == block[2];
      var failed := w.(state := SendorTask.Failed);
      var views1 := views[k := failed];
      var views2 := views1[k := failed.(details := failed.details + raised.value + "\n")];
      Step(views, left, items, j, false);
      Step(views1, left, items, j + 1, false);
      Step(views2, left, items, j + 2, false);
      assert views2[k := views2[k]] == views2;
      assert views2 == views[k := Closed(w, raised)];
    }
  }

  /** Where the parts of a task's block sit in the queue. */
  lemma BlockLayout(items: seq<Item>, i: nat, k: nat, o: Outline)
    requires i + |TaskItems(k, o.progress, o.raised)| <= |items|
    requires items[i..i + |TaskItems(k, o.progress, o.raised)|] == TaskItems(k, o.progress, o.raised)
    ensures |TaskItems(k, o.progress, o.raised)| == 1 + |o.progress| + |Closing(k, o.raised)|
    ensures items[i] == Status(k, "started")
    ensures items[i + 1..i + 1 + |o.progress|] == ProgressItems(k, o.progress)
    ensures items[i + 1 + |o.progress|..i + 1 + |o.progress| + |Closing(k, o.raised)|] == Closing(k, o.raised)
  {
    var block := TaskItems(k, o.progress, o.raised);
    var n := |o.progress|;
    var closing := Closing(k, o.raised);
    assert items[i] == block[0];
    var progress := items[i + 1..i + 1 + n];
    forall j | 0 <= j < n ensures progress[j] == ProgressItems(k, o.progress)[j] {
      assert items[i + 1 + j] == block[1 + j];
    }
    var j := i + 1 + n;
    var tail := items[j..j + |closing|];
    forall m | 0 <= m < |closing| ensures tail[m] == closing[m] {
      assert items[j + m] == block[1 + n + m];
    }
  }

  /** The loop walks over the items that open a task's run: its 'started' status and
      its progress messages. */
  lemma OpeningSteps(views: seq<TaskView>, left: nat, items: seq<Item>, i: nat, k: nat, progress: seq<string>)
    requires left > 0 && k < |views|
    requires i + 1 + |progress| <= |items|
    requires items[i] == Status(k, "started")
    requires items[i + 1..i + 1 + |progress|] == ProgressItems(k, progress)
    ensures RunLoop(views, left, items, i, false)
      == RunLoop(views[k := AfterProgress(views[k].(state := SendorTask.Started), progress)],
                 left, items, i + 1 + |progress|, false)
  {
    var started := views[k].(state := SendorTask.Started);
    var views1 := views[k := started];
    assert RunLoop(views, left, items, i, false) == RunLoop(views1, left, items, i + 1, false) by {
      Step(views, left, items, i, false);
    }
    assert views1[k := AfterProgress(started, progress)] == views[k := AfterProgress(started, progress)];
    assert RunLoop(views1, left, items, i + 1, false)
      == RunLoop(views1[k := AfterProgress(views1[k], progress)], left, items, i + 1 + |progress|, false) by {
      ProgressSteps(views1, left, items, i + 1, k, progress);
    }
  }

  /** The loop walks over one task's whole block of items: the task ends as its run
      says, and one task fewer is left. */
  lemma BlockSteps(views: seq<TaskView>, left: nat, items: seq<Item>, i: nat, end: nat, k: nat, o: Outline)
    requires left > 0 && k < |views|
    requires end == i + |TaskItems(k, o.progress, o.raised)| <= |items|
    requires items[i..end] == TaskItems(k, o.progress, o.raised)
    ensures RunLoop(views, left, items, i, false)
      == RunLoop(views[k := FinalView(views[k], o)], left - 1, items, end, false)
  {
    var closing := Closing(k, o.raised);
    var views2 := views[k := AfterProgress(views[k].(state := SendorTask.Started), o.progress)];
    var j := i + 1 + |o.progress|;
    assert RunLoop(views, left, items, i, false) == RunLoop(views2, left, items, j, false) by {
      BlockLayout(items, i, k, o);
      OpeningSteps(views, left, items, i, k, o.progress);
    }
    assert j + |closing| == end && items[j..end] == closing by {
      BlockLayout(items, i, k, o);
    }
    assert views2[k := Closed(views2[k], o.raised)] == views[k := FinalView(views[k], o)];
    assert RunLoop(views2, left, items, j, false)
      == RunLoop(views2[k := Closed(views2[k], o.raised)], left - 1, items, end, false) by {
      ClosingSteps(views2, left, items, j, k, o.raised);
    }
  }

  /** The queue of tasks that report one after the other begins with the queue of the
      first of them. */
  lemma {:induction false} SequentialPrefix(os: seq<Outline>, m: nat)
    requires m <= |os|
    ensures Sequential(os[..m]) <= Sequential(os)
    decreases |os|
  {
    if m < |os| {
      assert os[..|os| - 1][..m] == os[..m];
      SequentialPrefix(os[..|os| - 1], m);
    } else {
      assert os[..m] == os;
    }
  }

  /** The views after the first `m` tasks have run. */
  function PartlyRun(views: seq<TaskView>, os: seq<Outline>, m: nat): (r: seq<TaskView>)
    requires |views| == |os| && m <= |os|
    ensures |r| == |views|
  {
    if m == 0 then views
    else PartlyRun(views, os, m - 1)[m - 1 := FinalView(views[m - 1], os[m - 1])]
  }

  /** After the first `m` tasks have run, each of them ends as its run says and the
      others are as they were. */
  lemma {:induction false} PartlyRunAt(views: seq<TaskView>, os: seq<Outline>, m: nat, k: nat)
    requires |views| == |os| && m <= |os| && k < |views|
    ensures PartlyRun(views, os, m)[k] == if k < m then FinalView(views[k], os[k]) else views[k]
  {
    if m > 0 {
      PartlyRunAt(views, os, m - 1, k);
    }
  }

  /** Task `k`'s block follows the queue of the tasks before it. */
  lemma SequentialBlock(os: seq<Outline>, k: nat)
    requires k < |os|
    ensures var before := Sequential(os[..k]);
      var block := TaskItems(k, os[k].progress, os[k].raised);
      && |before| + |block| == |Sequential(os[..k + 1])| <= |Sequential(os)|
      && BlockAt(Sequential(os), |before|, k, os[k])
  {
    var before := Sequential(os[..k]);
    var block := TaskItems(k, os[k].progress, os[k].raised);
    assert os[..k + 1][..k] == os[..k];
    assert Sequential(os[..k + 1]) == before + block;
    SequentialPrefix(os, k + 1);
    assert Sequential(os)[|before|..|before| + |block|] == (before + block)[|before|..];
  }

  /** Task `k`'s block of items sits at position `i` of the queue. */
  ghost predicate BlockAt(items: seq<Item>, i: nat, k: nat, o: Outline) {
    i + |TaskItems(k, o.progress, o.raised)| <= |items|
    && items[i..i + |TaskItems(k, o.progress, o.raised)|] == TaskItems(k, o.progress, o.raised)
  }

  /** The queue holds the tasks' blocks one after the other, task `k`'s from
      `offsets[k]` to `offsets[k + 1]`. */
  ghost predicate Laid(items: seq<Item>, os: seq<Outline>, offsets: seq<nat>) {
    && |offsets| == |os| + 1 && offsets[0] == 0
    && (forall k :: 0 <= k <= |os| ==> offsets[k] <= |items|)
    && (forall k :: 0 <= k < |os| ==>
          BlockAt(items, offsets[k], k, os[k])
          && offsets[k + 1] == offsets[k] + |TaskItems(k, os[k].progress, os[k].raised)|)
  }

  /** Over a queue laid out in blocks, the loop finishes the tasks one block at a time:
      after the first `m` blocks the first `m` tasks have run and the others wait. */
  lemma {:induction false} LaidSteps(views: seq<TaskView>, os: seq<Outline>, items: seq<Item>,
                                     offsets: seq<nat>, m: nat)
    requires |views| == |os| && m <= |os| && Laid(items, os, offsets)
    ensures RunLoop(views, |os|, items, 0, false)
      == RunLoop(PartlyRun(views, os, m), |os| - m, items, offsets[m], false)
  {
    if m > 0 {
      var lo, hi := offsets[m - 1], offsets[m];
      var pv := PartlyRun(views, os, m - 1);
      assert RunLoop(views, |os|, items, 0, false) == RunLoop(pv, |os| - (m - 1), items, lo, false) by {
        LaidSteps(views, os, items, offsets, m - 1);
      }
      assert RunLoop(pv, |os| - (m - 1), items, lo, false)
          == RunLoop(PartlyRun(views, os, m), |os| - m, items, hi, false) by {
        assert BlockAt(items, lo, m - 1, os[m - 1]);
        LaidStep(views, os, items, lo, hi, m);
      }
    }
  }

  /** The loop over block `m - 1`, from `lo` to `hi`, runs task `m - 1`. */
  lemma LaidStep(views: seq<TaskView>, os: seq<Outline>, items: seq<Item>, lo: nat, hi: nat, m: nat)
    requires |views| == |os| && 0 < m <= |os|
    requires BlockAt(items, lo, m - 1, os[m - 1])
    requires hi == lo + |TaskItems(m - 1, os[m - 1].progress, os[m - 1].raised)|
    ensures hi <= |items|
    ensures RunLoop(PartlyRun(views, os, m - 1), |os| - (m - 1), items, lo, false)
      == RunLoop(PartlyRun(views, os, m), |os| - m, items, hi, false)
  {
    var o := os[m - 1];
    var pv, nv := PartlyRun(views, os, m - 1), PartlyRun(views, os, m);
    var after := pv[m - 1 := FinalView(pv[m - 1], o)];
    var left := |os| - (m - 1);
    assert hi <= |items|;
    assert RunLoop(pv, left, items, lo, false) == RunLoop(after, left - 1, items, hi, false) by {
      assert BlockAt(items, lo, m - 1, o);
      BlockSteps(pv, left, items, lo, hi, m - 1, o);
    }
    assert RunLoop(after, left - 1, items, hi, false) == RunLoop(nv, |os| - m, items, hi, false) by {
      PartlyRunAt(views, os, m - 1, m - 1);
      assert after == nv;
      SameLoop(after, nv, left - 1, |os| - m, items, hi, hi);
    }
  }

  /** The loop from equal states ends equally. */
  lemma SameLoop(v: seq<TaskView>, w: seq<TaskView>, left: nat, left': nat, items: seq<Item>, i: nat, i': nat)
    requires v == w && left == left' && i == i' && i <= |items|
    ensures RunLoop(v, left, items, i, false) == RunLoop(w, left', items, i', false)
  {
  }

  /** Where each task's block starts in the queue of tasks that report one after the
      other. */
  function Offsets(os: seq<Outline>): (offsets: seq<nat>)
    ensures |offsets| == |os| + 1
  {
    seq(|os| + 1, k requires 0 <= k <= |os| => |Sequential(os[..k])|)
  }

  /** Tasks that report one after the other lay their blocks out in task order. */
  lemma SequentialLaid(os: seq<Outline>)
    ensures Laid(Sequential(os), os, Offsets(os))
  {
    var items, offsets := Sequential(os), Offsets(os);
    assert offsets[0] == 0 by {
      assert os[..0] == [];
    }
    assert forall k :: 0 <= k <= |os| ==> offsets[k] <= |items| by {
      forall k | 0 <= k <= |os| ensures offsets[k] <= |items| {
        SequentialPrefix(os, k);
      }
    }
    assert forall k :: 0 <= k < |os| ==>
      BlockAt(items, offsets[k], k, os[k])
      && offsets[k + 1] == offsets[k] + |TaskItems(k, os[k].progress, os[k].raised)|
    by {
      forall k | 0 <= k < |os|
        ensures BlockAt(items, offsets[k], k, os[k])
        ensures offsets[k + 1] == offsets[k] + |TaskItems(k, os[k].progress, os[k].raised)|
      {
        assert offsets[k] == |Sequential(os[..k])|;
        assert offsets[k + 1] == |Sequential(os[..k + 1])|;
        SequentialBlock(os, k);
      }
    }
  }

  /** Tasks that report one after the other all finish: the loop consumes the whole
      queue, and every task ends completed, or failed with its traceback. */
  lemma SequentialRunFinishes(views: seq<TaskView>, os: seq<Outline>)
    requires |views| == |os|
    ensures var r := RunLoop(views, |os|, Sequential(os), 0, false);
      && r.0 == Finished(|Sequential(os)|)
      && |r.1| == |os|
      && forall k :: 0 <= k < |os| ==> r.1[k] == FinalView(views[k], os[k])
  {
    SequentialLaid(os);
    LaidSteps(views, os, Sequential(os), Offsets(os), |os|);
    assert os[..|os|] == os;
    forall k | 0 <= k < |os|
      ensures PartlyRun(views, os, |os|)[k] == FinalView(views[k], os[k])
    {
      PartlyRunAt(views, os, |os|, k);
    }
  }

  // ----- The progress item as written -----

  /** As written, the loop raises on the first progress item: a single task whose only
      action reports one message never finishes, where the loop that records the
      progress runs it to completion. */
  lemma ProgressItemRaises(v: TaskView)
    ensures var os := [Outline(["Dummy action initiated"], None)];
      && RunLoop([v], 1, Sequential(os), 0, true).0 == Raised(NoSetProgress, 2)
      && RunLoop([v], 1, Sequential(os), 0, false).0 == Finished(4)
  {
    var os := [Outline(["Dummy action initiated"], None)];
    assert os[..0] == [];
    var items := Sequential(os);
    assert items == [Status(0, "started"), Progress(0, "Dummy action initiated"),
                     Status(0, "completed"), TaskDone(0)];
    SequentialRunFinishes([v], os);
  }

  // ----- The worker -----

  class Worker {
    const numProcesses: nat

    constructor(numProcesses: nat)
      ensures this.numProcesses == numProcesses
    {
      this.numProcesses := numProcesses;
    }

    /** `run`: task `i` is handed to a process as id `i` with its work directory; then
        the result loop applies each item the queue yields to the task it names,
        until as many 'task_done' items as tasks have arrived. */
    method Run(tasks: seq<LegacyTask>, items: seq<Item>)
      returns (handed: seq<(nat, Option<string>)>, end: LoopEnd)
      requires NoDuplicates(tasks)
      modifies set t | t in tasks
      ensures |handed| == |tasks|
      ensures forall k :: 0 <= k < |tasks| ==> handed[k] == (k, old(tasks[k].workDirectory))
      ensures var r := RunLoop(old(Views(tasks)), |tasks|, items, 0, false);
        end == r.0 && Views(tasks) == r.1
    {
      handed := HandOut(tasks);
      end := ResultLoop(tasks, items);
    }

    /** The arguments each task's process gets: its position in the list as its id,
        and its work directory. */
    method HandOut(tasks: seq<LegacyTask>) returns (handed: seq<(nat, Option<string>)>)
      ensures |handed| == |tasks|
      ensures forall k :: 0 <= k < |tasks| ==> handed[k] == (k, tasks[k].workDirectory)
    {
      handed := [];
      var i: nat := 0;
      while i < |tasks|
        invariant 0 <= i <= |tasks|
        invariant |handed| == i
        invariant forall k :: 0 <= k < i ==> handed[k] == (k, tasks[k].workDirectory)
      {
        handed := handed + [(i, tasks[i].workDirectory)];
        i := i + 1;
      }
    }

    /** The result loop: it ends as `RunLoop` says, leaving the tasks as it says. */
    method ResultLoop(tasks: seq<LegacyTask>, items: seq<Item>) returns (end: LoopEnd)
      requires NoDuplicates(tasks)
      modifies set t | t in tasks
      ensures var r := RunLoop(old(Views(tasks)), |tasks|, items, 0, false);
        end == r.0 && Views(tasks) == r.1
      ensures forall k :: 0 <= k < |tasks| ==> tasks[k].workDirectory == old(tasks[k].workDirectory)
    {
      ghost var views := Views(tasks);
      var tasksLeft: nat := |tasks|;
      var next := 0;
      while tasksLeft > 0
        invariant next <= |items|
        invariant Views(tasks) == views
        invariant RunLoop(views, tasksLeft, items, next, false) == RunLoop(old(Views(tasks)), |tasks|, items, 0, false)
        invariant forall k :: 0 <= k < |tasks| ==> tasks[k].workDirectory == old(tasks[k].workDirectory)
        decreases |items| - next
      {
        if next == |items| {
          return Starved;
        }
        var item := items[next];
        if item.taskId >= |tasks| {
          return Raised(IndexError, next + 1);
        }
        ghost var applied := ApplyItem(views[item.taskId], item, false);
        assert forall k :: 0 <= k < |tasks| && k != item.taskId ==> tasks[k] != tasks[item.taskId];
        var error := ApplyToTask(tasks[item.taskId], item);
        if error.Some? {
          return Raised(error.value, next + 1);
        }
        ViewsAfterUpdate(tasks, views, item.taskId, applied.value);
        Step(views, tasksLeft, items, next, false);
        views := views[item.taskId := applied.value];
        if item.TaskDone? {
          tasksLeft := tasksLeft - 1;
        }
        next := next + 1;
      }
      end := Finished(next);
    }
  }

  /** The views of the tasks, in list order. */
  function Views(tasks: seq<LegacyTask>): (vs: seq<TaskView>)
    reads set t | t in tasks
    ensures |vs| == |tasks|
    ensures forall k :: 0 <= k < |tasks| ==> vs[k] == tasks[k].View()
  {
    seq(|tasks|, k requires 0 <= k < |tasks| reads tasks => tasks[k].View())
  }

  /** One item applied to its task (the body of the result loop): the task changes
      as `ApplyItem` says, or stays as it was when the item raises. */
  method ApplyToTask(task: LegacyTask, item: Item) returns (error: Option<string>)
    modifies task
    ensures var r := ApplyItem(old(task.View()), item, false);
      && (error.None? <==> r.Ok?)
      && (r.Ok? ==> task.View() == r.value)
      && (r.Err? ==> error == Some(r.error) && task.View() == old(task.View()))
    ensures task.workDirectory == old(task.workDirectory)
  {
    match item {
      case Status(_, status) =>
        var code := StatusCode(status);
        if code.None? {
          return Some("Unknown status: " + status);
        }
        task.SetState(code.value);
      case Progress(_, message) =>
        task.SetProgress(message);
        task.AppendDetails("Progress: " + message);
      case StdOut(_, message) =>
        task.AppendDetails(message);
      case TaskDone(_) =>
      case Other(_, itemType) =>
        return Some("Unknown type: " + itemType);
    }
    error := None;
  }

  /** Changing one task of a list of distinct tasks changes its view and no other. */
  lemma ViewsAfterUpdate(tasks: seq<LegacyTask>, views: seq<TaskView>, id: nat, v: TaskView)
    requires NoDuplicates(tasks) && id < |tasks| && |views| == |tasks|
    requires tasks[id].View() == v
    requires forall k :: 0 <= k < |tasks| && k != id ==> tasks[k].View() == views[k]
    ensures Views(tasks) == views[id := v]
  {
  }
}
