/**
 * A unit of work on the queue: its state (kept as the source's integer codes),
 * the timestamps of its life cycle, its activity line and log, and the helpers
 * that render it: `format_timedelta`, `string_state` and the action context's
 * `translate_path`.  Times are whole seconds since an arbitrary epoch.
 */
module SendorTask {
  import opened Common
  import opened Text
  import FileStash

  // ----- format_timedelta -----

  /** The four fields `format_timedelta` extracts from a total number of seconds,
      with Python's floor division and modulo (which Dafny's agree with for the
      positive divisors used here). */
  function Days(t: int): int { t / 86400 }
  function Hours(t: int): int { (t / 3600) % 24 }
  function Minutes(t: int): int { (t / 60) % 60 }
  function Seconds(t: int): int { t % 60 }

  /** The fields are bounded and recombine to the total, for every total. */
  lemma TimedeltaFields(t: int)
    ensures 0 <= Hours(t) < 24 && 0 <= Minutes(t) < 60 && 0 <= Seconds(t) < 60
    ensures 86400 * Days(t) + 3600 * Hours(t) + 60 * Minutes(t) + Seconds(t) == t
    ensures t >= 0 ==> Days(t) >= 0
  {
    var q1 := t / 60;
    var q2 := q1 / 60;
    var q3 := q2 / 24;
    assert t == 60 * q1 + t % 60;
    assert q1 == 60 * q2 + q1 % 60;
    assert q2 == 24 * q3 + q2 % 24;
    assert q2 == t / 3600 by {
      assert t == 3600 * q2 + 60 * (q1 % 60) + t % 60;
      assert 0 <= 60 * (q1 % 60) + t % 60 < 3600;
    }
    assert q3 == t / 86400 by {
      assert t == 86400 * q3 + 3600 * (q2 % 24) + 60 * (q1 % 60) + t % 60;
      assert 0 <= 3600 * (q2 % 24) + 60 * (q1 % 60) + t % 60 < 86400;
    }
  }

  datatype TimeUnit = Day | Hour | Minute | Second

  function UnitName(u: TimeUnit): string {
    match u
    case Day => "days"
    case Hour => "hours"
    case Minute => "minutes"
    case Second => "seconds"
  }

  function Scale(u: TimeUnit): nat {
    match u
    case Day => 86400
    case Hour => 3600
    case Minute => 60
    case Second => 1
  }

  /** The unit a name stands for, for reading a rendered duration back. */
  function UnitNamed(name: string): Option<TimeUnit> {
    if name == "days" then Some(Day)
    else if name == "hours" then Some(Hour)
    else if name == "minutes" then Some(Minute)
    else if name == "seconds" then Some(Second)
    else None
  }

  lemma UnitNameRoundTrip(u: TimeUnit)
    ensures UnitNamed(UnitName(u)) == Some(u)
    ensures ',' !in UnitName(u)
  {
  }

  /** One rendered field, `"<n> <unit>"`. */
  function Field(n: nat, unit: TimeUnit): string {
    NatToString(n) + " " + UnitName(unit)
  }

  /** `result = str(n) + " <unit>, " + result` when `n > 0`. */
  function Prefixed(n: int, unit: TimeUnit, rest: string): string {
    if n > 0 then Field(n, unit) + ", " + rest else rest
  }

  /** `format_timedelta` on the whole seconds of a duration: the seconds always, and
      before them the minutes, hours and days, each only when positive. */
  function FormatTimedelta(t: int): string {
    var seconds := Seconds(t);
    assert seconds >= 0;
    Prefixed(Days(t), Day, Prefixed(Hours(t), Hour, Prefixed(Minutes(t), Minute,
      Field(seconds, Second))))
  }

  predicate AllDigits(s: string) {
    forall i :: 0 <= i < |s| ==> IsDigit(s[i])
  }

  /** Reads one `"<n> <unit>"` field as a number of seconds. */
  function ParseField(field: string): Option<nat> {
    match SplitOnce(field, ' ')
    case None => None
    case Some((number, unit)) =>
      if number == [] || !AllDigits(number) then None
      else match UnitNamed(unit)
        case None => None
        case Some(u) => Some(ParseDecimal(number) * Scale(u))
  }

  function SumFields(fields: seq<string>): Option<nat> {
    if fields == [] then Some(0)
    else
      var head := ParseField(fields[0]);
      var tail := SumFields(fields[1..]);
      if head.Some? && tail.Some? then Some(head.value + tail.value) else None
  }

  /** Reads a rendered duration back: its comma-separated fields, summed. */
  function ParseTimedelta(s: string): Option<nat> {
    SumFields(Split(s, ", "))
  }

  /** One field of a rendered duration, before it is written out. */
  datatype Part = Part(count: nat, unit: TimeUnit)

  function Render(parts: seq<Part>): seq<string> {
    if parts == [] then [] else [Field(parts[0].count, parts[0].unit)] + Render(parts[1..])
  }

  /** The seconds a list of parts stands for. */
  function Total(parts: seq<Part>): nat {
    if parts == [] then 0 else parts[0].count * Scale(parts[0].unit) + Total(parts[1..])
  }

  /** The part list behind `Prefixed`. */
  function PrefixedParts(n: int, unit: TimeUnit, rest: seq<Part>): seq<Part> {
    if n > 0 then [Part(n, unit)] + rest else rest
  }

  /** The parts `format_timedelta` writes for the given day, hour, minute and second
      counts, largest unit first. */
  function PartsOf(d: int, h: int, m: int, s: nat): seq<Part> {
    PrefixedParts(d, Day, PrefixedParts(h, Hour, PrefixedParts(m, Minute, [Part(s, Second)])))
  }

  function Parts(t: int): seq<Part> {
    var seconds := Seconds(t);
    assert seconds >= 0;
    PartsOf(Days(t), Hours(t), Minutes(t), seconds)
  }

  lemma PrefixedJoin(n: int, unit: TimeUnit, rest: seq<Part>)
    requires |rest| >= 1
    ensures |PrefixedParts(n, unit, rest)| >= 1
    ensures Join(Render(PrefixedParts(n, unit, rest)), ", ") == Prefixed(n, unit, Join(Render(rest), ", "))
  {
    if n > 0 {
      var ps := [Part(n, unit)] + rest;
      assert ps[1..] == rest;
      assert |Render(rest)| >= 1;
      JoinCons(Field(n, unit), Render(rest), ", ");
    }
  }

  /** The rendered duration is its parts written out and joined by commas. */
  lemma FormatIsJoin(t: int)
    ensures FormatTimedelta(t) == Join(Render(Parts(t)), ", ")
    ensures |Parts(t)| >= 1
  {
    var s := [Part(Seconds(t), Second)];
    assert Render(s) == [Field(Seconds(t), Second)];
    PrefixedJoin(Minutes(t), Minute, s);
    var m := PrefixedParts(Minutes(t), Minute, s);
    PrefixedJoin(Hours(t), Hour, m);
    PrefixedJoin(Days(t), Day, PrefixedParts(Hours(t), Hour, m));
  }

  /** Decimal digits hold neither a space nor a comma. */
  lemma DigitsPlain(n: nat)
    ensures AllDigits(NatToString(n)) && NatToString(n) != []
    ensures ' ' !in NatToString(n) && ',' !in NatToString(n)
  {
    var digits := NatToString(n);
    forall i | 0 <= i < |digits| ensures digits[i] != ' ' && digits[i] != ',' {
      assert IsDigit(digits[i]);
    }
  }

  /** A field reads back as its number times its unit. */
  lemma ParseFieldOf(n: nat, unit: TimeUnit)
    ensures ParseField(Field(n, unit)) == Some(n * Scale(unit))
    ensures ',' !in Field(n, unit)
  {
    var digits := NatToString(n);
    DigitsPlain(n);
    assert Field(n, unit) == digits + [' '] + UnitName(unit);
    SplitOnceJoin(digits, ' ', UnitName(unit));
    ParseNatToString(n);
    UnitNameRoundTrip(unit);
  }

  predicate CommaFree(fields: seq<string>) {
    forall k :: 0 <= k < |fields| ==> ',' !in fields[k]
  }

  /** Fields that each read back as the seconds of the matching part add up to the
      parts' total. */
  lemma {:induction false} SumParsed(fields: seq<string>, parts: seq<Part>)
    requires |fields| == |parts|
    requires forall k :: 0 <= k < |fields| ==> ParseField(fields[k]) == Some(parts[k].count * Scale(parts[k].unit))
    ensures SumFields(fields) == Some(Total(parts))
  {
    if fields != [] {
      SumParsed(fields[1..], parts[1..]);
    }
  }

  /** The `k`-th written-out field is that of the `k`-th part. */
  lemma {:induction false} RenderAt(parts: seq<Part>, k: nat)
    requires k < |parts|
    ensures |Render(parts)| == |parts|
    ensures Render(parts)[k] == Field(parts[k].count, parts[k].unit)
  {
    if k > 0 {
      RenderAt(parts[1..], k - 1);
    } else {
      RenderLength(parts[1..]);
    }
  }

  lemma {:induction false} RenderLength(parts: seq<Part>)
    ensures |Render(parts)| == |parts|
  {
    if parts != [] {
      RenderLength(parts[1..]);
    }
  }

  /** Written-out parts read back as the seconds they stand for. */
  lemma RenderSum(parts: seq<Part>)
    ensures SumFields(Render(parts)) == Some(Total(parts))
  {
    var fs := Render(parts);
    RenderLength(parts);
    forall k | 0 <= k < |fs| ensures ParseField(fs[k]) == Some(parts[k].count * Scale(parts[k].unit)) {
      RenderAt(parts, k);
      ParseFieldOf(parts[k].count, parts[k].unit);
    }
    SumParsed(fs, parts);
  }

  /** Written-out parts hold no comma, one field per part. */
  lemma {:induction false} RenderCommaFree(parts: seq<Part>)
    ensures CommaFree(Render(parts)) && |Render(parts)| == |parts|
  {
    if parts != [] {
      var p := parts[0];
      RenderCommaFree(parts[1..]);
      DigitsPlain(p.count);
      var fs := Render(parts);
      forall k | 0 <= k < |fs| ensures ',' !in fs[k] {
        if k > 0 {
          assert fs[k] == Render(parts[1..])[k - 1];
        } else {
          assert fs[0] == NatToString(p.count) + " " + UnitName(p.unit);
          assert ',' !in UnitName(p.unit);
        }
      }
    }
  }

  /** The parts of a non-negative duration add up to it. */
  lemma PartsTotal(t: int)
    requires t >= 0
    ensures Total(Parts(t)) == t
  {
    TimedeltaFields(t);
    var d, h, m, s := Days(t), Hours(t), Minutes(t), Seconds(t);
    var sp := [Part(s, Second)];
    assert Total(sp) == s by {
      assert sp[1..] == [];
    }
    var mp := PrefixedParts(m, Minute, sp);
    assert Total(mp) == 60 * m + s by {
      if m > 0 {
        assert mp[1..] == sp;
      }
    }
    var hp := PrefixedParts(h, Hour, mp);
    assert Total(hp) == 3600 * h + 60 * m + s by {
      if h > 0 {
        assert hp[1..] == mp;
      }
    }
    var dp := PrefixedParts(d, Day, hp);
    assert Total(dp) == 86400 * d + 3600 * h + 60 * m + s by {
      if d > 0 {
        assert dp[1..] == hp;
      }
    }
  }

  /** Comma-free fields joined by `", "` read back as their sum. */
  lemma ParseJoined(fields: seq<string>)
    requires CommaFree(fields) && |fields| >= 1
    ensures ParseTimedelta(Join(fields, ", ")) == SumFields(fields)
  {
    assert ", "[0] == ',';
    SplitJoin(fields, ", ");
  }

  /** Reading back a rendered non-negative duration gives the duration: no field is
      lost, none is misread, and the commas separate exactly the fields. */
  lemma ParseFormat(t: int)
    requires t >= 0
    ensures ParseTimedelta(FormatTimedelta(t)) == Some(t)
  {
    FormatIsJoin(t);
    RenderSum(Parts(t));
    RenderCommaFree(Parts(t));
    PartsTotal(t);
    ParseJoined(Render(Parts(t)));
  }

  predicate EndsWith(s: string, suffix: string) {
    |suffix| <= |s| && s[|s| - |suffix|..] == suffix
  }

  lemma PrefixedEndsWith(n: int, unit: TimeUnit, rest: string, suffix: string)
    requires EndsWith(rest, suffix)
    ensures EndsWith(Prefixed(n, unit, rest), suffix)
  {
    if n > 0 {
      var s := Field(n, unit) + ", " + rest;
      assert s[|s| - |rest|..] == rest;
      assert s[|s| - |suffix|..] == rest[|rest| - |suffix|..];
    }
  }

  /** The rendering always ends with the seconds field. */
  lemma FormatEndsWithSeconds(t: int)
    ensures Seconds(t) >= 0 && EndsWith(FormatTimedelta(t), Field(Seconds(t), Second))
  {
    var s := Field(Seconds(t), Second);
    assert EndsWith(s, s);
    PrefixedEndsWith(Minutes(t), Minute, s, s);
    var m := Prefixed(Minutes(t), Minute, s);
    PrefixedEndsWith(Hours(t), Hour, m, s);
    PrefixedEndsWith(Days(t), Day, Prefixed(Hours(t), Hour, m), s);
  }

  // ----- States -----

  const NotStarted: int := 0
  const Started: int := 1
  const Completed: int := 2
  const Failed: int := 3
  const Canceled: int := 4

  /** `string_state`: the name of each state code; any other code raises. */
  function StringState(state: int): (r: Result<string, string>)
    ensures r.Ok? <==> NotStarted <= state <= Canceled
  {
    if state == NotStarted then Ok("not_started")
    else if state == Started then Ok("in_progress")
    else if state == Completed then Ok("completed")
    else if state == Failed then Ok("failed")
    else if state == Canceled then Ok("canceled")
    else Err("Unknown state " + IntToString(state))
  }

  /** Python's `str(i)` for any integer. */
  function IntToString(i: int): string {
    if i < 0 then "-" + NatToString(-i) else NatToString(i)
  }

  /** The state a name stands for: the reading a client makes of `string_state`. */
  function StateNamed(name: string): Option<int> {
    if name == "not_started" then Some(NotStarted)
    else if name == "in_progress" then Some(Started)
    else if name == "completed" then Some(Completed)
    else if name == "failed" then Some(Failed)
    else if name == "canceled" then Some(Canceled)
    else None
  }

  /** State names identify states: each known code has its own name, and reading a
      name back gives the code. */
  lemma StringStateRoundTrip(state: int, name: string)
    ensures StringState(state).Ok? ==> StateNamed(StringState(state).value) == Some(state)
    ensures StateNamed(name).Some? ==> StringState(StateNamed(name).value) == Ok(name)
  {
  }

  // ----- translate_path -----

  const WorkDirectoryPlaceholder: string := "{task_work_directory}"

  /** Python truthiness of an optional string: set and non-empty. */
  predicate IsSet(s: Option<string>) {
    s.Some? && s.value != ""
  }

  /** `translate_path`: every placeholder becomes the work directory; without a work
      directory the path is returned unchanged. */
  function TranslatePath(workDirectory: Option<string>, path: string): string {
    if IsSet(workDirectory) then Replace(path, WorkDirectoryPlaceholder, workDirectory.value)
    else path
  }

  /** With a work directory, translation cuts the path at every placeholder and puts
      the work directory in each cut; the pieces keep no placeholder.  Without one,
      or without a placeholder in the path, the path is unchanged. */
  lemma TranslatePathMeaning(workDirectory: Option<string>, path: string)
    ensures IsSet(workDirectory) ==>
      var pieces := Split(path, WorkDirectoryPlaceholder);
      && path == Join(pieces, WorkDirectoryPlaceholder)
      && TranslatePath(workDirectory, path) == Join(pieces, workDirectory.value)
      && forall k :: 0 <= k < |pieces| ==> !Contains(pieces[k], WorkDirectoryPlaceholder)
    ensures !IsSet(workDirectory) ==> TranslatePath(workDirectory, path) == path
    ensures !Contains(path, WorkDirectoryPlaceholder) ==> TranslatePath(workDirectory, path) == path
  {
    JoinSplit(path, WorkDirectoryPlaceholder);
    SplitPiecesFree(path, WorkDirectoryPlaceholder);
    if IsSet(workDirectory) && !Contains(path, WorkDirectoryPlaceholder) {
      ReplaceAbsent(path, WorkDirectoryPlaceholder, workDirectory.value);
    }
  }

  // ----- The task -----

  /** One `notify(event_type=..., task=...)` of an observable that tracks tasks. */
  datatype Notification = Notification(eventType: string, task: Task)

  /** What `progress` reports.  `enqueue_time` is reported as the timestamp itself;
      its calendar rendering is not modelled. */
  datatype Progress = Progress(
    taskId: Option<nat>,
    description: string,
    enqueueTime: Option<nat>,
    duration: Option<string>,
    state: string,
    activity: string,
    isCancelable: bool,
    log: string)

  /** The stash lock a task holds from its construction until it ends.  A task that
      distributes a stashed file (`DistributeFileTask`) locks the file when it is made
      and unlocks it in its `completed`, `failed` and `canceled`; a plain task holds
      none. */
  datatype HeldLock = NoLock | FileLock(stash: FileStash.Stash, fileId: string)

  class Task {
    /** `string_description`, supplied by the concrete kind of task. */
    const description: string
    /** The lock the concrete kind of task gives back when it ends. */
    const held: HeldLock
    var state: int
    var taskId: Option<nat>
    var workDirectory: Option<string>
    var enqueueTime: Option<nat>
    var startTime: Option<nat>
    var endTime: Option<nat>
    var activity: string
    var log: string
    var isCancelable: bool

    ghost predicate Valid()
      reads this
    {
      NotStarted <= state <= Canceled
    }

    /** The objects ending the task may change: the task and the stash it holds a
        lock in. */
    function EndFrame(): set<object> {
      {this} + (if held.FileLock? then {held.stash} else {})
    }

    /** The stash the task holds a lock in is consistent. */
    ghost predicate LockValid()
      reads if held.FileLock? then {held.stash} else {}
    {
      held.FileLock? ==> held.stash.Valid()
    }

    /** What ending the task, or not ending it, does to the stash it holds a lock in:
        one lock fewer on its file when `ended`, the index as it was otherwise; the
        stored contents and the directory never change. */
    twostate predicate LockReleased(ended: bool)
      reads if held.FileLock? then {held.stash} else {}
    {
      held.FileLock? ==>
        && held.stash.stashed ==
             (if ended then FileStash.Unlocked(old(held.stash.stashed), held.fileId) else old(held.stash.stashed))
        && held.stash.physical == old(held.stash.physical) && held.stash.disk == old(held.stash.disk)
    }

    constructor(description: string, held: HeldLock)
      ensures Valid()
      ensures this.description == description && this.held == held
      ensures state == NotStarted && taskId.None? && workDirectory.None?
      ensures enqueueTime.None? && startTime.None? && endTime.None?
      ensures activity == "" && log == "" && !isCancelable
    {
      this.description := description;
      this.held := held;
      state := NotStarted;
      taskId := None;
      workDirectory := None;
      enqueueTime := None;
      startTime := None;
      endTime := None;
      activity := "";
      log := "";
      isCancelable := false;
    }

    /** `enqueued`: the queue's id, the work directory and the enqueue time. */
    method Enqueued(id: nat, dir: string, now: nat)
      modifies this
      ensures taskId == Some(id) && workDirectory == Some(dir) && enqueueTime == Some(now)
      ensures state == old(state) && startTime == old(startTime) && endTime == old(endTime)
      ensures activity == old(activity) && log == old(log) && isCancelable == old(isCancelable)
    {
      taskId := Some(id);
      workDirectory := Some(dir);
      enqueueTime := Some(now);
    }

    /** `started`: whatever the state was, it becomes in-progress. */
    method MarkStarted(now: nat)
      modifies this
      ensures state == Started && startTime == Some(now)
      ensures taskId == old(taskId) && workDirectory == old(workDirectory)
      ensures enqueueTime == old(enqueueTime) && endTime == old(endTime)
      ensures activity == old(activity) && log == old(log) && isCancelable == old(isCancelable)
      ensures Valid()
    {
      state := Started;
      startTime := Some(now);
    }

    /** `completed`, `failed` and `canceled`: the terminal state is set whatever the
        state was, and the end time recorded. */
    method MarkEnded(terminal: int, now: nat)
      requires terminal == Completed || terminal == Failed || terminal == Canceled
      modifies this
      ensures state == terminal && endTime == Some(now)
      ensures taskId == old(taskId) && workDirectory == old(workDirectory)
      ensures enqueueTime == old(enqueueTime) && startTime == old(startTime)
      ensures activity == old(activity) && log == old(log) && isCancelable == old(isCancelable)
      ensures Valid()
    {
      state := terminal;
      endTime := Some(now);
    }

    /** `completed`, `failed` and `canceled` as the task's own class defines them:
        the terminal transition of `MarkEnded`, then, for a task that holds a stash
        lock, one unlock of its file.  The stash changes in nothing else. */
    method End(terminal: int, now: nat)
      requires terminal == Completed || terminal == Failed || terminal == Canceled
      requires LockValid()
      modifies EndFrame()
      ensures state == terminal && endTime == Some(now)
      ensures taskId == old(taskId) && workDirectory == old(workDirectory)
      ensures enqueueTime == old(enqueueTime) && startTime == old(startTime)
      ensures activity == old(activity) && log == old(log) && isCancelable == old(isCancelable)
      ensures Valid() && LockValid()
      ensures LockReleased(true)
      ensures held.FileLock? ==>
        |held.stash.events| == |old(held.stash.events)| + 1 && held.stash.uniqueId == old(held.stash.uniqueId)
    {
      MarkEnded(terminal, now);
      if held.FileLock? {
        held.stash.Unlock(held.fileId);
      }
    }

    method SetActivity(a: string)
      modifies this
      ensures activity == a
      ensures state == old(state) && log == old(log) && isCancelable == old(isCancelable)
      ensures taskId == old(taskId) && workDirectory == old(workDirectory)
      ensures enqueueTime == old(enqueueTime) && startTime == old(startTime) && endTime == old(endTime)
    {
      activity := a;
    }

    /** `append_log`: the message and a newline go after the existing log. */
    method AppendLog(message: string)
      modifies this
      ensures log == old(log) + message + "\n"
      ensures old(log) <= log
      ensures state == old(state) && activity == old(activity) && isCancelable == old(isCancelable)
      ensures taskId == old(taskId) && workDirectory == old(workDirectory)
      ensures enqueueTime == old(enqueueTime) && startTime == old(startTime) && endTime == old(endTime)
    {
      log := log + message + "\n";
    }

    method SetCancelable(c: bool)
      modifies this
      ensures isCancelable == c
      ensures state == old(state) && activity == old(activity) && log == old(log)
      ensures taskId == old(taskId) && workDirectory == old(workDirectory)
      ensures enqueueTime == old(enqueueTime) && startTime == old(startTime) && endTime == old(endTime)
    {
      isCancelable := c;
    }

    /** `progress` at time `now`: a duration only once the task has started (up to its
        end, or to now while it runs), an enqueue time only once it was enqueued; an
        unknown state code raises as `string_state` does. */
    function Report(now: nat): (r: Result<Progress, string>)
      reads this
      ensures r.Err? <==> StringState(state).Err?
      ensures r.Ok? ==>
        && r.value.state == StringState(state).value
        && (r.value.duration.Some? <==> startTime.Some?)
        && (r.value.enqueueTime == enqueueTime)
        && (startTime.Some? && endTime.Some? ==>
              r.value.duration == Some(FormatTimedelta(endTime.value - startTime.value)))
        && (startTime.Some? && endTime.None? ==>
              r.value.duration == Some(FormatTimedelta(now - startTime.value)))
        && r.value.log == log && r.value.taskId == taskId
        && r.value.description == description && r.value.activity == activity
        && r.value.isCancelable == isCancelable
    {
      var duration :=
        if startTime.None? then None
        else if endTime.Some? then Some(FormatTimedelta(endTime.value - startTime.value))
        else Some(FormatTimedelta(now - startTime.value));
      match StringState(state)
      case Err(e) => Err(e)
      case Ok(name) =>
        Ok(Progress(taskId, description, enqueueTime, duration, name, activity, isCancelable, log))
    }
  }
}
