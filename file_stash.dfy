/**
 * The reference-counted file stash (FileDistribution/FileStash.py).
 *
 * Uploaded files are stored once per content hash.  The index holds two
 * dictionaries: physical files keyed by SHA-1, whose count is the number of
 * index entries with that content, and stashed entries keyed by a decimal id
 * drawn from a counter, whose count is the number of outstanding locks.  An
 * entry can be removed only while unlocked, and the on-disk file goes when the
 * last entry with its content goes.  The stash directory is abstracted as the
 * set of file names it holds.
 */
module FileStash {
  import opened Common
  import opened Text
  import opened Json
  import Observable

  /** An index entry (`StashedFile`); `refCount` counts outstanding locks. */
  datatype StashedFile = StashedFile(
    fileId: string,
    originalFilename: string,
    sha1sum: string,
    timestamp: nat,
    size: nat,
    refCount: int)

  /** `to_json`: 'is_deletable' holds exactly when no lock is outstanding. */
  function ToJson(f: StashedFile): (j: Json)
    ensures j.JObj? && j.fields.Keys ==
      {"file_id", "original_filename", "sha1sum", "timestamp", "size", "is_deletable"}
    ensures j.fields["file_id"] == JStr(f.fileId) && j.fields["sha1sum"] == JStr(f.sha1sum)
    ensures j.fields["is_deletable"] == JBool(IsDeletable(f))
  {
    JObj(map[
      "file_id" := JStr(f.fileId),
      "original_filename" := JStr(f.originalFilename),
      "sha1sum" := JStr(f.sha1sum),
      "timestamp" := JStr(NatToString(f.timestamp)),
      "size" := JStr(NatToString(f.size)),
      "is_deletable" := JBool(f.refCount == 0)])
  }

  predicate IsDeletable(f: StashedFile) {
    f.refCount == 0
  }

  /** The exceptions the stash raises. */
  datatype StashError =
    | FileDoesNotExist(id: string)
    | FileCannotBeRemoved(id: string)
    | InvalidHash(sha1sum: string)
    | NotInStash(id: string)

  /** The message each exception carries. */
  function ErrorMessage(e: StashError): string {
    match e
    case FileDoesNotExist(id) => "File with id " + id + " does not exist in file stash"
    case FileCannotBeRemoved(id) => "File with id " + id + " has nonzero refcount and cannot be removed"
    case InvalidHash(sha) => sha + " is not a valid SHA1 hash value"
    case NotInStash(_) => "File not in stash"
  }

  /** One `notify(event_type=..., stashed_file=...)` call. */
  datatype StashEvent = StashEvent(eventType: string, file: StashedFile)

  /** Every notification is an 'add', a 'change' or a 'remove'. */
  predicate Announced(events: seq<StashEvent>) {
    forall i :: 0 <= i < |events| ==> Observable.ChangeEvent(events[i].eventType)
  }

  /** An entry of the saved index file, as `build_index` reads it back. */
  datatype IndexEntry = IndexEntry(originalFilename: string, sha1sum: string, timestamp: nat, size: nat)

  /** The ids issued while the counter ran from 0 up to `bound`: the decimal strings of
      the numbers below it. */
  ghost function IssuedIds(bound: nat): set<string> {
    if bound == 0 then {} else IssuedIds(bound - 1) + {NatToString(bound - 1)}
  }

  /** The counter's next id was never issued before. */
  lemma {:induction false} NextIdFresh(bound: nat, u: nat)
    requires bound <= u
    ensures NatToString(u) !in IssuedIds(bound)
  {
    if bound > 0 {
      NextIdFresh(bound - 1, u);
      if NatToString(bound - 1) == NatToString(u) {
        NatToStringInjective(bound - 1, u);
      }
    }
  }

  /** The ids of the entries whose content has hash `sha`. */
  ghost function IdsWith(stashed: map<string, StashedFile>, sha: string): set<string> {
    set id | id in stashed && stashed[id].sha1sum == sha
  }

  lemma IdsWithInsert(stashed: map<string, StashedFile>, id: string, f: StashedFile, sha: string)
    requires id !in stashed
    ensures IdsWith(stashed[id := f], sha) == IdsWith(stashed, sha) + (if f.sha1sum == sha then {id} else {})
  {
  }

  lemma IdsWithDelete(stashed: map<string, StashedFile>, id: string, sha: string)
    requires id in stashed
    ensures IdsWith(stashed - {id}, sha) ==
      IdsWith(stashed, sha) - (if stashed[id].sha1sum == sha then {id} else {})
  {
  }

  lemma IdsWithSameContent(stashed: map<string, StashedFile>, id: string, f: StashedFile, sha: string)
    requires id in stashed && stashed[id].sha1sum == f.sha1sum
    ensures IdsWith(stashed[id := f], sha) == IdsWith(stashed, sha)
  {
  }

  /** `build_index`'s first step: the entries of the saved index whose file is on disk,
      in the order the index lists them. */
  function Reconciled(index: seq<IndexEntry>, onDisk: set<string>): (kept: seq<IndexEntry>)
    ensures forall k :: 0 <= k < |kept| ==> kept[k].sha1sum in onDisk
    ensures forall e :: e in index && e.sha1sum in onDisk ==> e in kept
    ensures forall e :: e in kept ==> e in index
  {
    if index == [] then []
    else if index[0].sha1sum in onDisk then [index[0]] + Reconciled(index[1..], onDisk)
    else Reconciled(index[1..], onDisk)
  }

  /** The hashes the kept entries refer to: every other on-disk file is deleted. */
  function Referenced(kept: seq<IndexEntry>): set<string> {
    set k | 0 <= k < |kept| :: kept[k].sha1sum
  }

  /** The entry `add_to_index` creates for a saved index entry under id `id`. */
  function FromIndexEntry(e: IndexEntry, id: string): StashedFile {
    StashedFile(id, e.originalFilename, e.sha1sum, e.timestamp, e.size, 0)
  }

  /** The stashed entries `build_index` creates from `kept`, with the counter starting
      at `u0`. */
  function Indexed(kept: seq<IndexEntry>, u0: nat): map<string, StashedFile>
    decreases |kept|
  {
    if kept == [] then map[]
    else
      var n := |kept| - 1;
      Indexed(kept[..n], u0)[NatToString(u0 + n) := FromIndexEntry(kept[n], NatToString(u0 + n))]
  }

  /** The announcements `build_index` makes while indexing `kept` with the counter
      starting at `u0`: one 'add' per entry, in order. */
  function AddEvents(kept: seq<IndexEntry>, u0: nat): (r: seq<StashEvent>)
    ensures |r| == |kept|
    decreases |kept|
  {
    if kept == [] then []
    else
      var n := |kept| - 1;
      AddEvents(kept[..n], u0) + [StashEvent("add", FromIndexEntry(kept[n], NatToString(u0 + n)))]
  }

  /** The i-th announcement adds the i-th kept entry under the i-th id. */
  lemma {:induction false} AddEventsAt(kept: seq<IndexEntry>, u0: nat, i: nat)
    requires i < |kept|
    ensures AddEvents(kept, u0)[i] == StashEvent("add", FromIndexEntry(kept[i], NatToString(u0 + i)))
    decreases |kept|
  {
    var n := |kept| - 1;
    if i < n {
      AddEventsAt(kept[..n], u0, i);
      assert kept[..n][i] == kept[i];
    }
  }

  /** Indexing announces nothing but additions. */
  lemma AddEventsAdd(kept: seq<IndexEntry>, u0: nat)
    ensures forall i :: 0 <= i < |kept| ==> AddEvents(kept, u0)[i].eventType == "add"
  {
    forall i | 0 <= i < |kept|
      ensures AddEvents(kept, u0)[i].eventType == "add"
    {
      AddEventsAt(kept, u0, i);
    }
  }

  /** The physical files `build_index` creates from `kept`. */
  function Counted(kept: seq<IndexEntry>): map<string, int>
    decreases |kept|
  {
    if kept == [] then map[] else Bumped(Counted(kept[..|kept| - 1]), kept[|kept| - 1].sha1sum)
  }

  /** Indexing one more kept entry extends the index by that entry alone. */
  lemma PrefixStep(kept: seq<IndexEntry>, k: nat, u0: nat)
    requires k < |kept|
    ensures HashesWellFormed(kept[..k]) && |kept[k].sha1sum| == 40 ==> HashesWellFormed(kept[..k + 1])
    ensures Indexed(kept[..k + 1], u0)
      == Indexed(kept[..k], u0)[NatToString(u0 + k) := FromIndexEntry(kept[k], NatToString(u0 + k))]
    ensures Counted(kept[..k + 1]) == Bumped(Counted(kept[..k]), kept[k].sha1sum)
    ensures AddEvents(kept[..k + 1], u0)
      == AddEvents(kept[..k], u0) + [StashEvent("add", FromIndexEntry(kept[k], NatToString(u0 + k)))]
  {
    assert kept[..k + 1][..k] == kept[..k];
  }

  /** Every entry carries a 40-character hash, as `add_to_index` demands of a new hash. */
  predicate HashesWellFormed(kept: seq<IndexEntry>) {
    forall j :: 0 <= j < |kept| ==> |kept[j].sha1sum| == 40
  }

  /** Only hashes of the entries are counted. */
  lemma {:induction false} CountedHash(kept: seq<IndexEntry>, sha: string)
    requires HashesWellFormed(kept)
    requires sha in Counted(kept)
    ensures |sha| == 40
  {
    var n := |kept| - 1;
    if sha != kept[n].sha1sum {
      assert HashesWellFormed(kept[..n]) by {
        forall j | 0 <= j < n ensures |kept[..n][j].sha1sum| == 40 {
          assert kept[..n][j] == kept[j];
        }
      }
      CountedHash(kept[..n], sha);
    }
  }

  /** The index `build_index` creates from entries with well-formed hashes is consistent. */
  lemma {:induction false} IndexedOk(kept: seq<IndexEntry>, u0: nat)
    requires HashesWellFormed(kept)
    ensures IndexOk(Counted(kept), Indexed(kept, u0), u0 + |kept|)
  {
    if kept != [] {
      var n := |kept| - 1;
      IndexedOk(kept[..n], u0);
      AddKeepsIndex(Counted(kept[..n]), Indexed(kept[..n], u0), u0 + n, FromIndexEntry(kept[n], NatToString(u0 + n)));
    }
  }

  /** `build_index` stashes one entry per kept entry, under ids the counter issued. */
  lemma {:induction false} IndexedSize(kept: seq<IndexEntry>, u0: nat)
    ensures Indexed(kept, u0).Keys <= IssuedIds(u0 + |kept|)
    ensures |Indexed(kept, u0)| == |kept|
  {
    if kept != [] {
      var n := |kept| - 1;
      IndexedSize(kept[..n], u0);
      NextIdFresh(u0 + n, u0 + n);
    }
  }

  /** The `k`-th kept entry is stashed under id `str(u0 + k)`. */
  lemma {:induction false} IndexedLookup(kept: seq<IndexEntry>, u0: nat, k: nat)
    requires k < |kept|
    ensures NatToString(u0 + k) in Indexed(kept, u0)
    ensures Indexed(kept, u0)[NatToString(u0 + k)] == FromIndexEntry(kept[k], NatToString(u0 + k))
  {
    var n := |kept| - 1;
    if k < n {
      IndexedLookup(kept[..n], u0, k);
      if NatToString(u0 + k) == NatToString(u0 + n) {
        NatToStringInjective(u0 + k, u0 + n);
      }
    }
  }

  /** Every kept hash has a positive count and no other hash has one, so the directory
      after reconciliation holds exactly the files the index refers to. */
  lemma {:induction false} CountedReferenced(kept: seq<IndexEntry>)
    ensures forall sha :: sha in Counted(kept) <==> sha in Referenced(kept)
    ensures forall sha :: sha in Counted(kept) ==> Counted(kept)[sha] > 0
  {
    if kept != [] {
      var n := |kept| - 1;
      CountedReferenced(kept[..n]);
      assert Referenced(kept) == Referenced(kept[..n]) + {kept[n].sha1sum} by {
        forall sha | sha in Referenced(kept)
          ensures sha in Referenced(kept[..n]) + {kept[n].sha1sum}
        {
          var k :| 0 <= k < |kept| && kept[k].sha1sum == sha;
          if k < n {
            assert kept[..n][k] == kept[k];
          }
        }
        forall sha | sha in Referenced(kept[..n])
          ensures sha in Referenced(kept)
        {
          var k :| 0 <= k < n && kept[..n][k].sha1sum == sha;
          assert kept[k].sha1sum == sha;
        }
      }
    }
  }

  /** The index after `delta` more locks on an entry. */
  function Relocked(stashed: map<string, StashedFile>, fileId: string, delta: int): map<string, StashedFile>
    requires fileId in stashed
  {
    stashed[fileId := stashed[fileId].(refCount := stashed[fileId].refCount + delta)]
  }

  /** The index after `unlock`: one lock fewer on an entry still indexed; an id no
      longer indexed leaves it as it is. */
  function Unlocked(stashed: map<string, StashedFile>, id: string): map<string, StashedFile> {
    if id in stashed then Relocked(stashed, id, -1) else stashed
  }

  /** An unlock gives back exactly one lock: the index is as it was before the lock. */
  lemma LockThenUnlock(stashed: map<string, StashedFile>, id: string)
    requires id in stashed
    ensures Unlocked(Relocked(stashed, id, 1), id) == stashed
  {
    assert Relocked(stashed, id, 1)[id].refCount - 1 == stashed[id].refCount;
  }

  /** The entries `remove_all_unlocked_files` leaves: the locked ones. */
  function Locked(stashed: map<string, StashedFile>): map<string, StashedFile> {
    map id | id in stashed && !IsDeletable(stashed[id]) :: stashed[id]
  }

  /** The entries left while the ids in `todo` still wait to be tried. */
  function LockedOrPending(stashed: map<string, StashedFile>, todo: set<string>): map<string, StashedFile> {
    map id | id in stashed && (id in todo || !IsDeletable(stashed[id])) :: stashed[id]
  }

  /** Trying one more id removes it exactly when it is unlocked. */
  lemma LockedStep(stashed: map<string, StashedFile>, todo: set<string>, id: string)
    requires id in todo && id in stashed
    ensures var now := LockedOrPending(stashed, todo);
      id in now && now[id] == stashed[id]
      && (IsDeletable(stashed[id]) ==> now - {id} == LockedOrPending(stashed, todo - {id}))
      && (!IsDeletable(stashed[id]) ==> now == LockedOrPending(stashed, todo - {id}))
  {
  }

  lemma LockedDone(stashed: map<string, StashedFile>)
    ensures LockedOrPending(stashed, {}) == Locked(stashed)
    ensures LockedOrPending(stashed, stashed.Keys) == stashed
  {
  }

  /** The contents the entries refer to. */
  function Contents(stashed: map<string, StashedFile>): set<string> {
    set id | id in stashed :: stashed[id].sha1sum
  }

  /** The events `remove_all_unlocked_files` announces: each a 'remove' of an unlocked
      entry of `before`, and no entry twice. */
  predicate Removals(before: map<string, StashedFile>, news: seq<StashEvent>) {
    && (forall i :: 0 <= i < |news| ==>
          && news[i].eventType == "remove" && news[i].file.fileId in before
          && before[news[i].file.fileId] == news[i].file && IsDeletable(news[i].file))
    && (forall i, j :: 0 <= i < j < |news| ==> news[i].file.fileId != news[j].file.fileId)
  }

  /** The entries the events name. */
  function EventIds(news: seq<StashEvent>): set<string> {
    set i | 0 <= i < |news| :: news[i].file.fileId
  }

  /** One more removal of an entry not yet removed keeps the removals apart. */
  lemma RemovalStep(before: map<string, StashedFile>, news: seq<StashEvent>, id: string)
    requires Removals(before, news) && id in before && before[id].fileId == id
    requires IsDeletable(before[id]) && id !in EventIds(news)
    ensures Removals(before, news + [StashEvent("remove", before[id])])
    ensures EventIds(news + [StashEvent("remove", before[id])]) == EventIds(news) + {id}
  {
    var longer := news + [StashEvent("remove", before[id])];
    forall i, j | 0 <= i < j < |longer| ensures longer[i].file.fileId != longer[j].file.fileId {
      if j == |news| {
        assert longer[i].file.fileId in EventIds(news);
      } else {
        assert longer[i] == news[i] && longer[j] == news[j];
      }
    }
    assert forall i :: 0 <= i < |news| ==> longer[i] == news[i];
    forall x | x in EventIds(longer) ensures x in EventIds(news) + {id} {
      var i :| 0 <= i < |longer| && longer[i].file.fileId == x;
      if i < |news| {
        assert news[i].file.fileId == x;
      }
    }
    forall x | x in EventIds(news) ensures x in EventIds(longer) {
      var i :| 0 <= i < |news| && news[i].file.fileId == x;
      assert longer[i].file.fileId == x;
    }
    assert longer[|news|].file.fileId == id;
  }

  /** The index is consistent: entries are keyed by their own issued id, every
      physical file has a 40-character hash, and its count is the number of entries
      with its content. */
  ghost predicate IndexOk(physical: map<string, int>, stashed: map<string, StashedFile>, u: nat) {
    IdsIssued(stashed, u) && ContentsKnown(physical, stashed) && CountsMatch(physical, stashed)
  }

  ghost predicate IdsIssued(stashed: map<string, StashedFile>, u: nat) {
    forall id :: id in stashed ==> id in IssuedIds(u) && stashed[id].fileId == id
  }

  ghost predicate ContentsKnown(physical: map<string, int>, stashed: map<string, StashedFile>) {
    && (forall id :: id in stashed ==> stashed[id].sha1sum in physical)
    && (forall sha :: sha in physical ==> |sha| == 40 && physical[sha] >= 0)
  }

  ghost predicate CountsMatch(physical: map<string, int>, stashed: map<string, StashedFile>) {
    forall sha {:trigger IdsWith(stashed, sha)} :: sha in physical ==> physical[sha] == |IdsWith(stashed, sha)|
  }

  /** The directory holds exactly the files some entry refers to. */
  ghost predicate DiskOk(physical: map<string, int>, disk: set<string>) {
    forall sha :: sha in disk <==> sha in physical && physical[sha] > 0
  }

  /** `add_physical_file`: the count for `sha`, created at 0 if absent, plus one. */
  function Bumped(physical: map<string, int>, sha: string): map<string, int> {
    physical[sha := (if sha in physical then physical[sha] else 0) + 1]
  }

  /** Indexing a new entry under the counter's id keeps the index consistent. */
  lemma AddKeepsIndex(physical: map<string, int>, stashed: map<string, StashedFile>, u: nat, f: StashedFile)
    requires IndexOk(physical, stashed, u)
    requires f.fileId == NatToString(u)
    requires f.sha1sum in physical || |f.sha1sum| == 40
    ensures f.fileId !in stashed
    ensures IndexOk(Bumped(physical, f.sha1sum), stashed[f.fileId := f], u + 1)
  {
    NextIdFresh(u, u);
    AddKeepsIssued(stashed, u, f);
    AddKeepsCounts(physical, stashed, f);
  }

  lemma AddKeepsIssued(stashed: map<string, StashedFile>, u: nat, f: StashedFile)
    requires IdsIssued(stashed, u) && f.fileId == NatToString(u)
    ensures IdsIssued(stashed[f.fileId := f], u + 1)
  {
    assert IssuedIds(u + 1) == IssuedIds(u) + {f.fileId};
  }

  lemma AddKeepsCounts(physical: map<string, int>, stashed: map<string, StashedFile>, f: StashedFile)
    requires f.fileId !in stashed
    requires ContentsKnown(physical, stashed) && CountsMatch(physical, stashed)
    requires f.sha1sum in physical || |f.sha1sum| == 40
    ensures CountsMatch(Bumped(physical, f.sha1sum), stashed[f.fileId := f])
  {
    var after := Bumped(physical, f.sha1sum);
    forall sha | sha in after
      ensures after[sha] == |IdsWith(stashed[f.fileId := f], sha)|
    {
      IdsWithInsert(stashed, f.fileId, f, sha);
      if sha !in physical {
        NoIdsWith(stashed, physical, sha);
      }
    }
  }

  lemma NoIdsWith(stashed: map<string, StashedFile>, physical: map<string, int>, sha: string)
    requires forall id :: id in stashed ==> stashed[id].sha1sum in physical
    requires sha !in physical
    ensures IdsWith(stashed, sha) == {}
  {
  }

  /** In a consistent stash the directory holds exactly the contents some entry
      refers to. */
  lemma DiskIsContents(physical: map<string, int>, stashed: map<string, StashedFile>, u: nat, disk: set<string>)
    requires IndexOk(physical, stashed, u) && DiskOk(physical, disk)
    ensures disk == Contents(stashed)
  {
    forall sha | sha in disk ensures sha in Contents(stashed) {
      assert |IdsWith(stashed, sha)| > 0;
      var id :| id in IdsWith(stashed, sha);
    }
    forall sha | sha in Contents(stashed) ensures sha in disk {
      var id :| id in stashed && stashed[id].sha1sum == sha;
      CountPositive(physical, stashed, u, id);
    }
  }

  /** An entry's content has a positive count. */
  lemma CountPositive(physical: map<string, int>, stashed: map<string, StashedFile>, u: nat, id: string)
    requires IndexOk(physical, stashed, u) && id in stashed
    ensures physical[stashed[id].sha1sum] >= 1
  {
    assert id in IdsWith(stashed, stashed[id].sha1sum);
  }

  /** Dropping an entry and one reference to its content keeps the index consistent. */
  lemma RemoveKeepsIndex(physical: map<string, int>, stashed: map<string, StashedFile>, u: nat, id: string)
    requires IndexOk(physical, stashed, u) && id in stashed
    ensures var sha := stashed[id].sha1sum;
      IndexOk(physical[sha := physical[sha] - 1], stashed - {id}, u)
  {
    CountPositive(physical, stashed, u, id);
    RemoveKeepsCounts(physical, stashed, id);
  }

  lemma RemoveKeepsCounts(physical: map<string, int>, stashed: map<string, StashedFile>, id: string)
    requires ContentsKnown(physical, stashed) && CountsMatch(physical, stashed) && id in stashed
    ensures var sha := stashed[id].sha1sum;
      CountsMatch(physical[sha := physical[sha] - 1], stashed - {id})
  {
    var sha := stashed[id].sha1sum;
    var after := physical[sha := physical[sha] - 1];
    forall s | s in after
      ensures after[s] == |IdsWith(stashed - {id}, s)|
    {
      IdsWithDelete(stashed, id, s);
      if s == sha {
        assert id in IdsWith(stashed, sha);
      }
    }
  }

  /** Changing an entry's lock count keeps the index consistent. */
  lemma RelockKeepsIndex(physical: map<string, int>, stashed: map<string, StashedFile>, u: nat,
                         id: string, f: StashedFile)
    requires IndexOk(physical, stashed, u) && id in stashed
    requires f == stashed[id].(refCount := f.refCount)
    ensures IndexOk(physical, stashed[id := f], u)
  {
    forall s | s in physical
      ensures physical[s] == |IdsWith(stashed[id := f], s)|
    {
      IdsWithSameContent(stashed, id, f, s);
    }
  }

  /** A file stays in the directory while its count is positive. */
  lemma DiskAfterBump(physical: map<string, int>, disk: set<string>, sha: string)
    requires DiskOk(physical, disk)
    requires sha in physical ==> physical[sha] >= 0
    ensures DiskOk(Bumped(physical, sha), disk + {sha})
  {
  }

  lemma DiskAfterDrop(physical: map<string, int>, disk: set<string>, sha: string)
    requires DiskOk(physical, disk) && sha in physical && physical[sha] >= 1
    ensures DiskOk(physical[sha := physical[sha] - 1], if physical[sha] == 1 then disk - {sha} else disk)
  {
  }

  class Stash {
    /** `physical_files`: reference count per content hash. */
    var physical: map<string, int>
    /** `stashed_files`, keyed by id. */
    var stashed: map<string, StashedFile>
    var uniqueId: nat
    /** The file names in the stash directory. */
    var disk: set<string>
    /** The notifications sent to subscribers, in order. */
    var events: seq<StashEvent>

    ghost predicate IndexValid()
      reads this
    {
      IndexOk(physical, stashed, uniqueId)
    }

    ghost predicate Valid()
      reads this
    {
      IndexValid() && DiskOk(physical, disk) && Announced(events)
    }

    constructor ()
      ensures Valid() && physical == map[] && stashed == map[] && uniqueId == 0
      ensures disk == {} && events == []
    {
      physical := map[];
      stashed := map[];
      uniqueId := 0;
      disk := {};
      events := [];
    }

    /** `get`. */
    function Get(id: string): (r: Option<StashedFile>)
      reads this
      ensures r.Some? <==> id in stashed
      ensures r.Some? ==> r.value == stashed[id]
    {
      if id in stashed then Some(stashed[id]) else None
    }

    /** `add_to_index`: a new entry under id `str(unique_id)`, the content's count raised
        by one.  A hash seen for the first time must have 40 characters. */
    method AddToIndex(filename: string, sha1sum: string, timestamp: nat, size: nat)
      returns (r: Result<StashedFile, StashError>)
      modifies this
      ensures r.Err? <==> sha1sum !in old(physical) && |sha1sum| != 40
      ensures r.Err? ==>
        && r.error == InvalidHash(sha1sum)
        && physical == old(physical) && stashed == old(stashed)
        && uniqueId == old(uniqueId) && events == old(events)
      ensures r.Ok? ==>
        var id := NatToString(old(uniqueId));
        && r.value == StashedFile(id, filename, sha1sum, timestamp, size, 0)
        && stashed == old(stashed)[id := r.value]
        && physical == Bumped(old(physical), sha1sum)
        && uniqueId == old(uniqueId) + 1
        && events == old(events) + [StashEvent("add", r.value)]
      ensures disk == old(disk)
    {
      if sha1sum !in physical && |sha1sum| != 40 {
        return Err(InvalidHash(sha1sum));
      }
      var file := StashedFile(NatToString(uniqueId), filename, sha1sum, timestamp, size, 0);
      physical := Bumped(physical, sha1sum);
      stashed := stashed[file.fileId := file];
      uniqueId := uniqueId + 1;
      events := events + [StashEvent("add", file)];
      r := Ok(file);
    }

    /** `remove_from_index`: the entry goes, its content's count drops by one, and the
        result says whether that was the last reference.  The directory is not touched. */
    method RemoveFromIndex(id: string) returns (r: Result<bool, StashError>)
      requires IndexValid()
      modifies this
      ensures IndexValid()
      ensures r.Err? <==> id !in old(stashed)
      ensures r.Err? ==>
        && r.error == NotInStash(id)
        && physical == old(physical) && stashed == old(stashed) && events == old(events)
      ensures r.Ok? ==>
        var sha := old(stashed)[id].sha1sum;
        && stashed == old(stashed) - {id}
        && physical == old(physical)[sha := old(physical)[sha] - 1]
        && (r.value <==> physical[sha] == 0)
        && events == old(events) + [StashEvent("remove", old(stashed)[id])]
      ensures uniqueId == old(uniqueId) && disk == old(disk)
    {
      if id !in stashed {
        return Err(NotInStash(id));
      }
      var file := stashed[id];
      var sha := file.sha1sum;
      RemoveKeepsIndex(physical, stashed, uniqueId, id);
      stashed := stashed - {id};
      events := events + [StashEvent("remove", file)];
      physical := physical[sha := physical[sha] - 1];
      r := Ok(physical[sha] == 0);
    }

    /** `add`: index the file whose digest output is given (its first 40 characters are
        the hash); it lands in the directory, where a file with the same content
        already there is simply reused. */
    method Add(filename: string, digestOutput: string, timestamp: nat, size: nat)
      returns (r: Result<StashedFile, StashError>)
      requires Valid()
      modifies this
      ensures Valid()
      ensures var sha := digestOutput[..if |digestOutput| < 40 then |digestOutput| else 40];
        && (r.Err? <==> |sha| != 40)
        && (r.Err? ==>
              && r.error == InvalidHash(sha) && stashed == old(stashed) && disk == old(disk)
              && physical == old(physical) && uniqueId == old(uniqueId) && events == old(events))
        && (r.Ok? ==>
              && r.value == StashedFile(NatToString(old(uniqueId)), filename, sha, timestamp, size, 0)
              && r.value.fileId !in old(stashed)
              && stashed == old(stashed)[r.value.fileId := r.value]
              && physical == Bumped(old(physical), sha)
              && uniqueId == old(uniqueId) + 1
              && events == old(events) + [StashEvent("add", r.value)]
              && disk == old(disk) + {sha})
    {
      var sha := digestOutput[..if |digestOutput| < 40 then |digestOutput| else 40];
      ghost var before := physical;
      if |sha| == 40 {
        AddKeepsIndex(physical, stashed, uniqueId, StashedFile(NatToString(uniqueId), filename, sha, timestamp, size, 0));
      }
      r := AddToIndex(filename, sha, timestamp, size);
      if r.Ok? {
        DiskAfterBump(before, disk, sha);
        disk := disk + {sha};
      }
    }

    /** `remove`: an unknown id and a locked entry are refused with nothing changed;
        otherwise the entry goes, and the file on disk goes with the last entry for its
        content. */
    method Remove(id: string) returns (r: Outcome<StashError>)
      requires Valid()
      modifies this
      ensures Valid()
      ensures id !in old(stashed) ==> r == Fail(FileDoesNotExist(id))
      ensures id in old(stashed) && !IsDeletable(old(stashed)[id]) ==> r == Fail(FileCannotBeRemoved(id))
      ensures id in old(stashed) && IsDeletable(old(stashed)[id]) ==> r == Pass
      ensures r.Fail? ==>
        && physical == old(physical) && stashed == old(stashed)
        && disk == old(disk) && events == old(events)
      ensures r.Pass? ==>
        var sha := old(stashed)[id].sha1sum;
        && stashed == old(stashed) - {id}
        && physical == old(physical)[sha := old(physical)[sha] - 1]
        && disk == (if old(physical)[sha] == 1 then old(disk) - {sha} else old(disk))
        && events == old(events) + [StashEvent("remove", old(stashed)[id])]
      ensures uniqueId == old(uniqueId)
    {
      var file := Get(id);
      if file.None? {
        return Fail(FileDoesNotExist(id));
      }
      if file.value.refCount != 0 {
        return Fail(FileCannotBeRemoved(id));
      }
      var sha := file.value.sha1sum;
      CountPositive(physical, stashed, uniqueId, id);
      DiskAfterDrop(physical, disk, sha);
      var last := RemoveFromIndex(id);
      if last.Ok? && last.value {
        disk := disk - {sha};
      }
      r := Pass;
    }

    /** `lock`: one more lock on an existing entry. */
    method Lock(id: string) returns (r: Result<StashedFile, StashError>)
      requires Valid()
      modifies this
      ensures Valid()
      ensures r.Err? <==> id !in old(stashed)
      ensures r.Err? ==> r.error == FileDoesNotExist(id) && stashed == old(stashed) && events == old(events)
      ensures r.Ok? ==>
        && r.value == old(stashed)[id].(refCount := old(stashed)[id].refCount + 1)
        && stashed == old(stashed)[id := r.value]
        && events == old(events) + [StashEvent("change", r.value)]
      ensures physical == old(physical) && disk == old(disk) && uniqueId == old(uniqueId)
    {
      var file := Get(id);
      if file.None? {
        return Err(FileDoesNotExist(id));
      }
      var locked := file.value.(refCount := file.value.refCount + 1);
      RelockKeepsIndex(physical, stashed, uniqueId, id, locked);
      stashed := stashed[id := locked];
      events := events + [StashEvent("change", locked)];
      r := Ok(locked);
    }

    /** `unlock`: one lock fewer on the entry.  Nothing checks that the entry was locked;
        an entry no longer in the index is a detached object and the index is unchanged. */
    method Unlock(id: string)
      requires Valid()
      modifies this
      ensures Valid()
      ensures id in old(stashed) ==>
        && stashed == old(stashed)[id := old(stashed)[id].(refCount := old(stashed)[id].refCount - 1)]
        && events == old(events) + [StashEvent("change", stashed[id])]
      ensures id !in old(stashed) ==> stashed == old(stashed) && |events| == |old(events)| + 1
      ensures stashed == Unlocked(old(stashed), id)
      ensures physical == old(physical) && disk == old(disk) && uniqueId == old(uniqueId)
    {
      if id in stashed {
        var unlocked := stashed[id].(refCount := stashed[id].refCount - 1);
        RelockKeepsIndex(physical, stashed, uniqueId, id, unlocked);
        stashed := stashed[id := unlocked];
        events := events + [StashEvent("change", unlocked)];
      } else {
        events := events + [StashEvent("change", StashedFile(id, "", "", 0, 0, -1))];
      }
    }

    /** `remove_all_unlocked_files`: every unlocked entry is removed, every locked one
        stays; each removal is announced once, and the directory keeps exactly the
        contents of the entries left. */
    method RemoveAllUnlockedFiles()
      requires Valid()
      modifies this
      ensures Valid()
      ensures stashed == Locked(old(stashed))
      ensures old(events) <= events
      ensures Removals(old(stashed), events[|old(events)|..])
      ensures EventIds(events[|old(events)|..]) == old(stashed).Keys - stashed.Keys
      ensures disk == Contents(stashed) && disk <= old(disk)
      ensures uniqueId == old(uniqueId)
    {
      var todo := stashed.Keys;
      ghost var before, prior := stashed, events;
      LockedDone(stashed);
      assert events[|prior|..] == [];
      while todo != {}
        invariant Valid() && Sweeping(before, prior, todo)
        invariant uniqueId == old(uniqueId)
        decreases todo
      {
        var id :| id in todo;
        RemoveIfUnlocked(id, before, prior, todo);
        todo := todo - {id};
      }
      LockedDone(before);
      DiskIsContents(physical, stashed, uniqueId, disk);
      DiskIsContents(old(physical), old(stashed), old(uniqueId), old(disk));
    }

    /** Part-way through `remove_all_unlocked_files`, with the ids in `todo` still to
        try: the entries of `before` not yet tried and the locked ones are left, and
        every one removed so far was announced once after `prior`. */
    ghost predicate Sweeping(before: map<string, StashedFile>, prior: seq<StashEvent>, todo: set<string>)
      reads this
    {
      && prior <= events
      && todo <= before.Keys
      && stashed == LockedOrPending(before, todo)
      && Removals(before, events[|prior|..])
      && EventIds(events[|prior|..]) == before.Keys - stashed.Keys
    }

    /** One id of `remove_all_unlocked_files`: `remove`, its refusal of a locked entry
        swallowed. */
    method RemoveIfUnlocked(id: string, ghost before: map<string, StashedFile>, ghost prior: seq<StashEvent>,
                            ghost todo: set<string>)
      requires Valid() && Sweeping(before, prior, todo) && id in todo
      modifies this
      ensures Valid() && Sweeping(before, prior, todo - {id})
      ensures uniqueId == old(uniqueId)
    {
      LockedStep(before, todo, id);
      ghost var news := events[|prior|..];
      assert id !in EventIds(news);
      assert before[id].fileId == id;
      var outcome := Remove(id);
      if outcome.Pass? {
        RemovalStep(before, news, id);
        assert events[|prior|..] == news + [StashEvent("remove", before[id])];
      }
    }

    /** `build_index`, after the saved index and the directory listing have been read:
        entries whose file is missing are dropped, files no remaining entry refers to are
        deleted, and the remaining entries are indexed afresh.  An entry with a malformed
        hash makes indexing raise (Fail); the stash being built is then abandoned. */
    method BuildIndex(index: seq<IndexEntry>, onDisk: set<string>) returns (r: Outcome<StashError>)
      requires Announced(events)
      modifies this
      ensures var kept := Reconciled(index, onDisk);
        && (r.Fail? <==> !HashesWellFormed(kept))
        && (r.Pass? ==>
              && Valid()
              && stashed == Indexed(kept, old(uniqueId))
              && disk == Referenced(kept)
              && uniqueId == old(uniqueId) + |kept|
              && events == old(events) + AddEvents(kept, old(uniqueId)))
    {
      var kept := Reconciled(index, onDisk);
      disk := onDisk * Referenced(kept);
      assert disk == Referenced(kept);
      ghost var u0 := uniqueId;
      r := IndexAll(kept);
      if r.Pass? {
        IndexedOk(kept, u0);
        CountedReferenced(kept);
        assert DiskOk(physical, disk);
      }
    }

    /** The stash after the first `k` kept entries were indexed from counter `u0`,
        with `before` the announcements made until indexing began. */
    ghost predicate Indexing(kept: seq<IndexEntry>, k: nat, u0: nat, before: seq<StashEvent>)
      reads this
    {
      && k <= |kept|
      && uniqueId == u0 + k
      && stashed == Indexed(kept[..k], u0) && physical == Counted(kept[..k])
      && HashesWellFormed(kept[..k])
      && events == before + AddEvents(kept[..k], u0)
    }

    /** The last step of `build_index`: the index is emptied and the kept entries are
        added to it, in order, under ids drawn from the counter. */
    method IndexAll(kept: seq<IndexEntry>) returns (r: Outcome<StashError>)
      modifies this
      ensures r.Fail? <==> !HashesWellFormed(kept)
      ensures r.Pass? ==>
        && stashed == Indexed(kept, old(uniqueId))
        && physical == Counted(kept)
        && uniqueId == old(uniqueId) + |kept|
      ensures disk == old(disk)
      ensures old(events) <= events
      ensures forall i :: |old(events)| <= i < |events| ==> events[i].eventType == "add"
      ensures r.Pass? ==> events == old(events) + AddEvents(kept, old(uniqueId))
    {
      physical := map[];
      stashed := map[];
      ghost var u0 := uniqueId;
      var k := 0;
      while k < |kept|
        invariant Indexing(kept, k, u0, old(events))
        invariant disk == old(disk)
        decreases |kept| - k
      {
        r := IndexNext(kept, k, u0, old(events));
        if r.Fail? {
          AddEventsAdd(kept[..k], u0);
          return;
        }
        k := k + 1;
      }
      assert kept[..k] == kept;
      AddEventsAdd(kept, u0);
      r := Pass;
    }

    /** One turn of indexing: the k-th kept entry is added under the next id, or its
        malformed hash raises and nothing changes. */
    method IndexNext(kept: seq<IndexEntry>, k: nat, ghost u0: nat, ghost before: seq<StashEvent>)
      returns (r: Outcome<StashError>)
      requires k < |kept| && Indexing(kept, k, u0, before)
      modifies this
      ensures r.Fail? <==> |kept[k].sha1sum| != 40
      ensures r.Fail? ==> !HashesWellFormed(kept) && Indexing(kept, k, u0, before)
      ensures r.Pass? ==> Indexing(kept, k + 1, u0, before)
      ensures disk == old(disk)
    {
      var e := kept[k];
      if e.sha1sum in physical {
        CountedHash(kept[..k], e.sha1sum);
      }
      var added := AddToIndex(e.originalFilename, e.sha1sum, e.timestamp, e.size);
      if added.Err? {
        return Fail(added.error);
      }
      PrefixStep(kept, k, u0);
      r := Pass;
    }
  }
}
