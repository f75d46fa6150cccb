/**
 * The transfer actions of the first version of the program (actions.py at the
 * repository root): the SFTP send and the parallel SFTP send.  The parallel send
 * splits the file into at most 99 chunk files named `chunk_00`, `chunk_01`, ...,
 * sends them, and merges them on the remote side with the glob `chunk_??`.  The
 * shell, SSH and SFTP are not modelled: what the remote `sha1sum` prints before
 * and after the transfer is a parameter, and sending the chunks is recorded as
 * the list of (local, remote) file names.  Progress messages are what the action
 * context records.
 */
module LegacyActions {
  import opened Common
  import opened Text
  import TransferActions

  // ----- Chunk file names -----

  const ChunkPrefix: string := "chunk_"

  /** `temp_filename_prefix + '%02d' % i`, the name of chunk `i` on the remote side. */
  function RemoteChunkName(i: nat): string {
    ChunkPrefix + Pad2(i)
  }

  /** `os.path.join(work_directory, 'chunk_') + '%02d' % i`, the name `split` gives
      chunk `i` in the work directory. */
  function LocalChunkName(workDirectory: string, i: nat): string {
    PathJoin(workDirectory, ChunkPrefix) + Pad2(i)
  }

  /** The shell glob `chunk_??`: the prefix and exactly two more characters. */
  predicate MatchesChunkGlob(name: string) {
    |name| == |ChunkPrefix| + 2 && name[..|ChunkPrefix|] == ChunkPrefix
  }

  /** Every chunk the plan can have (fewer than 100) has a two-digit suffix, so the
      merge and clean-up glob matches it; from chunk 100 on the suffix is longer and
      the glob would miss the chunk. */
  lemma ChunkNameMatchesGlob(i: nat)
    ensures i < 100 ==> |Pad2(i)| == 2 && IsDigit(Pad2(i)[0]) && IsDigit(Pad2(i)[1])
    ensures MatchesChunkGlob(RemoteChunkName(i)) <==> i < 100
  {
    if i < 100 {
      Pad2Digits(i);
    } else {
      NatToStringLong(i);
    }
    assert RemoteChunkName(i)[..|ChunkPrefix|] == ChunkPrefix;
  }

  /** The shell expands `chunk_??` in byte order, which is chunk order: `cat` puts the
      chunks back together in the order `split` cut them. */
  lemma ChunkNamesInOrder(i: nat, j: nat)
    requires i < j < 100
    ensures StrLess(RemoteChunkName(i), RemoteChunkName(j))
    ensures RemoteChunkName(i) != RemoteChunkName(j)
  {
    Pad2Ordered(i, j);
    StrLessPrefix(ChunkPrefix, Pad2(i), Pad2(j));
    assert RemoteChunkName(i)[|ChunkPrefix|..] == Pad2(i);
    assert RemoteChunkName(j)[|ChunkPrefix|..] == Pad2(j);
  }

  /** The local chunk file lies in the work directory and ends in the remote chunk
      name. */
  lemma LocalChunkNameParts(workDirectory: string, i: nat)
    ensures workDirectory <= LocalChunkName(workDirectory, i)
    ensures var local := LocalChunkName(workDirectory, i);
      |local| >= |RemoteChunkName(i)| && local[|local| - |RemoteChunkName(i)|..] == RemoteChunkName(i)
  {
    var dir := PathJoin(workDirectory, ChunkPrefix);
    PathJoinParts(workDirectory, ChunkPrefix);
    assert dir[|dir| - |ChunkPrefix|..] == ChunkPrefix;
    var local := dir + Pad2(i);
    assert local[|local| - |RemoteChunkName(i)|..] == dir[|dir| - |ChunkPrefix|..] + Pad2(i);
  }

  /** The (local, remote) names of the first `n` chunks, in loop order. */
  function ChunkFiles(workDirectory: string, n: nat): (files: seq<(string, string)>)
    ensures |files| == n
  {
    if n == 0 then [] else ChunkFiles(workDirectory, n - 1) + [ChunkFile(workDirectory, n - 1)]
  }

  /** The (local, remote) names of chunk `i`. */
  function ChunkFile(workDirectory: string, i: nat): (string, string) {
    (LocalChunkName(workDirectory, i), RemoteChunkName(i))
  }

  /** Entry `i` of the list names chunk `i`. */
  lemma {:induction false} ChunkFilesAt(workDirectory: string, n: nat, i: nat)
    requires i < n
    ensures ChunkFiles(workDirectory, n)[i] == (LocalChunkName(workDirectory, i), RemoteChunkName(i))
  {
    var before := ChunkFiles(workDirectory, n - 1);
    assert ChunkFiles(workDirectory, n) == before + [ChunkFile(workDirectory, n - 1)];
    if i < n - 1 {
      assert ChunkFiles(workDirectory, n)[i] == before[i];
      ChunkFilesAt(workDirectory, n - 1, i);
    }
  }

  // ----- Progress percentage -----

  /** `int(100 * completed_chunks / total_chunks)`. */
  function Percent(completed: nat, total: nat): nat
    requires total > 0
  {
    (100 * completed) / total
  }

  lemma DivMonotone(a: nat, b: nat, n: nat)
    requires a <= b && n > 0
    ensures a / n <= b / n
  {
    assert (a / n) * n <= a;
    assert b < (b / n + 1) * n;
    TransferActions.MulCancel(a / n, b / n + 1, n);
  }

  /** The percentage never leaves [0, 100], never goes down as chunks complete, and is
      100 once every chunk has completed. */
  lemma PercentBounds(c: nat, d: nat, total: nat)
    requires c <= d <= total && total > 0
    ensures Percent(c, total) <= Percent(d, total) <= 100
    ensures Percent(total, total) == 100
  {
    DivMonotone(100 * c, 100 * d, total);
    DivMonotone(100 * d, 100 * total, total);
    TransferActions.DivUnique(100 * total, total, 100, 0);
  }

  // ----- The progress messages of a run -----

  /** The progress messages the actions report. */
  datatype Message =
    | Connecting
    | Checking
    | Skipping
    | Transferring
    | Splitting
    | TransferringChunks
    | ChunksDone(percent: nat)
    | Merging
    | RemovingChunks
    | Validating
    | Corrupted
    | Complete

  /** The text of each message. */
  function MessageText(m: Message): string {
    match m
    case Connecting => "Connecting to SSH server"
    case Checking => "Checking if remote file already is up-to-date"
    case Skipping => "Remote file is up-to-date; skipping transfer"
    case Transferring => "Transferring file via SFTP"
    case Splitting => "Splitting original file into chunks"
    case TransferringChunks => "Transferring chunks using SFTP"
    case ChunksDone(p) => "Transferring chunks using SFTP - " + NatToString(p) + "% done"
    case Merging => "Merging chunks to a single file"
    case RemovingChunks => "Removing chunks"
    case Validating => "Validating file integrity"
    case Corrupted => "File corrupted during transfer; removed from target location"
    case Complete => "Transfer complete"
  }

  const CorruptedError: string := "File corrupted during transfer"

  /** The messages of the first `c` completed chunks. */
  function PercentMessages(c: nat, total: nat): (ms: seq<Message>)
    requires total > 0
    ensures |ms| == c
    ensures forall k :: 0 <= k < c ==> ms[k] == ChunksDone(Percent(k + 1, total))
  {
    if c == 0 then [] else PercentMessages(c - 1, total) + [ChunksDone(Percent(c, total))]
  }

  /** The chunk messages count up to 100% and never go down: after all chunks the last
      one reads "... - 100% done". */
  lemma PercentMessagesEnd(total: nat, j: nat, k: nat)
    requires total > 0 && j <= k < total
    ensures PercentMessages(total, total)[j].percent <= PercentMessages(total, total)[k].percent <= 100
    ensures MessageText(PercentMessages(total, total)[total - 1])
      == "Transferring chunks using SFTP - 100% done"
  {
    PercentBounds(j + 1, k + 1, total);
    PercentBounds(total, total, total);
    assert NatToString(100) == "100";
  }

  /** The messages that end a transfer: up-to-date files are skipped, a file whose
      hash matches after the transfer is complete, any other is removed again. */
  function Ending(upToDate: bool, intact: bool, transfer: seq<Message>): seq<Message> {
    if upToDate then [Skipping, Complete]
    else transfer + (if intact then [Complete] else [Corrupted])
  }

  /** The remote hash matches exactly when `sha1sum -b` printed the expected hash
      first; a failed command matches nothing. */
  predicate HashMatches(remoteOutput: Option<string>, sha1sum: string) {
    TransferActions.RemoteHash(remoteOutput) == Some(sha1sum)
  }

  /** The action context: the task's work directory, the progress messages reported
      so far, and the chunk counters the parallel send keeps on it. */
  class ActionContext {
    const workDirectory: Option<string>
    var progress: seq<Message>
    var completedChunks: nat
    var totalChunks: nat

    constructor(workDirectory: Option<string>)
      ensures this.workDirectory == workDirectory
      ensures progress == [] && completedChunks == 0 && totalChunks == 0
    {
      this.workDirectory := workDirectory;
      progress := [];
      completedChunks := 0;
      totalChunks := 0;
    }

    /** `SftpSendFileAction.run`: a remote copy whose hash already matches is kept;
        otherwise the file is sent, and if its hash then differs it is removed from
        the target and the action raises. */
    method SftpSend(sha1sum: string, remoteBefore: Option<string>, remoteAfter: string)
      returns (r: Outcome<string>, removedRemote: bool)
      modifies this
      ensures var upToDate := HashMatches(remoteBefore, sha1sum);
        var intact := TransferActions.First40(remoteAfter) == sha1sum;
        && (r.Fail? <==> !upToDate && !intact)
        && (r.Fail? ==> r.error == CorruptedError)
        && (removedRemote <==> r.Fail?)
        && progress == old(progress) + [Connecting, Checking]
             + Ending(upToDate, intact, [Connecting, Transferring, Validating])
      ensures completedChunks == old(completedChunks) && totalChunks == old(totalChunks)
    {
      var upToDate := TransferActions.RemoteHash(remoteBefore) == Some(sha1sum);
      var said := [Connecting, Checking];
      removedRemote := false;
      r := Pass;
      if upToDate {
        said := said + [Skipping, Complete];
      } else {
        said := said + [Connecting, Transferring, Validating];
        if TransferActions.First40(remoteAfter) != sha1sum {
          said := said + [Corrupted];
          removedRemote := true;
          r := Fail(CorruptedError);
        } else {
          said := said + [Complete];
        }
      }
      progress := progress + said;
    }

    /** The chunk loop of `ParallelSftpSendFileAction.run`, with each chunk's transfer
        run to completion in turn: every chunk is sent under its two names, and each
        completion reports the percentage done. */
    method SendChunks(dir: string, n: nat) returns (sent: seq<(string, string)>)
      requires n > 0
      modifies this
      ensures sent == ChunkFiles(dir, n)
      ensures completedChunks == n && totalChunks == n
      ensures progress == old(progress) + PercentMessages(n, n)
    {
      completedChunks := 0;
      totalChunks := n;
      sent := [];
      var i := 0;
      while i < n
        invariant 0 <= i <= n
        invariant sent == ChunkFiles(dir, i)
        invariant completedChunks == i && totalChunks == n
        invariant progress == old(progress) + PercentMessages(i, n)
      {
        sent := sent + [(LocalChunkName(dir, i), RemoteChunkName(i))];
        completedChunks := completedChunks + 1;
        progress := progress + [ChunksDone(Percent(completedChunks, totalChunks))];
        i := i + 1;
      }
    }

    /** `ParallelSftpSendFileAction.run`: the chunk count comes first (a chunk size of
        0 raises), then the chunk prefix in the work directory (no work directory
        raises).  A remote copy whose hash matches is kept; otherwise all chunks are
        sent, merged, and checked, and a corrupted result is removed and raises. */
    method ParallelSftpSend(size: nat, chunkSize: int, sha1sum: string,
                            remoteBefore: Option<string>, remoteAfter: string)
      returns (r: Outcome<string>, sent: seq<(string, string)>, removedRemote: bool)
      modifies this
      ensures chunkSize == 0 || workDirectory.None? ==>
        && r.Fail? && sent == [] && !removedRemote && progress == old(progress)
        && completedChunks == old(completedChunks) && totalChunks == old(totalChunks)
      ensures chunkSize != 0 && workDirectory.Some? ==>
        var n := TransferActions.NumChunks(size, chunkSize).value;
        var upToDate := HashMatches(remoteBefore, sha1sum);
        var intact := TransferActions.First40(remoteAfter) == sha1sum;
        && (r.Fail? <==> !upToDate && !intact)
        && (r.Fail? ==> r.error == CorruptedError)
        && (removedRemote <==> r.Fail?)
        && (upToDate ==> sent == [] && completedChunks == old(completedChunks) && totalChunks == old(totalChunks))
        && (!upToDate ==> sent == ChunkFiles(workDirectory.value, n) && completedChunks == n && totalChunks == n)
        && (upToDate ==> progress == old(progress) + [Connecting, Checking, Skipping, Complete])
        && (!upToDate ==>
              progress == old(progress) + [Connecting, Checking, Splitting, TransferringChunks]
                + PercentMessages(n, n)
                + [Merging, RemovingChunks, Validating, if intact then Complete else Corrupted])
    {
      sent := [];
      removedRemote := false;
      var numChunks := TransferActions.NumChunks(size, chunkSize);
      if numChunks.Err? {
        return Fail(numChunks.error), sent, removedRemote;
      }
      if workDirectory.None? {
        return Fail("no work directory to split the file into"), sent, removedRemote;
      }
      var n := numChunks.value;
      var dir := workDirectory.value;
      r := Pass;
      if TransferActions.RemoteHash(remoteBefore) == Some(sha1sum) {
        progress := progress + [Connecting, Checking, Skipping, Complete];
        return;
      }
      progress := progress + [Connecting, Checking, Splitting, TransferringChunks];
      sent := SendChunks(dir, n);
      var intact := TransferActions.First40(remoteAfter) == sha1sum;
      progress := progress + [Merging, RemovingChunks, Validating, if intact then Complete else Corrupted];
      if !intact {
        removedRemote := true;
        r := Fail(CorruptedError);
      }
    }
  }

  /** Every run that transfers ends with the merge of exactly the chunks it sent: all
      of them match the merge glob, in chunk order, and each local chunk file lies in
      the work directory. */
  lemma SentChunksMerge(dir: string, n: nat, i: nat, j: nat)
    requires n <= TransferActions.MaxChunks
    requires i < j < n
    ensures MatchesChunkGlob(ChunkFiles(dir, n)[i].1)
    ensures StrLess(ChunkFiles(dir, n)[i].1, ChunkFiles(dir, n)[j].1)
    ensures dir <= ChunkFiles(dir, n)[i].0
  {
    ChunkFilesAt(dir, n, i);
    ChunkFilesAt(dir, n, j);
    ChunkNameMatchesGlob(i);
    ChunkNamesInOrder(i, j);
    LocalChunkNameParts(dir, i);
  }
}
