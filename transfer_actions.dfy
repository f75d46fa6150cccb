/**
 * The transfer actions of the file distribution: the up-to-date test, the SFTP send
 * and the parallel SFTP send, which cuts the file into at most 99 byte ranges and
 * sends each range in blocks of 16384 bytes.  SSH, SFTP and the shell are not
 * modelled: what the remote `sha1sum` prints is a parameter, and a transfer is the
 * sequence of block sizes it writes.  The thread pool runs the chunks one after the
 * other here.
 */
module TransferActions {
  import opened Common
  import opened Text

  const MinChunks: nat := 1
  const MaxChunks: nat := 99
  const BlockSize: nat := 16384

  // ----- Integer division facts -----

  /** Division is determined by quotient and remainder. */
  lemma DivUnique(x: int, n: int, q: int, r: int)
    requires n > 0 && 0 <= r < n && x == q * n + r
    ensures x / n == q
  {
    var d := q - x / n;
    assert x == (x / n) * n + x % n;
    assert d * n == x % n - r;
    MulAwayFromZero(d, n);
  }

  /** A non-zero multiple of `n` is at least `n` away from 0. */
  lemma MulAwayFromZero(d: int, n: int)
    requires n > 0
    ensures d != 0 ==> d * n >= n || d * n <= -n
  {
    if d >= 1 {
      assert d * n == (d - 1) * n + n;
    } else if d <= -1 {
      assert d * n == (d + 1) * n - n;
    }
  }

  /** Multiplying by a positive number keeps strict order. */
  lemma MulCancel(a: int, b: int, n: int)
    requires n > 0
    ensures a * n < b * n ==> a < b
  {
    MulAwayFromZero(a - b, n);
    assert a * n - b * n == (a - b) * n;
  }

  /** `((i+1)*size)//n - (i*size)//n` is `size//n` or one more. */
  lemma StepBounds(i: nat, size: nat, n: nat)
    requires n > 0
    ensures size / n <= ((i + 1) * size) / n - (i * size) / n <= size / n + 1
  {
    var a := i * size;
    var qa, ra := a / n, a % n;
    var qs, rs := size / n, size % n;
    assert a == qa * n + ra;
    assert size == qs * n + rs;
    assert (i + 1) * size == (qa + qs) * n + (ra + rs);
    if ra + rs < n {
      DivUnique((i + 1) * size, n, qa + qs, ra + rs);
    } else {
      assert (i + 1) * size == (qa + qs + 1) * n + (ra + rs - n);
      DivUnique((i + 1) * size, n, qa + qs + 1, ra + rs - n);
    }
  }

  // ----- The chunk plan -----

  /** Python 2's `a / b` on integers, which rounds toward minus infinity. */
  function FloorDiv(a: nat, b: int): (q: int)
    requires b != 0
    ensures b > 0 ==> q == a / b
    ensures b < 0 ==> q <= 0
  {
    if b > 0 then a / b
    else if a % -b == 0 then -(a / -b)
    else -(a / -b) - 1
  }

  /** `max(min_chunks, min(max_chunks, int(size / chunk_size)))`: the quotient clamped
      to [1, 99].  A chunk size of 0 raises, and a negative one gives a quotient of at
      most 0, so one chunk. */
  function NumChunks(size: nat, chunkSize: int): (r: Result<nat, string>)
    ensures r.Err? <==> chunkSize == 0
    ensures r.Ok? ==> MinChunks <= r.value <= MaxChunks
    ensures chunkSize > 0 && MinChunks <= size / chunkSize <= MaxChunks ==> r == Ok(size / chunkSize)
    ensures chunkSize > 0 && size / chunkSize < MinChunks ==> r == Ok(MinChunks)
    ensures chunkSize > 0 && size / chunkSize > MaxChunks ==> r == Ok(MaxChunks)
    ensures chunkSize < 0 ==> r == Ok(MinChunks)
  {
    if chunkSize == 0 then Err("integer division or modulo by zero")
    else
      var q := FloorDiv(size, chunkSize);
      Ok(if q > MaxChunks as int then MaxChunks else if q < MinChunks as int then MinChunks else q as nat)
  }

  /** Where chunk `i` of `n` starts: `(i * size) // n`. */
  function Offset(i: nat, size: nat, n: nat): nat
    requires n > 0
  {
    (i * size) / n
  }

  /** The length of chunk `i`, the next chunk's offset minus this one's: chunks
      differ in length by at most one byte, each being `size // n` bytes long or one
      more, so none is negative. */
  function Length(i: nat, size: nat, n: nat): (r: nat)
    requires n > 0
    ensures size / n <= r <= size / n + 1
    ensures Offset(i, size, n) + r == Offset(i + 1, size, n)
  {
    StepBounds(i, size, n);
    Offset(i + 1, size, n) - Offset(i, size, n)
  }

  /** The first chunk starts at 0 and the last one ends at `size`. */
  lemma OffsetEnds(size: nat, n: nat)
    requires n > 0
    ensures Offset(0, size, n) == 0
    ensures Offset(n, size, n) == size
  {
    DivUnique(n * size, n, size, 0);
  }

  /** When the count is not clamped, no chunk is shorter than the chunk size. */
  lemma ChunksAtLeastChunkSize(i: nat, size: nat, chunkSize: nat)
    requires chunkSize > 0 && MinChunks <= size / chunkSize <= MaxChunks
    ensures Length(i, size, size / chunkSize) >= chunkSize
  {
    var n := size / chunkSize;
    var q := size / n;
    assert n * chunkSize <= size;
    assert size == q * n + size % n;
    assert chunkSize * n < (q + 1) * n;
    MulCancel(chunkSize, q + 1, n);
  }

  datatype Chunk = Chunk(offset: nat, length: nat)

  /** The chunks lie end to end from 0 to `size`. */
  predicate Tiles(chunks: seq<Chunk>, size: nat) {
    && |chunks| > 0
    && chunks[0].offset == 0
    && (forall k :: 0 <= k < |chunks| - 1 ==> chunks[k].offset + chunks[k].length == chunks[k + 1].offset)
    && chunks[|chunks| - 1].offset + chunks[|chunks| - 1].length == size
  }

  function TotalLength(chunks: seq<Chunk>): nat {
    if chunks == [] then 0 else TotalLength(chunks[..|chunks| - 1]) + chunks[|chunks| - 1].length
  }

  /** Chunks lying end to end from the first offset cover exactly their total
      length. */
  lemma {:induction false} TotalOfContiguous(chunks: seq<Chunk>)
    requires |chunks| > 0
    requires forall k :: 0 <= k < |chunks| - 1 ==> chunks[k].offset + chunks[k].length == chunks[k + 1].offset
    ensures chunks[0].offset + TotalLength(chunks) == chunks[|chunks| - 1].offset + chunks[|chunks| - 1].length
  {
    if |chunks| > 1 {
      var init := chunks[..|chunks| - 1];
      TotalOfContiguous(init);
    }
  }

  /** Chunks tiling `[0, size)` have lengths adding up to `size`. */
  lemma TilesTotal(chunks: seq<Chunk>, size: nat)
    requires Tiles(chunks, size)
    ensures TotalLength(chunks) == size
  {
    TotalOfContiguous(chunks);
  }

  /** The loop that hands the chunks to the thread pool: chunk `i` starts at
      `(i*size)//n` and ends where chunk `i+1` starts, so the chunks tile the
      file. */
  method PlanChunks(size: nat, n: nat) returns (chunks: seq<Chunk>)
    requires n > 0
    ensures |chunks| == n
    ensures forall i :: 0 <= i < n ==> chunks[i] == Chunk(Offset(i, size, n), Length(i, size, n))
    ensures Tiles(chunks, size)
  {
    chunks := [];
    var i := 0;
    while i < n
      invariant 0 <= i <= n
      invariant |chunks| == i
      invariant forall k :: 0 <= k < i ==> chunks[k] == Chunk(Offset(k, size, n), Length(k, size, n))
    {
      var offset := Offset(i, size, n);
      var length := Length(i, size, n);
      chunks := chunks + [Chunk(offset, length)];
      i := i + 1;
    }
    OffsetEnds(size, n);
  }

  // ----- Sending one chunk -----

  function Sum(blocks: seq<nat>): nat {
    if blocks == [] then 0 else Sum(blocks[..|blocks| - 1]) + blocks[|blocks| - 1]
  }

  /** What the parallel send keeps in its context: the bytes sent so far, the file
      size, and the up-to-date test's verdict (absent until the test has run). */
  class TransferContext {
    var transmittedSize: nat
    var totalSize: nat
    var fileUpToDateOnTarget: Option<bool>

    constructor()
      ensures transmittedSize == 0 && totalSize == 0 && fileUpToDateOnTarget.None?
    {
      transmittedSize := 0;
      totalSize := 0;
      fileUpToDateOnTarget := None;
    }

    /** `transfer_file_thread`: the chunk goes out in full blocks of 16384 bytes and
        one last shorter block if needed, and each block is added to the bytes
        sent. */
    method TransferChunk(length: nat) returns (blocks: seq<nat>)
      modifies this
      ensures Sum(blocks) == length
      ensures forall k :: 0 <= k < |blocks| ==> 0 < blocks[k] <= BlockSize
      ensures forall k :: 0 <= k < |blocks| - 1 ==> blocks[k] == BlockSize
      ensures transmittedSize == old(transmittedSize) + length
      ensures totalSize == old(totalSize) && fileUpToDateOnTarget == old(fileUpToDateOnTarget)
    {
      blocks := [];
      var bytesTransferred := 0;
      while bytesTransferred < length
        invariant bytesTransferred <= length
        invariant Sum(blocks) == bytesTransferred
        invariant forall k :: 0 <= k < |blocks| ==> 0 < blocks[k] <= BlockSize
        invariant forall k :: 0 <= k < |blocks| - 1 ==> blocks[k] == BlockSize
        invariant |blocks| > 0 && blocks[|blocks| - 1] < BlockSize ==> bytesTransferred == length
        invariant transmittedSize == old(transmittedSize) + bytesTransferred
        invariant totalSize == old(totalSize) && fileUpToDateOnTarget == old(fileUpToDateOnTarget)
        decreases length - bytesTransferred
      {
        var blockSize := BlockSize;
        if blockSize > length - bytesTransferred {
          blockSize := length - bytesTransferred;
        }
        assert (blocks + [blockSize])[..|blocks|] == blocks;
        blocks := blocks + [blockSize];
        bytesTransferred := bytesTransferred + blockSize;
        transmittedSize := transmittedSize + blockSize;
      }
    }

    /** The transfer part of `ParallelSftpSendFileAction.run`: the counters are reset,
        and every chunk of the plan is sent; in the end all `size` bytes have been
        sent. */
    method TransferChunks(size: nat, n: nat)
      requires n > 0
      modifies this
      ensures transmittedSize == size && totalSize == size
      ensures fileUpToDateOnTarget == old(fileUpToDateOnTarget)
    {
      transmittedSize := 0;
      totalSize := size;
      var chunks := PlanChunks(size, n);
      var i := 0;
      while i < |chunks|
        invariant 0 <= i <= |chunks|
        invariant transmittedSize == TotalLength(chunks[..i])
        invariant totalSize == size && fileUpToDateOnTarget == old(fileUpToDateOnTarget)
      {
        assert chunks[..i + 1][..i] == chunks[..i];
        var _ := TransferChunk(chunks[i].length);
        i := i + 1;
      }
      assert chunks[..i] == chunks;
      TilesTotal(chunks, size);
    }

    /** `TestIfFileUpToDateOnTargetAction.run`: the remote file is up to date exactly
        when the first 40 characters the remote `sha1sum` printed are the expected
        hash; a failing command (None) means not up to date. */
    method TestIfFileUpToDate(remoteOutput: Option<string>, sha1sum: string)
      modifies this
      ensures fileUpToDateOnTarget == Some(RemoteHash(remoteOutput) == Some(sha1sum))
      ensures transmittedSize == old(transmittedSize) && totalSize == old(totalSize)
    {
      var targetSha1sum := RemoteHash(remoteOutput);
      fileUpToDateOnTarget := Some(targetSha1sum == Some(sha1sum));
    }

    /** `ParallelSftpSendFileAction.run`: skipped when the up-to-date test found the
        remote file current; otherwise the chunk count is computed (raising for a
        zero chunk size), all chunks are sent, and a remote hash that differs from
        the expected one raises. */
    method ParallelSend(size: nat, chunkSize: int, sha1sum: string, remoteOutputAfter: string)
      returns (r: Outcome<string>)
      modifies this
      ensures Skips(fileUpToDateOnTarget) ==> r.Pass? && transmittedSize == old(transmittedSize)
      ensures !Skips(fileUpToDateOnTarget) && chunkSize == 0 ==> r.Fail? && transmittedSize == old(transmittedSize)
      ensures !Skips(fileUpToDateOnTarget) && chunkSize != 0 ==>
        && transmittedSize == size && totalSize == size
        && (r.Pass? <==> First40(remoteOutputAfter) == sha1sum)
      ensures fileUpToDateOnTarget == old(fileUpToDateOnTarget)
    {
      if Skips(fileUpToDateOnTarget) {
        return Pass;
      }
      var numChunks := NumChunks(size, chunkSize);
      if numChunks.Err? {
        return Fail(numChunks.error);
      }
      TransferChunks(size, numChunks.value);
      if First40(remoteOutputAfter) != sha1sum {
        return Fail("File corrupted during transfer");
      }
      r := Pass;
    }
  }

  /** The send actions run only if the up-to-date test did not find the file
      current (an untested context sends). */
  predicate Skips(fileUpToDateOnTarget: Option<bool>) {
    fileUpToDateOnTarget == Some(true)
  }

  /** `[:40]`. */
  function First40(s: string): (r: string)
    ensures r <= s && |r| <= 40
    ensures |s| <= 40 ==> r == s
  {
    if |s| <= 40 then s else s[..40]
  }

  function RemoteHash(output: Option<string>): Option<string> {
    if output.Some? then Some(First40(output.value)) else None
  }

  /** A 40-character hash is up to date exactly when the remote output starts with
      it. */
  lemma UpToDateMeansPrefix(output: string, sha1sum: string)
    requires |sha1sum| == 40
    ensures RemoteHash(Some(output)) == Some(sha1sum) <==> sha1sum <= output
  {
    if sha1sum <= output {
      assert output[..40] == sha1sum;
      assert First40(output) == sha1sum;
    }
  }

  /** `SftpSendFileAction.run`: skipped when the remote file is current; otherwise the
      file is sent, and a remote hash that differs from the expected one removes
      the remote file and raises. */
  function SftpSend(fileUpToDateOnTarget: Option<bool>, sha1sum: string, remoteOutputAfter: string)
    : (r: (Outcome<string>, bool))
    ensures r.1 <==> !Skips(fileUpToDateOnTarget) && First40(remoteOutputAfter) != sha1sum
    ensures r.0.Fail? <==> r.1
  {
    if Skips(fileUpToDateOnTarget) then (Pass, false)
    else if First40(remoteOutputAfter) != sha1sum then (Fail("File corrupted during transfer"), true)
    else (Pass, false)
  }

  // ----- The SSH host string -----

  /** `user + '@' + host + ':' + port`. */
  function HostString(user: string, host: string, port: string): string {
    user + "@" + host + ":" + port
  }

  /** The host string names its parts: with no `@` in the user name and no `:` in the
      port, it splits back into user, host and port at its first `@` and its last
      `:`. */
  lemma HostStringParts(user: string, host: string, port: string)
    requires '@' !in user && ':' !in port
    ensures SplitOnce(HostString(user, host, port), '@') == Some((user, host + ":" + port))
    ensures var hp := host + ":" + port;
      |hp| - |port| - 1 >= 0 && hp[|hp| - |port| - 1] == ':' && hp[..|hp| - |port| - 1] == host
      && hp[|hp| - |port|..] == port
  {
    assert HostString(user, host, port) == user + ['@'] + (host + ":" + port);
    SplitOnceJoin(user, '@', host + ":" + port);
    var hp := host + ":" + port;
    assert hp == host + [':'] + port;
    assert hp[..|host|] == host;
    assert hp[|host| + 1..] == port;
  }
}
