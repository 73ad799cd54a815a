/** The incremental and the validating MAC (libsignal/rust/protocol/src/incremental_mac.rs).

    `mac` maps all bytes fed so far to a digest: a MAC object is the key with the bytes it
    absorbed, and finalizing a clone of it leaves it as it was. */
module IncrementalMac {
  import opened Wrappers
  import opened Bytes
  import opened Arithmetic

  type Mac = Bytes -> Bytes

  const MINIMUM_CHUNK_SIZE := 64 * 1024
  const MAXIMUM_CHUNK_SIZE := 2 * 1024 * 1024
  const TARGET_TOTAL_DIGEST_SIZE := 8 * 1024

  // ------------------------------------------------------------- chunk size

  /** `calculate_chunk_size`, which asserts that the digest size divides the target. */
  function CalculateChunkSize(digestSize: nat, dataSize: nat): nat
    requires digestSize > 0 && TARGET_TOTAL_DIGEST_SIZE % digestSize == 0
  {
    TargetCount(digestSize);
    var target := TARGET_TOTAL_DIGEST_SIZE / digestSize;
    if dataSize < target * MINIMUM_CHUNK_SIZE then MINIMUM_CHUNK_SIZE
    else if dataSize < target * MAXIMUM_CHUNK_SIZE then DivCeil(dataSize, target)
    else MAXIMUM_CHUNK_SIZE
  }

  lemma TargetCount(digestSize: nat)
    requires digestSize > 0 && TARGET_TOTAL_DIGEST_SIZE % digestSize == 0
    ensures TARGET_TOTAL_DIGEST_SIZE / digestSize > 0
    ensures TARGET_TOTAL_DIGEST_SIZE / digestSize * digestSize == TARGET_TOTAL_DIGEST_SIZE
  {
    var target := TARGET_TOTAL_DIGEST_SIZE / digestSize;
    assert TARGET_TOTAL_DIGEST_SIZE == target * digestSize + TARGET_TOTAL_DIGEST_SIZE % digestSize;
  }

  /** The chunk size stays within its bounds and does not shrink as the data grows. */
  lemma ChunkSizeIsBounded(digestSize: nat, dataSize: nat, more: nat)
    requires digestSize > 0 && TARGET_TOTAL_DIGEST_SIZE % digestSize == 0 && dataSize <= more
    ensures 65_536 <= CalculateChunkSize(digestSize, dataSize)
            <= CalculateChunkSize(digestSize, more) <= 2_097_152
  {
    hide DivCeil;
    TargetCount(digestSize);
    var target := TARGET_TOTAL_DIGEST_SIZE / digestSize;
    ChunkSizeBetween(target, dataSize);
    ChunkSizeBetween(target, more);
    DivCeilReaches(dataSize, target, DivCeil(more, target));
    DivCeilReaches(more, target, DivCeil(more, target));
  }

  lemma ChunkSizeBetween(target: nat, dataSize: nat)
    requires target > 0
    ensures target * MINIMUM_CHUNK_SIZE <= dataSize ==> MINIMUM_CHUNK_SIZE <= DivCeil(dataSize, target)
    ensures dataSize < target * MAXIMUM_CHUNK_SIZE ==> DivCeil(dataSize, target) <= MAXIMUM_CHUNK_SIZE
  {
    hide DivCeil;
    DivCeilReaches(dataSize, target, MINIMUM_CHUNK_SIZE - 1);
    DivCeilReaches(dataSize, target, MAXIMUM_CHUNK_SIZE);
  }

  /** Up to the target number of chunks of the greatest size, one digest for each chunk fits the target. */
  lemma ChunkDigestsFit(digestSize: nat, dataSize: nat)
    requires digestSize > 0 && TARGET_TOTAL_DIGEST_SIZE % digestSize == 0
    ensures CalculateChunkSize(digestSize, dataSize) > 0
    ensures dataSize <= TARGET_TOTAL_DIGEST_SIZE / digestSize * MAXIMUM_CHUNK_SIZE <==>
      DivCeil(dataSize, CalculateChunkSize(digestSize, dataSize)) * digestSize <= TARGET_TOTAL_DIGEST_SIZE
  {
    hide DivCeil;
    TargetCount(digestSize);
    ChunkSizeIsBounded(digestSize, dataSize, dataSize);
    var (target, size) := (TARGET_TOTAL_DIGEST_SIZE / digestSize, CalculateChunkSize(digestSize, dataSize));
    DivCeilReaches(dataSize, size, target);
    DivCeilReaches(dataSize, target, DivCeil(dataSize, target));
    FitsIff(DivCeil(dataSize, size), target, digestSize);
  }

  lemma FitsIff(count: nat, target: nat, digestSize: nat)
    requires digestSize > 0
    ensures count <= target <==> count * digestSize <= target * digestSize
  {
    if count <= target {
      MultiplesGrow(count, target, digestSize);
    } else {
      MultiplesGrow(target + 1, count, digestSize);
    }
  }

  /** The list of MACs ends with one more for the whole, and so exceeds the target for more data: it
      fits exactly when the data is shorter than the target count of the smallest chunks, or shorter
      than that of the greatest and no multiple of the count. */
  lemma ListFitsIff(digestSize: nat, dataSize: nat)
    requires digestSize > 0 && TARGET_TOTAL_DIGEST_SIZE % digestSize == 0
    ensures CalculateChunkSize(digestSize, dataSize) > 0 && TARGET_TOTAL_DIGEST_SIZE / digestSize > 0
    ensures var count := TARGET_TOTAL_DIGEST_SIZE / digestSize;
      (dataSize / CalculateChunkSize(digestSize, dataSize) + 1) * digestSize <= 8_192
      <==> dataSize < count * 65_536 || (dataSize < count * 2_097_152 && dataSize % count != 0)
  {
    hide DivCeil;
    TargetCount(digestSize);
    ChunkSizeIsBounded(digestSize, dataSize, dataSize);
    var (count, size) := (TARGET_TOTAL_DIGEST_SIZE / digestSize, CalculateChunkSize(digestSize, dataSize));
    DivisionReaches(dataSize, size, count);
    FitsIff(dataSize / size + 1, count, digestSize);
    DivCeilExact(dataSize, count);
  }

  // ------------------------------------------------------------- the incremental MAC

  /** The first `k` chunks. */
  function Aligned(data: Bytes, size: nat, k: nat): (r: Bytes)
    requires size > 0 && k <= Whole(|data|, size)
    ensures |r| == k * size
  {
    WholeFits(|data|, size, k);
    data[..k * size]
  }

  /** The MACs of the chunk-aligned prefixes of `data`: of those longer than `lo` and up to `hi` chunks. */
  function PrefixMacs(mac: Mac, size: nat, data: Bytes, lo: nat, hi: nat): (r: seq<Bytes>)
    requires size > 0 && lo <= hi <= Whole(|data|, size)
    ensures |r| == hi - lo
    decreases hi
  {
    if lo == hi then [] else PrefixMacs(mac, size, data, lo, hi - 1) + [mac(Aligned(data, size, hi))]
  }

  /** What an update emits when `before` was absorbed. */
  function Emitted(mac: Mac, size: nat, before: Bytes, bytes: Bytes): seq<Bytes>
    requires size > 0
  {
    WholeGrows(|before|, |before + bytes|, size);
    PrefixMacs(mac, size, before + bytes, Whole(|before|, size), Whole(|before + bytes|, size))
  }

  class Incremental {
    const mac: Mac
    const chunkSize: nat
    var absorbed: Bytes
    var unusedLength: nat

    ghost predicate Valid()
      reads this
    {
      chunkSize > 0 && unusedLength == Missing(|absorbed|, chunkSize)
    }

    constructor (mac: Mac, chunkSize: nat)
      requires chunkSize > 0
      ensures Valid() && this.mac == mac && this.chunkSize == chunkSize && absorbed == []
    {
      this.mac, this.chunkSize, this.absorbed, this.unusedLength := mac, chunkSize, [], chunkSize;
    }

    /** The source asserts what is required here; every call below meets it. */
    method UpdateChunk(bytes: Bytes) returns (r: Option<Bytes>)
      requires Valid() && |bytes| <= unusedLength
      modifies this
      ensures Valid() && absorbed == old(absorbed) + bytes
      ensures r == if |bytes| == old(unusedLength) then Some(mac(absorbed)) else None
      ensures unusedLength == if |bytes| == old(unusedLength) then chunkSize else old(unusedLength) - |bytes|
    {
      hide Missing, Whole;
      WholeStep(|absorbed|, chunkSize, |bytes|);
      absorbed := absorbed + bytes;
      unusedLength := unusedLength - |bytes|;
      if unusedLength == 0 {
        unusedLength := chunkSize;
        return Some(mac(absorbed));
      } else {
        return None;
      }
    }

    /** The first piece fills the chunk under way; the overflow goes in whole chunks. */
    method Update(bytes: Bytes) returns (macs: seq<Bytes>)
      requires Valid()
      modifies this
      ensures Valid() && absorbed == old(absorbed) + bytes
      ensures macs == Emitted(mac, chunkSize, old(absorbed), bytes)
    {
      hide Emitted, Missing;
      var splitPoint := if |bytes| < unusedLength then |bytes| else unusedLength;
      var rest := bytes[splitPoint..];
      ghost var (before, done) := (absorbed, bytes[..splitPoint]);
      assert before + [] == before && [] + done == done;
      EmittedStep(mac, chunkSize, before, [], done);
      EmittedNothing(mac, chunkSize, before);
      var first := UpdateChunk(bytes[..splitPoint]);
      macs := if first.Some? then [first.value] else [];
      while rest != []
        invariant Valid() && absorbed == before + done && bytes == done + rest
        invariant macs == Emitted(mac, chunkSize, before, done)
        invariant rest != [] ==> unusedLength == chunkSize
        decreases |rest|
      {
        var n := if |rest| < chunkSize then |rest| else chunkSize;
        EmittedStep(mac, chunkSize, before, done, rest[..n]);
        var emitted := UpdateChunk(rest[..n]);
        macs := macs + (if emitted.Some? then [emitted.value] else []);
        done, rest := done + rest[..n], rest[n..];
      }
      assert bytes == done;
    }

    method Finalize() returns (r: Bytes)
      ensures r == mac(absorbed)
    {
      return mac(absorbed);
    }

    function PendingBytesSize(): (r: int)
      requires Valid()
      reads this
      ensures r == |absorbed| % chunkSize
    {
      chunkSize - unusedLength
    }
  }

  lemma EmittedNothing(mac: Mac, size: nat, before: Bytes)
    requires size > 0
    ensures Emitted(mac, size, before, []) == []
  {
    assert before + [] == before;
  }

  /** One more piece, no longer than what the chunk under way lacks, emits one MAC when it completes it. */
  lemma EmittedStep(mac: Mac, size: nat, before: Bytes, done: Bytes, piece: Bytes)
    requires size > 0 && |piece| <= Missing(|before + done|, size)
    ensures Emitted(mac, size, before, done + piece) == Emitted(mac, size, before, done)
      + (if |piece| == Missing(|before + done|, size) then [mac(before + done + piece)] else [])
  {
    hide Missing, Whole, Aligned;
    var now := before + done;
    assert before + (done + piece) == now + piece;
    WholeStep(|now|, size, |piece|);
    WholeGrows(|before|, |now|, size);
    PrefixMacsOfLonger(mac, size, now, piece, Whole(|before|, size), Whole(|now|, size));
    if |piece| == Missing(|now|, size) {
      AllAligned(now + piece, size);
    }
  }

  lemma AllAligned(data: Bytes, size: nat)
    requires size > 0 && Whole(|data|, size) * size == |data|
    ensures Aligned(data, size, Whole(|data|, size)) == data
  {
  }

  lemma AlignedOfLonger(data: Bytes, more: Bytes, size: nat, k: nat)
    requires size > 0 && k <= Whole(|data|, size)
    ensures k <= Whole(|data + more|, size) && Aligned(data + more, size, k) == Aligned(data, size, k)
  {
    WholeGrows(|data|, |data + more|, size);
    WholeFits(|data|, size, k);
    assert (data + more)[..k * size] == data[..k * size];
  }

  /** Prefixes of the data are prefixes of longer data. */
  lemma {:induction false} PrefixMacsOfLonger(mac: Mac, size: nat, data: Bytes, more: Bytes, lo: nat, hi: nat)
    requires size > 0 && lo <= hi <= Whole(|data|, size)
    ensures hi <= Whole(|data + more|, size)
            && PrefixMacs(mac, size, data + more, lo, hi) == PrefixMacs(mac, size, data, lo, hi)
    decreases hi
  {
    hide Whole, Aligned;
    WholeGrows(|data|, |data + more|, size);
    if lo < hi {
      PrefixMacsOfLonger(mac, size, data, more, lo, hi - 1);
      AlignedOfLonger(data, more, size, hi);
    }
  }

  lemma {:induction false} PrefixMacsCompose(mac: Mac, size: nat, data: Bytes, lo: nat, mid: nat, hi: nat)
    requires size > 0 && lo <= mid <= hi <= Whole(|data|, size)
    ensures PrefixMacs(mac, size, data, lo, hi) ==
              PrefixMacs(mac, size, data, lo, mid) + PrefixMacs(mac, size, data, mid, hi)
    decreases hi
  {
    hide Aligned, Whole;
    if mid < hi {
      PrefixMacsCompose(mac, size, data, lo, mid, hi - 1);
    }
  }

  lemma {:induction false} PrefixMacAt(mac: Mac, size: nat, data: Bytes, hi: nat, k: nat)
    requires size > 0 && k < hi <= Whole(|data|, size)
    ensures PrefixMacs(mac, size, data, 0, hi)[k] == mac(Aligned(data, size, k + 1))
    decreases hi
  {
    if k < hi - 1 {
      PrefixMacAt(mac, size, data, hi - 1, k);
    }
  }

  /** All MACs of a chunk-aligned prefix of the data. */
  function ChunkMacs(mac: Mac, size: nat, data: Bytes): seq<Bytes>
    requires size > 0
  {
    PrefixMacs(mac, size, data, 0, Whole(|data|, size))
  }

  lemma ChunkMacsGrow(mac: Mac, size: nat, data: Bytes, more: Bytes)
    requires size > 0
    ensures ChunkMacs(mac, size, data + more) == ChunkMacs(mac, size, data) + Emitted(mac, size, data, more)
  {
    hide Aligned, Whole;
    WholeGrows(|data|, |data + more|, size);
    PrefixMacsOfLonger(mac, size, data, more, 0, Whole(|data|, size));
    PrefixMacsCompose(mac, size, data + more, 0, Whole(|data|, size), Whole(|data + more|, size));
  }

  /** What a new incremental MAC emits over a series of updates. */
  function Fed(mac: Mac, size: nat, pieces: seq<Bytes>): seq<Bytes>
    requires size > 0
  {
    if pieces == [] then []
    else
      var before := pieces[..|pieces| - 1];
      Fed(mac, size, before) + Emitted(mac, size, Joined(before), pieces[|pieces| - 1])
  }

  /** For any division of the input into updates, empty ones included, the MACs emitted are those of the
      prefixes at each multiple of the chunk size, in order. */
  lemma {:induction false} SplitDoesNotMatter(mac: Mac, size: nat, pieces: seq<Bytes>)
    requires size > 0
    ensures Fed(mac, size, pieces) == ChunkMacs(mac, size, Joined(pieces))
  {
    hide Emitted, Aligned, Whole;
    if pieces == [] {
      WholeFits(0, size, 1);
    } else {
      var before := pieces[..|pieces| - 1];
      SplitDoesNotMatter(mac, size, before);
      ChunkMacsGrow(mac, size, Joined(before), pieces[|pieces| - 1]);
    }
  }

  // ------------------------------------------------------------- the validating MAC

  function Reversed(s: seq<Bytes>): (r: seq<Bytes>)
    ensures |r| == |s|
  {
    if s == [] then [] else Reversed(s[1..]) + [s[0]]
  }

  /** Compare MACs with the stack of expected ones, popping those that match: what is left on the stack,
      how many matched, and whether all did. */
  function Compared(expected: seq<Bytes>, macs: seq<Bytes>): (seq<Bytes>, nat, bool)
    decreases |macs|
  {
    if macs == [] then (expected, 0, true)
    else if expected != [] && expected[|expected| - 1] == macs[0] then
      var (rest, whole, ok) := Compared(expected[..|expected| - 1], macs[1..]);
      (rest, whole + 1, ok)
    else
      var (rest, whole, _) := Compared(expected, macs[1..]);
      (rest, whole, false)
  }

  class Validating {
    const incremental: Incremental
    var expected: seq<Bytes>

    constructor (incremental: Incremental, macs: seq<Bytes>)
      ensures this.incremental == incremental && expected == Reversed(macs)
    {
      this.incremental, this.expected := incremental, Reversed(macs);
    }

    /** A mismatch does not stop the update: all MACs are compared, and the error is returned at the end. */
    method Update(bytes: Bytes) returns (r: Result<nat>)
      requires incremental.Valid()
      modifies this, incremental
      ensures incremental.Valid() && incremental.absorbed == old(incremental.absorbed) + bytes
      ensures var (rest, whole, ok) := Compared(old(expected),
                                                Emitted(incremental.mac, incremental.chunkSize,
                                                        old(incremental.absorbed), bytes));
        expected == rest && r == if ok then Ok(whole * incremental.chunkSize) else Err(MacError)
    {
      hide Emitted;
      var macs := incremental.Update(bytes);
      var (wholeChunks, ok) := (0, true);
      ghost var all := Compared(expected, macs);
      for i := 0 to |macs|
        invariant incremental.Valid() && incremental.absorbed == old(incremental.absorbed) + bytes
        invariant var (rest, whole, good) := Compared(expected, macs[i..]);
          all == (rest, wholeChunks + whole, ok && good)
      {
        assert macs[i..][0] == macs[i] && macs[i..][1..] == macs[i + 1..];
        if expected != [] && expected[|expected| - 1] == macs[i] {
          wholeChunks := wholeChunks + 1;
          expected := expected[..|expected| - 1];
        } else {
          ok := false;
        }
      }
      assert macs[|macs|..] == [];
      return if ok then Ok(wholeChunks * incremental.chunkSize) else Err(MacError);
    }

    method Finalize() returns (r: Result<nat>)
      requires incremental.Valid()
      ensures r == if expected == [incremental.mac(incremental.absorbed)]
                   then Ok(|incremental.absorbed| % incremental.chunkSize) else Err(MacError)
    {
      var pendingBytesSize := incremental.PendingBytesSize();
      var mac := incremental.Finalize();
      if |expected| == 1 && expected[0] == mac {
        return Ok(pendingBytesSize);
      }
      return Err(MacError);
    }
  }

  datatype Validation = Validation(absorbed: Bytes, expected: seq<Bytes>, reported: nat)

  /** Updates one after another, as long as none fails. */
  function Updated(mac: Mac, size: nat, macs: seq<Bytes>, pieces: seq<Bytes>): Option<Validation>
    requires size > 0
  {
    if pieces == [] then Some(Validation([], Reversed(macs), 0))
    else
      match Updated(mac, size, macs, pieces[..|pieces| - 1])
      case None => None
      case Some(v) =>
        var (rest, whole, ok) := Compared(v.expected, Emitted(mac, size, v.absorbed, pieces[|pieces| - 1]));
        if ok then Some(Validation(v.absorbed + pieces[|pieces| - 1], rest, v.reported + whole * size)) else None
  }

  /** Updates and finalize, as long as none fails: the sum of the counts they return. */
  function Validated(mac: Mac, size: nat, macs: seq<Bytes>, pieces: seq<Bytes>): Option<nat>
    requires size > 0
  {
    match Updated(mac, size, macs, pieces)
    case None => None
    case Some(v) => if v.expected == [mac(v.absorbed)] then Some(v.reported + |v.absorbed| % size) else None
  }

  /** The list of MACs an incremental MAC produces from data: one per chunk, and the final one. */
  function MacList(mac: Mac, size: nat, data: Bytes): seq<Bytes>
    requires size > 0
  {
    ChunkMacs(mac, size, data) + [mac(data)]
  }

  /** Comparing with a reversed list succeeds exactly when the MACs are its beginning. */
  lemma {:induction false} ComparedIff(macs: seq<Bytes>, emitted: seq<Bytes>)
    ensures var (rest, whole, ok) := Compared(Reversed(macs), emitted);
      (ok <==> emitted <= macs) && (ok ==> rest == Reversed(macs[|emitted|..]) && whole == |emitted|)
    decreases |emitted|
  {
    if emitted == [] {
      assert macs[0..] == macs;
    } else if macs != [] && macs[0] == emitted[0] {
      ComparedIff(macs[1..], emitted[1..]);
      assert emitted <= macs <==> emitted[1..] <= macs[1..] by {
        if emitted[1..] <= macs[1..] {
          assert emitted == [emitted[0]] + emitted[1..] && macs == [macs[0]] + macs[1..];
        }
      }
      if emitted <= macs {
        assert macs[1..][|emitted| - 1..] == macs[|emitted|..];
      }
    }
  }

  lemma PrefixSplits(chunks: seq<Bytes>, emitted: seq<Bytes>, macs: seq<Bytes>)
    requires chunks <= macs
    ensures chunks + emitted <= macs <==> emitted <= macs[|chunks|..]
    ensures chunks + emitted <= macs ==> macs[|chunks|..][|emitted|..] == macs[|chunks + emitted|..]
  {
    assert macs == chunks + macs[|chunks|..];
    if chunks + emitted <= macs {
      assert macs[|chunks|..][..|emitted|] == emitted;
    }
  }

  /** One more piece: it succeeds exactly when the MACs it emits come next in the list. */
  lemma UpdateSucceedsIff(mac: Mac, size: nat, macs: seq<Bytes>, pieces: seq<Bytes>, chunks: seq<Bytes>,
                          emitted: seq<Bytes>)
    requires size > 0 && pieces != []
    requires var before := pieces[..|pieces| - 1];
      emitted == Emitted(mac, size, Joined(before), pieces[|pieces| - 1])
      && |chunks| == Whole(|Joined(before)|, size) && |chunks| + |emitted| == Whole(|Joined(pieces)|, size)
      && if chunks <= macs
         then Updated(mac, size, macs, before) ==
               Some(Validation(Joined(before), Reversed(macs[|chunks|..]), |chunks| * size))
         else Updated(mac, size, macs, before).None?
    ensures var r := Updated(mac, size, macs, pieces);
      (r.Some? <==> chunks + emitted <= macs)
      && (r.Some? ==> r.value == Validation(Joined(pieces), Reversed(macs[|chunks + emitted|..]),
                                            (|chunks| + |emitted|) * size))
  {
    hide Emitted, Whole, Compared, Reversed, ChunkMacs;
    if chunks <= macs {
      PrefixSplits(chunks, emitted, macs);
      ComparedIff(macs[|chunks|..], emitted);
      Distribute(|chunks|, |emitted|, size);
    }
  }

  /** All updates succeed exactly when the chunk MACs of the data fed are the beginning of the list. */
  lemma {:induction false} UpdatesSucceedIff(mac: Mac, size: nat, macs: seq<Bytes>, pieces: seq<Bytes>)
    requires size > 0
    ensures var (r, chunks) := (Updated(mac, size, macs, pieces), ChunkMacs(mac, size, Joined(pieces)));
      (r.Some? <==> chunks <= macs)
      && (r.Some? ==> r.value == Validation(Joined(pieces), Reversed(macs[|chunks|..]),
                                            Whole(|Joined(pieces)|, size) * size))
  {
    hide Emitted, Aligned, Whole, Compared, Reversed;
    if pieces == [] {
      WholeFits(0, size, 1);
      assert ChunkMacs(mac, size, []) == [] && macs[0..] == macs;
    } else {
      hide Updated;
      var (before, last) := (pieces[..|pieces| - 1], pieces[|pieces| - 1]);
      UpdatesSucceedIff(mac, size, macs, before);
      ChunkMacsGrow(mac, size, Joined(before), last);
      ChunkCount(mac, size, Joined(before));
      ChunkCount(mac, size, Joined(pieces));
      hide ChunkMacs;
      UpdateSucceedsIff(mac, size, macs, pieces, ChunkMacs(mac, size, Joined(before)),
                        Emitted(mac, size, Joined(before), last));
    }
  }

  lemma ChunkCount(mac: Mac, size: nat, d: Bytes)
    requires size > 0
    ensures |ChunkMacs(mac, size, d)| == Whole(|d|, size)
  {
  }

  lemma Distribute(a: nat, b: nat, k: nat)
    ensures a * k + b * k == (a + b) * k
  {
  }

  /** The MAC does not collide on prefixes of the two data. */
  ghost predicate TellsApart(mac: Mac, x: Bytes, d: Bytes) {
    forall i, j :: 0 <= i <= |x| && 0 <= j <= |d| && mac(x[..i]) == mac(d[..j]) ==> x[..i] == d[..j]
  }

  /** While no update has failed, the bytes reported valid are the beginning of the original data. */
  lemma ReportedIsPrefix(mac: Mac, size: nat, d: Bytes, pieces: seq<Bytes>)
    requires size > 0 && TellsApart(mac, Joined(pieces), d)
    requires Updated(mac, size, MacList(mac, size, d), pieces).Some?
    ensures var n := Updated(mac, size, MacList(mac, size, d), pieces).value.reported;
      n <= |d| && n <= |Joined(pieces)| && Joined(pieces)[..n] == d[..n]
  {
    hide Updated, PrefixMacs, Whole, Aligned;
    var (x, macs) := (Joined(pieces), MacList(mac, size, d));
    UpdatesSucceedIff(mac, size, macs, pieces);
    var k := Whole(|x|, size);
    AlignedIs(x, size, k);
    if k > 0 {
      PrefixMacAt(mac, size, x, k, k - 1);
      assert ChunkMacs(mac, size, x)[k - 1] == macs[k - 1];
      if k <= Whole(|d|, size) {
        PrefixMacAt(mac, size, d, Whole(|d|, size), k - 1);
        AlignedIs(d, size, k);
        Untangle(mac, x, d, k * size, k * size);
      } else {
        Untangle(mac, x, d, k * size, |d|);
        WholeFits(|d|, size, k);
      }
    } else {
      assert k * size == 0;
    }
  }

  lemma AlignedIs(data: Bytes, size: nat, k: nat)
    requires size > 0 && k <= Whole(|data|, size)
    ensures k * size <= |data| && Aligned(data, size, k) == data[..k * size]
  {
    WholeFits(|data|, size, k);
  }

  lemma Untangle(mac: Mac, x: Bytes, d: Bytes, i: nat, j: nat)
    requires TellsApart(mac, x, d) && i <= |x| && j <= |d|
             && (mac(x[..i]) == mac(d[..j]) || (j == |d| && mac(x[..i]) == mac(d)))
    ensures x[..i] == d[..j] && i == j
  {
    assert d[..|d|] == d;
    assert |x[..i]| == i && |d[..j]| == j;
  }

  /** The validator is exact: with the list made from some data, any data in any division passes all
      updates and finalize if and only if it is that data; the counts returned then sum to its
      length. */
  lemma ValidatorIsExact(mac: Mac, size: nat, d: Bytes, pieces: seq<Bytes>)
    requires size > 0 && TellsApart(mac, Joined(pieces), d)
    ensures Validated(mac, size, MacList(mac, size, d), pieces).Some? <==> Joined(pieces) == d
    ensures Joined(pieces) == d ==> Validated(mac, size, MacList(mac, size, d), pieces) == Some(|d|)
  {
    hide Updated, PrefixMacs;
    var (x, macs) := (Joined(pieces), MacList(mac, size, d));
    UpdatesSucceedIff(mac, size, macs, pieces);
    DivisionIs(|x|, size);
    if ChunkMacs(mac, size, x) <= macs {
      LastDecides(macs, |ChunkMacs(mac, size, x)|, mac(x));
      if mac(x) == mac(d) {
        assert x[..|x|] == x && d[..|d|] == d;
      }
    }
  }

  /** What is left on the stack after `k` matches is one given MAC exactly when that is the last. */
  lemma LastDecides(macs: seq<Bytes>, k: nat, last: Bytes)
    requires k <= |macs| && macs != []
    ensures Reversed(macs[k..]) == [last] <==> k == |macs| - 1 && macs[k] == last
  {
    if k == |macs| - 1 {
      assert macs[k..] == [macs[k]];
      assert Reversed([macs[k]]) == [macs[k]];
    }
  }
}
