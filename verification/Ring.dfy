/** Bounded byte history with offsets that are never renumbered. */
module Ring {
  import opened VtTypes

  /** What a ring of `cap` bytes keeps of everything appended to it. */
  function Kept<T>(stream: seq<T>, cap: nat): (s: seq<T>)
    ensures |s| == Min(|stream|, cap)
  {
    stream[SatSub(|stream|, cap)..]
  }

  /** The offset one past the last byte. */
  function End(stream: seq<u8>): u64 {
    Min(|stream|, U64_MAX)
  }

  /** The offset of the oldest byte kept. */
  function Base(stream: seq<u8>, cap: nat): u64 {
    SatSub(End(stream), Min(|stream|, cap))
  }

  /** The bytes from `start` on, when they are all still kept. */
  function Deltas(stream: seq<u8>, cap: nat, start: u64): Option<seq<u8>> {
    if Base(stream, cap) <= start <= End(stream) then Some(Kept(stream, cap)[start - Base(stream, cap)..]) else None
  }

  /** Appending to what is kept is keeping of what was appended. */
  lemma KeptAppend<T>(stream: seq<T>, bytes: seq<T>, cap: nat)
    ensures Kept(Kept(stream, cap) + bytes, cap) == Kept(stream + bytes, cap)
  {
    var all := stream + bytes;
    var x, y := Kept(Kept(stream, cap) + bytes, cap), Kept(all, cap);
    forall i | 0 <= i < |y| ensures x[i] == y[i] {
    }
  }

  /** The deltas after `start` are the last bytes of the stream, as many as the
      offsets say there are. They are the exact suffix from byte `start` if and
      only if the stream is short enough for its offsets not to saturate; and
      then there are any exactly while `start` is still kept. (A capacity fits
      64 bits.) */
  lemma DeltasAreSuffix(stream: seq<u8>, cap: nat, start: u64)
    ensures |stream| <= U64_MAX ==> (Deltas(stream, cap, start).Some? <==> SatSub(|stream|, cap) <= start <= |stream|)
    ensures cap <= U64_MAX && Deltas(stream, cap, start).Some? ==>
              && start <= End(stream) <= |stream|
              && Deltas(stream, cap, start).value == stream[|stream| - (End(stream) - start)..]
              && (Deltas(stream, cap, start).value == stream[start..] <==> |stream| <= U64_MAX)
  {
    if cap <= U64_MAX && Deltas(stream, cap, start).Some? {
      assert |stream[start..]| == |stream| - start;
    }
  }

  class ByteRing {
    const cap: nat
    var data: seq<u8>
    var retainedBase: u64
    var end: u64
    /** Everything ever appended. */
    ghost var stream: seq<u8>

    ghost predicate Valid()
      reads this
    {
      && cap > 0
      && data == Kept(stream, cap)
      && end == End(stream)
      && retainedBase == Base(stream, cap)
    }

    constructor (capacity: nat)
      ensures Valid() && stream == [] && cap == Max(capacity, 1)
    {
      cap := if capacity > 1 then capacity else 1;
      data, retainedBase, end, stream := [], 0, 0, [];
    }

    method Append(bytes: seq<u8>)
      requires Valid()
      modifies this
      ensures Valid() && stream == old(stream) + bytes
    {
      if bytes == [] {
        return;
      }
      KeptAppend(stream, bytes, cap);
      stream := stream + bytes;
      end := if end + |bytes| > U64_MAX then U64_MAX else end + |bytes|;
      if |bytes| >= cap {
        data := bytes[|bytes| - cap..];
        retainedBase := SatSub(end, |data|);
        return;
      }
      var overflow := SatSub(|data| + |bytes|, cap);
      if overflow > 0 {
        data := data[overflow..];
      }
      data := data + bytes;
      retainedBase := SatSub(end, |data|);
    }

    function DeltasAfter(start: u64): (r: Option<seq<u8>>)
      requires Valid()
      reads this
      ensures r == Deltas(stream, cap, start)
    {
      if start < retainedBase then None
      else if start > end then None
      else Some(data[start - retainedBase..])
    }

    function Snapshot(): (s: seq<u8>)
      requires Valid()
      reads this
      ensures s == Kept(stream, cap)
    {
      data
    }
  }
}
