/** Little-endian integers: each `Take` undoes its `Put`, whatever follows. */
module Bytes {
  import opened VtTypes

  datatype CodecError =
    | Truncated | BadMagic | BadVersion | HashMismatch | EmptyGrid
    | BadColour | BadSavedGrid | BadSavedCursor | BadCluster | Trailing

  /** A value taken off the front of the input, and what is left of it. */
  datatype Taken<+T> = Took(value: T, rest: seq<u8>) | Failed(error: CodecError) {
    predicate IsFailure() {
      Failed?
    }

    function PropagateFailure<U>(): Taken<U>
      requires Failed?
    {
      Failed(error)
    }

    function Extract(): (T, seq<u8>)
      requires Took?
    {
      (value, rest)
    }
  }

  function Put16(v: u16): (s: seq<u8>)
    ensures |s| == 2
  {
    [v % 0x100, v / 0x100]
  }

  function Put32(v: u32): (s: seq<u8>)
    ensures |s| == 4
  {
    Put16(v % 0x1_0000) + Put16(v / 0x1_0000)
  }

  function Put64(v: u64): (s: seq<u8>)
    ensures |s| == 8
  {
    Put32(v % 0x1_0000_0000) + Put32(v / 0x1_0000_0000)
  }

  function Take8(s: seq<u8>): Taken<u8> {
    if |s| < 1 then Failed(Truncated) else Took(s[0], s[1..])
  }

  function Get16(s: seq<u8>): u16
    requires |s| >= 2
  {
    Wide(s[1]) * 0x100 + s[0]
  }

  function Get32(s: seq<u8>): u32
    requires |s| >= 4
  {
    Wide(Get16(s[2..])) * 0x1_0000 + Get16(s)
  }

  function Get64(s: seq<u8>): u64
    requires |s| >= 8
  {
    Wide(Get32(s[4..])) * 0x1_0000_0000 + Get32(s)
  }

  /** A byte or word as an unbounded integer. */
  function Wide(n: int): int {
    n
  }

  function Take16(s: seq<u8>): Taken<u16> {
    if |s| < 2 then Failed(Truncated) else Took(Get16(s), s[2..])
  }

  function Take32(s: seq<u8>): Taken<u32> {
    if |s| < 4 then Failed(Truncated) else Took(Get32(s), s[4..])
  }

  lemma Get16Put(v: u16, rest: seq<u8>)
    ensures Get16(Put16(v) + rest) == v
  {
  }

  lemma Get32Put(v: u32, rest: seq<u8>)
    ensures Get32(Put32(v) + rest) == v
  {
    var s := Put32(v) + rest;
    assert s == Put16(v % 0x1_0000) + (Put16(v / 0x1_0000) + rest);
    Get16Put(v % 0x1_0000, Put16(v / 0x1_0000) + rest);
    assert s[2..] == Put16(v / 0x1_0000) + rest;
    Get16Put(v / 0x1_0000, rest);
  }

  lemma Get64Put(v: u64, rest: seq<u8>)
    ensures Get64(Put64(v) + rest) == v
  {
    var s := Put64(v) + rest;
    assert s == Put32(v % 0x1_0000_0000) + (Put32(v / 0x1_0000_0000) + rest);
    Get32Put(v % 0x1_0000_0000, Put32(v / 0x1_0000_0000) + rest);
    assert s[4..] == Put32(v / 0x1_0000_0000) + rest;
    Get32Put(v / 0x1_0000_0000, rest);
  }

  lemma Get16Same(s: seq<u8>, t: seq<u8>)
    requires |s| >= 2 && |t| >= 2 && Get16(s) == Get16(t)
    ensures s[0] == t[0] && s[1] == t[1]
  {
  }

  lemma Get32Same(s: seq<u8>, t: seq<u8>)
    requires |s| >= 4 && |t| >= 4 && Get32(s) == Get32(t)
    ensures forall i :: 0 <= i < 4 ==> s[i] == t[i]
  {
    hide Get16;
    assert Get16(s) == Get16(t) && Get16(s[2..]) == Get16(t[2..]);
    Get16Same(s, t);
    Get16Same(s[2..], t[2..]);
    assert s[2..][0] == s[2] && s[2..][1] == s[3] && t[2..][0] == t[2] && t[2..][1] == t[3];
  }

  lemma Get64Same(s: seq<u8>, t: seq<u8>)
    requires |s| >= 8 && |t| >= 8 && Get64(s) == Get64(t)
    ensures forall i :: 0 <= i < 8 ==> s[i] == t[i]
  {
    hide Get32;
    Get32Same(s, t);
    Get32Same(s[4..], t[4..]);
    forall i | 0 <= i < 8 ensures s[i] == t[i] {
      if i >= 4 {
        assert s[4..][i - 4] == t[4..][i - 4];
      }
    }
  }

  lemma Take16Put(v: u16, rest: seq<u8>)
    ensures Take16(Put16(v) + rest) == Took(v, rest)
  {
    Get16Put(v, rest);
  }

  lemma Take32Put(v: u32, rest: seq<u8>)
    ensures Take32(Put32(v) + rest) == Took(v, rest)
  {
    Get32Put(v, rest);
  }

  lemma Assoc(a: seq<u8>, b: seq<u8>, c: seq<u8>)
    ensures a + b + c == a + (b + c)
  {
  }
}
