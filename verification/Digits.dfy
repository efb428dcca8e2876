/** Decimal numbers as bytes. */
module Digits {
  import opened VtTypes

  /** Decimal digits, most significant first. */
  function Decimal(n: nat): (s: seq<u8>)
    ensures |s| > 0
    ensures forall i :: 0 <= i < |s| ==> 0x30 <= s[i] <= 0x39
  {
    if n < 10 then [0x30 + n] else Decimal(n / 10) + [0x30 + n % 10]
  }

  /** The number a string of decimal digits denotes; 0 for none. */
  function Value(s: seq<u8>): (n: int)
    requires forall i :: 0 <= i < |s| ==> 0x30 <= s[i] <= 0x39
    ensures n >= 0
  {
    if s == [] then 0 else Value(s[..|s| - 1]) * 10 + (s[|s| - 1] - 0x30)
  }

  lemma {:induction false} ValueDecimal(n: nat)
    ensures Value(Decimal(n)) == n
  {
    if n >= 10 {
      ValueDecimal(n / 10);
      assert Decimal(n)[..|Decimal(n)| - 1] == Decimal(n / 10);
    }
  }

  lemma DecimalLength(n: nat)
    requires n < 0x1_0000
    ensures |Decimal(n)| <= 5
  {
    var a := n / 10;
    var b := a / 10;
    var c := b / 10;
    var d := c / 10;
    assert |Decimal(d)| == 1;
    assert |Decimal(c)| <= 2;
    assert |Decimal(b)| <= 3;
    assert |Decimal(a)| <= 4;
  }

  function Reversed(s: seq<u8>): (r: seq<u8>)
    ensures |r| == |s|
  {
    if s == [] then [] else [s[|s| - 1]] + Reversed(s[..|s| - 1])
  }

  lemma ReversedPush(s: seq<u8>, b: u8)
    ensures Reversed(s + [b]) == [b] + Reversed(s)
  {
    assert (s + [b])[..|s|] == s;
  }

  lemma Prepend(a: seq<u8>, b: u8, c: seq<u8>)
    ensures a + [b] + c == a + ([b] + c)
  {
  }

  /** `write_u16`: the digits, least significant first, into a five-byte
      buffer, then out in the opposite order. */
  method WriteU16(n: u16) returns (out: seq<u8>)
    ensures out == Decimal(n)
  {
    var tmp := new u8[5];
    var x: nat, k := n, 0;
    DecimalLength(n);
    while true
      invariant 0 <= k < 5 && k + |Decimal(x)| == |Decimal(n)|
      invariant Decimal(n) == Decimal(x) + Reversed(tmp[..k])
      decreases x
    {
      ghost var low := tmp[..k];
      tmp[k] := 0x30 + x % 10;
      ReversedPush(low, tmp[k]);
      assert tmp[..k + 1] == low + [tmp[k]];
      if x >= 10 {
        Prepend(Decimal(x / 10), tmp[k], Reversed(low));
      }
      k, x := k + 1, x / 10;
      if x == 0 {
        break;
      }
    }
    out := [];
    while k > 0
      invariant 0 <= k <= 5 && out + Reversed(tmp[..k]) == Decimal(n)
    {
      k := k - 1;
      ReversedPush(tmp[..k], tmp[k]);
      assert tmp[..k + 1] == tmp[..k] + [tmp[k]];
      Prepend(out, tmp[k], Reversed(tmp[..k]));
      out := out + [tmp[k]];
    }
  }
}
