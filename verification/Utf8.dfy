/** UTF-8, the syntax of section 4 of RFC 3629, for one scalar value. */
module Utf8 {
  import opened VtTypes

  /** The sequence length a lead byte announces; 0 when it cannot lead a
      multi-byte sequence. */
  function LeadLength(b: u8): u8 {
    if 0xc2 <= b <= 0xdf then 2 else if 0xe0 <= b <= 0xef then 3 else if 0xf0 <= b <= 0xf4 then 4 else 0
  }

  predicate IsTailByte(b: u8) {
    0x80 <= b <= 0xbf
  }

  /** The payload bits of a byte above its marker bits. */
  function Bits(b: u8, marker: int): int {
    b - marker
  }

  /** A proper prefix of a sequence of `needed` bytes, as collected so far. */
  predicate PendingUtf8(s: seq<u8>, needed: u8) {
    && |s| >= 1
    && LeadLength(s[0]) == needed
    && forall i :: 1 <= i < |s| ==> IsTailByte(s[i])
  }

  /** `std::str::from_utf8` on one collected sequence: lead byte, then
      continuation bytes. Overlong forms, surrogates and values beyond
      U+10FFFF are rejected. */
  function Decode(s: seq<u8>): Option<u32>
    requires 2 <= |s| <= 4 && PendingUtf8(s, |s|)
  {
    if |s| == 2 then Some(Bits(s[0], 0xc0) * 0x40 + Bits(s[1], 0x80))
    else if |s| == 3 then
      var c: int := Bits(s[0], 0xe0) * 0x1000 + Bits(s[1], 0x80) * 0x40 + Bits(s[2], 0x80);
      if c >= 0x800 && IsScalar(c) then Some(c) else None
    else
      var c: int := Bits(s[0], 0xf0) * 0x4_0000 + Bits(s[1], 0x80) * 0x1000 + Bits(s[2], 0x80) * 0x40 + Bits(s[3], 0x80);
      if 0x1_0000 <= c <= 0x10_FFFF then Some(c) else None
  }

  /** `char::encode_utf8`. */
  function Encode(c: u32): (s: seq<u8>)
    requires IsScalar(c)
  {
    if c < 0x80 then [c]
    else if c < 0x800 then [0xc0 + c / 0x40, 0x80 + c % 0x40]
    else if c < 0x1_0000 then [0xe0 + c / 0x1000, 0x80 + c / 0x40 % 0x40, 0x80 + c % 0x40]
    else [0xf0 + c / 0x4_0000, 0x80 + c / 0x1000 % 0x40, 0x80 + c / 0x40 % 0x40, 0x80 + c % 0x40]
  }

  /** The byte sequences section 4 of RFC 3629 calls UTF8-2, UTF8-3 and UTF8-4. */
  predicate Rfc3629(s: seq<u8>) {
    || (|s| == 2 && 0xc2 <= s[0] <= 0xdf && IsTailByte(s[1]))
    || (|s| == 3 && IsTailByte(s[2]) &&
        ( || (s[0] == 0xe0 && 0xa0 <= s[1] <= 0xbf)
          || (0xe1 <= s[0] <= 0xec && IsTailByte(s[1]))
          || (s[0] == 0xed && 0x80 <= s[1] <= 0x9f)
          || (0xee <= s[0] <= 0xef && IsTailByte(s[1]))))
    || (|s| == 4 && IsTailByte(s[2]) && IsTailByte(s[3]) &&
        ( || (s[0] == 0xf0 && 0x90 <= s[1] <= 0xbf)
          || (0xf1 <= s[0] <= 0xf3 && IsTailByte(s[1]))
          || (s[0] == 0xf4 && 0x80 <= s[1] <= 0x8f)))
  }

  /** Decoding undoes encoding for every scalar beyond ASCII. */
  lemma DecodeEncode(c: u32)
    requires IsScalar(c) && c >= 0x80
    ensures 2 <= |Encode(c)| <= 4 && PendingUtf8(Encode(c), |Encode(c)|)
    ensures Decode(Encode(c)) == Some(c)
  {
    var s := Encode(c);
    if c < 0x800 {
      assert c == c / 0x40 * 0x40 + c % 0x40;
    } else if c < 0x1_0000 {
      assert c / 0x1000 == c / 0x40 / 0x40;
      assert c == c / 0x1000 * 0x1000 + c / 0x40 % 0x40 * 0x40 + c % 0x40;
    } else {
      assert c / 0x1000 == c / 0x40 / 0x40 && c / 0x4_0000 == c / 0x1000 / 0x40;
      assert c == c / 0x4_0000 * 0x4_0000 + c / 0x1000 % 0x40 * 0x1000 + c / 0x40 % 0x40 * 0x40 + c % 0x40;
    }
  }

  /** The base-64 digits of a number are recovered by division. */
  lemma Digits(x: nat, y: nat, z: nat, w: nat)
    requires y < 0x40 && z < 0x40 && w < 0x40
    ensures (x * 0x40 + y) / 0x40 == x && (x * 0x40 + y) % 0x40 == y
    ensures (x * 0x1000 + y * 0x40 + z) / 0x1000 == x
    ensures (x * 0x1000 + y * 0x40 + z) / 0x40 == x * 0x40 + y
    ensures (x * 0x1000 + y * 0x40 + z) % 0x40 == z
    ensures (x * 0x4_0000 + y * 0x1000 + z * 0x40 + w) / 0x4_0000 == x
    ensures (x * 0x4_0000 + y * 0x1000 + z * 0x40 + w) / 0x1000 == x * 0x40 + y
    ensures (x * 0x4_0000 + y * 0x1000 + z * 0x40 + w) / 0x40 == x * 0x1000 + y * 0x40 + z
    ensures (x * 0x4_0000 + y * 0x1000 + z * 0x40 + w) % 0x40 == w
  {
  }

  /** The decoder accepts exactly the sequences the RFC allows. */
  lemma DecodeIsRfc3629(s: seq<u8>)
    requires 2 <= |s| <= 4 && PendingUtf8(s, |s|)
    ensures Decode(s).Some? <==> Rfc3629(s)
    ensures Decode(s).Some? ==> IsScalar(Decode(s).value)
  {
    assert forall i :: 1 <= i < |s| ==> IsTailByte(s[i]);
    assert IsTailByte(s[1]);
  }

  /** What the decoder accepts is the shortest form of the scalar it returns. */
  lemma EncodeDecode(s: seq<u8>)
    requires 2 <= |s| <= 4 && PendingUtf8(s, |s|) && Decode(s).Some?
    ensures IsScalar(Decode(s).value) && Encode(Decode(s).value) == s
  {
    assert forall i :: 1 <= i < |s| ==> IsTailByte(s[i]);
    if |s| == 2 {
      Digits(Bits(s[0], 0xc0), Bits(s[1], 0x80), 0, 0);
    } else if |s| == 3 {
      EncodeDecode3(s);
    } else {
      EncodeDecode4(s);
    }
  }

  lemma EncodeDecode3(s: seq<u8>)
    requires |s| == 3 && PendingUtf8(s, 3) && Decode(s).Some?
    ensures IsScalar(Decode(s).value) && Encode(Decode(s).value) == s
  {
    assert IsTailByte(s[1]) && IsTailByte(s[2]);
    Digits(Bits(s[0], 0xe0), Bits(s[1], 0x80), Bits(s[2], 0x80), 0);
    Digits(Bits(s[0], 0xe0), Bits(s[1], 0x80), 0, 0);
  }

  lemma EncodeDecode4(s: seq<u8>)
    requires |s| == 4 && PendingUtf8(s, 4) && Decode(s).Some?
    ensures IsScalar(Decode(s).value) && Encode(Decode(s).value) == s
  {
    assert IsTailByte(s[1]) && IsTailByte(s[2]) && IsTailByte(s[3]);
    Digits(Bits(s[0], 0xf0), Bits(s[1], 0x80), Bits(s[2], 0x80), Bits(s[3], 0x80));
    Digits(Bits(s[0], 0xf0), Bits(s[1], 0x80), Bits(s[2], 0x80), 0);
    Digits(Bits(s[0], 0xf0), Bits(s[1], 0x80), 0, 0);
  }
}
