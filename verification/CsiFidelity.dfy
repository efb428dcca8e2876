/** A control sequence written out in the syntax of section 5.4 of ECMA-48 is
    parsed to exactly one action carrying what was written. */
module CsiFidelity {
  import opened VtTypes
  import opened Digits
  import opened ParserSpec
  import S = ScreenSpec

  predicate IsDigits(s: seq<u8>) {
    forall i :: 0 <= i < |s| ==> 0x30 <= s[i] <= 0x39
  }

  /** Parameter strings, possibly empty, and the `;` or `:` between them. */
  predicate WfArgs(args: seq<seq<u8>>, seps: seq<u8>) {
    && |args| > 0 && |seps| == |args| - 1
    && (forall i :: 0 <= i < |args| ==> IsDigits(args[i]))
    && (forall i :: 0 <= i < |seps| ==> seps[i] == 0x3a || seps[i] == 0x3b)
  }

  /** At most one private marker: `<`, `=`, `>` or `?`. */
  predicate WfMarker(marker: seq<u8>) {
    |marker| == 0 || (|marker| == 1 && 0x3c <= marker[0] <= 0x3f)
  }

  /** The parameter strings joined by their separators. */
  function Body(args: seq<seq<u8>>, seps: seq<u8>): seq<u8>
    requires WfArgs(args, seps)
    decreases |args|
  {
    var n := |args|;
    if n == 1 then args[0] else Body(args[..n - 1], seps[..n - 2]) + [seps[n - 2]] + args[n - 1]
  }

  const CSI: seq<u8> := [0x1b, 0x5b]

  /** The whole sequence as bytes. */
  function Written(marker: seq<u8>, args: seq<seq<u8>>, seps: seq<u8>, fin: u8): seq<u8>
    requires WfMarker(marker) && WfArgs(args, seps) && IsCsiFinal(fin)
  {
    CSI + marker + Body(args, seps) + [fin]
  }

  /** What a parameter string means: its value, no larger than a u16 holds. */
  function Clamped(s: seq<u8>): u16
    requires IsDigits(s)
  {
    Min(Value(s), 0xFFFF)
  }

  /** The meanings of the parameter strings, in order. */
  function Meanings(args: seq<seq<u8>>): (ns: seq<u16>)
    requires forall i :: 0 <= i < |args| ==> IsDigits(args[i])
    ensures |ns| == |args|
  {
    seq(|args|, i requires 0 <= i < |args| => Clamped(args[i]))
  }

  /** A sequence with nothing between CSI and its final byte has no parameters;
      at most 32 are kept. */
  function Kept(marker: seq<u8>, args: seq<seq<u8>>): seq<u16>
    requires forall i :: 0 <= i < |args| ==> IsDigits(args[i])
  {
    if marker == [] && args == [[]] then [] else Meanings(args)[..Min(|args|, MAX_PARAMS)]
  }

  /** A parser in the middle of the parameters. */
  function Collecting(params: seq<u16>, acc: u16, inters: seq<u8>, ignore: bool): (p: Parser)
    ensures |params| <= MAX_PARAMS && |inters| <= MAX_INTER ==> Settled(p)
  {
    Parser(CsiParam, params, acc, inters, ignore, [], [], 0, None)
  }

  lemma RunOne(p: Parser, b: u8)
    requires Settled(p)
    ensures Run(p, [b]) == Consume(p, b)
  {
    var first := Consume(p, b);
    RunNothing(first.p);
    hide Consume, Wf;
    assert first.acts + [] == first.acts;
  }

  lemma RunSilent(p: Parser, a: seq<u8>, q: Parser, b: seq<u8>)
    requires Settled(p) && Settled(q) && Run(p, a) == Out(q, [])
    ensures Run(p, a + b) == Run(q, b)
  {
    RunAppend(p, a, b);
    hide Run, Wf;
  }

  lemma RunDigit(params: seq<u16>, acc: u16, inters: seq<u8>, ignore: bool, b: u8)
    requires |params| <= MAX_PARAMS && |inters| <= MAX_INTER && 0x30 <= b <= 0x39
    ensures Run(Collecting(params, acc, inters, ignore), [b])
         == Out(Collecting(params, Min(acc * 10 + (b - 0x30), 0xFFFF), inters, ignore), [])
  {
    RunOne(Collecting(params, acc, inters, ignore), b);
    hide Run;
  }

  lemma ClampedPush(s: seq<u8>, b: u8)
    requires IsDigits(s) && 0x30 <= b <= 0x39
    ensures Clamped(s + [b]) == Min(Clamped(s) * 10 + (b - 0x30), 0xFFFF)
  {
    assert (s + [b])[..|s|] == s;
  }

  /** Digits accumulate to the clamped value they denote. */
  lemma {:induction false} RunDigits(params: seq<u16>, inters: seq<u8>, ignore: bool, s: seq<u8>)
    requires |params| <= MAX_PARAMS && |inters| <= MAX_INTER && IsDigits(s)
    ensures Run(Collecting(params, 0, inters, ignore), s) == Out(Collecting(params, Clamped(s), inters, ignore), [])
    decreases s
  {
    var p := Collecting(params, 0, inters, ignore);
    if s == [] {
      RunNothing(p);
    } else {
      hide Run, Settled, Wf, Collecting, Clamped;
      var init, b := s[..|s| - 1], s[|s| - 1];
      RunDigits(params, inters, ignore, init);
      RunSilent(p, init, Collecting(params, Clamped(init), inters, ignore), [b]);
      RunDigit(params, Clamped(init), inters, ignore, b);
      ClampedPush(init, b);
      assert init + [b] == s;
    }
  }

  /** What the parser holds after `args`, the last of them still open. */
  function After(inters: seq<u8>, args: seq<seq<u8>>): (p: Parser)
    requires |args| > 0 && forall i :: 0 <= i < |args| ==> IsDigits(args[i])
  {
    var n := |args| - 1;
    Collecting(Meanings(args[..n])[..Min(n, MAX_PARAMS)], Clamped(args[n]), inters, n > MAX_PARAMS)
  }

  /** Ending a parameter, at a separator or at the final byte. */
  lemma FinishOne(inters: seq<u8>, args: seq<seq<u8>>)
    requires |args| > 0 && forall i :: 0 <= i < |args| ==> IsDigits(args[i])
    ensures FinishParam(After(inters, args))
         == Collecting(Meanings(args)[..Min(|args|, MAX_PARAMS)], 0, inters, |args| > MAX_PARAMS)
  {
    var n := |args| - 1;
    assert Meanings(args) == Meanings(args[..n]) + [Clamped(args[n])];
    hide Clamped;
    assert args[..|args|] == args;
  }

  lemma {:induction false} RunBody(inters: seq<u8>, args: seq<seq<u8>>, seps: seq<u8>)
    requires WfArgs(args, seps) && |inters| <= MAX_INTER
    ensures Run(Collecting([], 0, inters, false), Body(args, seps)) == Out(After(inters, args), [])
    decreases |args|
  {
    var p := Collecting([], 0, inters, false);
    var n := |args|;
    if n == 1 {
      RunDigits([], inters, false, args[0]);
      assert args[..0] == [];
    } else {
      hide Run, Settled, Wf, FinishParam, Meanings, Clamped;
      var init, sep := args[..n - 1], seps[n - 2];
      RunBody(inters, init, seps[..n - 2]);
      FinishOne(inters, init);
      RunSeparator(inters, init, sep);
      var q := FinishParam(After(inters, init));
      RunDigits(q.params, inters, q.ignore, args[n - 1]);
      RunSilent(p, Body(init, seps[..n - 2]), After(inters, init), [sep]);
      RunSilent(p, Body(init, seps[..n - 2]) + [sep], q, args[n - 1]);
    }
  }

  lemma RunSeparator(inters: seq<u8>, args: seq<seq<u8>>, sep: u8)
    requires |args| > 0 && |inters| <= MAX_INTER && (sep == 0x3a || sep == 0x3b)
    requires forall i :: 0 <= i < |args| ==> IsDigits(args[i])
    ensures Settled(After(inters, args)) && Settled(FinishParam(After(inters, args)))
    ensures Run(After(inters, args), [sep]) == Out(FinishParam(After(inters, args)), [])
  {
    RunOne(After(inters, args), sep);
    hide Run, Meanings, Clamped;
  }

  /** Whatever an earlier sequence left behind, CSI starts from nothing. */
  lemma RunIntroducer(p: Parser)
    requires Settled(p) && p.state == Ground && p.needed == 0
    ensures Run(p, CSI) == Out(NEW.(state := CsiEntry), [])
  {
    var q := NEW.(state := Escape);
    RunEsc(p);
    RunBracket();
    hide Run, Wf;
    RunSilent(p, [0x1b], q, [0x5b]);
    assert [0x1b] + [0x5b] == CSI;
  }

  lemma RunEsc(p: Parser)
    requires Settled(p) && p.state == Ground && p.needed == 0
    ensures Run(p, [0x1b]) == Out(NEW.(state := Escape), [])
  {
    RunOne(p, 0x1b);
    hide Run;
  }

  lemma RunBracket()
    ensures Run(NEW.(state := Escape), [0x5b]) == Out(NEW.(state := CsiEntry), [])
  {
    RunOne(NEW.(state := Escape), 0x5b);
    hide Run;
  }

  /** The first byte after CSI acts as it would among the parameters, unless it
      is the final byte. */
  lemma EntryIsParam(bytes: seq<u8>)
    requires bytes != [] && 0x30 <= bytes[0] <= 0x3b
    ensures Run(NEW.(state := CsiEntry), bytes) == Run(Collecting([], 0, [], false), bytes)
  {
    var a, b := NEW.(state := CsiEntry), Collecting([], 0, [], false);
    assert Consume(a, bytes[0]) == Consume(b, bytes[0]);
    hide Consume, Wf;
  }

  lemma RunMarker(m: u8)
    requires 0x3c <= m <= 0x3f
    ensures Run(NEW.(state := CsiEntry), [m]) == Out(Collecting([], 0, [m], false), [])
  {
    RunOne(NEW.(state := CsiEntry), m);
    hide Run;
  }

  lemma RunEmpty(fin: u8)
    requires IsCsiFinal(fin)
    ensures Run(NEW.(state := CsiEntry), [fin]) == Out(NEW, [Csi([], [], false, fin)])
  {
    RunOne(NEW.(state := CsiEntry), fin);
    hide Run;
  }

  lemma {:induction false} BodyEmpty(args: seq<seq<u8>>, seps: seq<u8>)
    requires WfArgs(args, seps)
    ensures Body(args, seps) == [] <==> args == [[]]
    ensures Body(args, seps) != [] ==> 0x30 <= Body(args, seps)[0] <= 0x3b
    decreases |args|
  {
    var n := |args|;
    if n == 1 {
      assert args == [args[0]];
    } else {
      BodyEmpty(args[..n - 1], seps[..n - 2]);
    }
  }

  /** The final byte ends the open parameter and dispatches. */
  lemma RunFinal(inters: seq<u8>, args: seq<seq<u8>>, fin: u8)
    requires |args| > 0 && |inters| <= MAX_INTER && IsCsiFinal(fin)
    requires forall i :: 0 <= i < |args| ==> IsDigits(args[i])
    ensures Run(After(inters, args), [fin])
         == Out(NEW, [Csi(Meanings(args)[..Min(|args|, MAX_PARAMS)], inters, |args| > MAX_PARAMS, fin)])
  {
    FinishOne(inters, args);
    RunOne(After(inters, args), fin);
    hide Run, Meanings, Clamped;
  }

  lemma RunParams(inters: seq<u8>, args: seq<seq<u8>>, seps: seq<u8>, fin: u8)
    requires WfArgs(args, seps) && |inters| <= MAX_INTER && IsCsiFinal(fin)
    ensures Run(Collecting([], 0, inters, false), Body(args, seps) + [fin])
         == Out(NEW, [Csi(Meanings(args)[..Min(|args|, MAX_PARAMS)], inters, |args| > MAX_PARAMS, fin)])
  {
    RunBody(inters, args, seps);
    RunFinal(inters, args, fin);
    hide Run, Meanings, Clamped;
    RunSilent(Collecting([], 0, inters, false), Body(args, seps), After(inters, args), [fin]);
  }

  lemma RunMarked(m: u8, rest: seq<u8>)
    requires 0x3c <= m <= 0x3f
    ensures Run(NEW.(state := CsiEntry), [m] + rest) == Run(Collecting([], 0, [m], false), rest)
  {
    RunMarker(m);
    hide Run, Wf;
    RunSilent(NEW.(state := CsiEntry), [m], Collecting([], 0, [m], false), rest);
  }

  /** With a marker, or starting with a digit or a separator. */
  lemma EntryOf(marker: seq<u8>, rest: seq<u8>)
    requires WfMarker(marker) && (marker == [] ==> rest != [] && 0x30 <= rest[0] <= 0x3b)
    ensures Run(NEW.(state := CsiEntry), marker + rest) == Run(Collecting([], 0, marker, false), rest)
  {
    hide Run, Wf, Settled, Collecting;
    if marker == [] {
      EntryIsParam(rest);
      assert marker + rest == rest;
    } else {
      RunMarked(marker[0], rest);
      assert marker == [marker[0]];
    }
  }

  /** The part after CSI, in its three shapes: with a marker, empty, or starting
      with a digit or a separator. */
  lemma RunRest(marker: seq<u8>, args: seq<seq<u8>>, seps: seq<u8>, fin: u8)
    requires WfMarker(marker) && WfArgs(args, seps) && IsCsiFinal(fin)
    ensures Run(NEW.(state := CsiEntry), marker + (Body(args, seps) + [fin]))
         == Out(NEW, [Csi(Kept(marker, args), marker, |args| > MAX_PARAMS, fin)])
  {
    var rest := Body(args, seps) + [fin];
    BodyEmpty(args, seps);
    hide Run, Meanings, Body, Wf, Settled, Collecting, IsDigits;
    if marker == [] && args == [[]] {
      RunEmpty(fin);
      assert marker + rest == [fin];
    } else {
      hide WfArgs;
      RunParams(marker, args, seps, fin);
      EntryOf(marker, rest);
    }
  }

  /** Every control sequence of digits and separators, read in Ground, is
      exactly one action: its parameters in order, each no larger than 65535,
      the first 32 of them, and to be ignored exactly when there were more. */
  lemma Fidelity(p: Parser, marker: seq<u8>, args: seq<seq<u8>>, seps: seq<u8>, fin: u8)
    requires Settled(p) && p.state == Ground && p.needed == 0
    requires WfMarker(marker) && WfArgs(args, seps) && IsCsiFinal(fin)
    ensures Run(p, Written(marker, args, seps, fin))
         == Out(NEW, [Csi(Kept(marker, args), marker, |args| > MAX_PARAMS, fin)])
  {
    var rest := Body(args, seps) + [fin];
    RunIntroducer(p);
    RunRest(marker, args, seps, fin);
    hide Run, Kept, Body;
    RunSilent(p, CSI, NEW.(state := CsiEntry), marker + rest);
    assert CSI + (marker + rest) == CSI + marker + Body(args, seps) + [fin];
  }

  // ---------------------------------------------------------------- numbers

  /** Parameters written as decimal numbers. */
  function Numbers(ns: seq<u16>): (args: seq<seq<u8>>)
    ensures |args| == |ns| && forall i :: 0 <= i < |args| ==> IsDigits(args[i])
  {
    seq(|ns|, i requires 0 <= i < |ns| => Decimal(ns[i]))
  }

  function Semicolons(n: nat): (seps: seq<u8>)
    ensures |seps| == n && forall i :: 0 <= i < n ==> seps[i] == 0x3b
  {
    seq(n, _ => 0x3b)
  }

  /** A control sequence with decimal parameters, as the emulator prints one. */
  function Sequence(marker: seq<u8>, ns: seq<u16>, fin: u8): seq<u8>
    requires WfMarker(marker) && |ns| > 0 && IsCsiFinal(fin)
  {
    Written(marker, Numbers(ns), Semicolons(|ns| - 1), fin)
  }

  /** The decimal numbers with `;` between them. */
  function Joined(ns: seq<u16>): seq<u8>
    requires |ns| > 0
  {
    Body(Numbers(ns), Semicolons(|ns| - 1))
  }

  lemma JoinedPush(ns: seq<u16>, n: u16)
    requires |ns| > 0
    ensures Joined(ns + [n]) == Joined(ns) + [0x3b] + Decimal(n)
  {
    assert Numbers(ns + [n])[..|ns|] == Numbers(ns);
    assert Semicolons(|ns|)[..|ns| - 1] == Semicolons(|ns| - 1);
  }

  lemma SequenceIs(marker: seq<u8>, ns: seq<u16>, fin: u8)
    requires WfMarker(marker) && |ns| > 0 && IsCsiFinal(fin)
    ensures Sequence(marker, ns, fin) == CSI + marker + Joined(ns) + [fin]
    ensures Joined(ns[..1]) == Decimal(ns[0])
  {
  }

  /** Printing numbers and parsing them are inverse, for up to 32 of any u16. */
  lemma NumbersSurvive(p: Parser, marker: seq<u8>, ns: seq<u16>, fin: u8)
    requires Settled(p) && p.state == Ground && p.needed == 0
    requires WfMarker(marker) && 1 <= |ns| <= MAX_PARAMS && IsCsiFinal(fin)
    ensures Run(p, Sequence(marker, ns, fin)) == Out(NEW, [Csi(ns, marker, false, fin)])
  {
    var args := Numbers(ns);
    Fidelity(p, marker, args, Semicolons(|ns| - 1), fin);
    hide Run, Written;
    forall i | 0 <= i < |ns| ensures Clamped(args[i]) == ns[i] {
      ValueDecimal(ns[i]);
    }
    hide Clamped;
    assert args[0] != [];
    assert Meanings(args)[..|ns|] == ns;
  }

  /** More than 32 parameters leave the display exactly as it was. */
  lemma TooManyAreIgnored(t: Tables, p: Parser, d: S.Display, marker: seq<u8>, args: seq<seq<u8>>, seps: seq<u8>, fin: u8)
    requires Settled(p) && p.state == Ground && p.needed == 0 && S.Wf(d.core)
    requires WfMarker(marker) && WfArgs(args, seps) && IsCsiFinal(fin) && |args| > MAX_PARAMS
    ensures S.StepAll(t, d, Run(p, Written(marker, args, seps, fin)).acts) == d
  {
    Fidelity(p, marker, args, seps, fin);
    hide Run, Written;
    S.StepOne(t, d, Csi(Kept(marker, args), marker, true, fin));
  }
}
