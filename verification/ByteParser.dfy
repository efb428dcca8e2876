/** The byte parser over fixed-size buffers, driving a screen. */
module ByteParser {
  import opened VtTypes
  import opened Utf8
  import opened TermScreen
  import S = ScreenSpec
  import P = ParserSpec

  class Parser {
    var state: P.State
    const params: array<u16>
    var paramLen: nat
    var paramAcc: u32
    const intermediates: array<u8>
    var interLen: nat
    var ignore: bool
    const osc: array<u8>
    var oscLen: nat
    const utf8: array<u8>
    var utf8Len: nat
    var utf8Needed: u8
    var putback: Option<u8>

    ghost predicate Sized()
      reads this
    {
      && params.Length == P.MAX_PARAMS && paramLen <= P.MAX_PARAMS
      && intermediates.Length == P.MAX_INTER && interLen <= P.MAX_INTER
      && osc.Length == P.MAX_OSC && oscLen <= P.MAX_OSC
      && utf8.Length == P.MAX_UTF8 && utf8Len <= P.MAX_UTF8
      && intermediates != osc && intermediates != utf8 && osc != utf8
    }

    /** The state without the unused ends of the buffers. */
    ghost function Abs(): P.Parser
      requires Sized()
      reads this, params, intermediates, osc, utf8
    {
      P.Parser(state, params[..paramLen], paramAcc, intermediates[..interLen], ignore, osc[..oscLen],
               utf8[..utf8Len], utf8Needed, putback)
    }

    ghost predicate Valid()
      reads this, params, intermediates, osc, utf8
      ensures Valid() ==> Sized()
    {
      Sized() && P.Wf(Abs())
    }

    /** What has been collected, in the fields and in the state they stand for. */
    lemma Collected()
      requires Sized()
      ensures Abs().params == params[..paramLen] && Abs().inters == intermediates[..interLen]
      ensures Abs().ignore == ignore && Abs().osc == osc[..oscLen]
    {
    }

    /** What the fields a handler branches on say about the state they stand
        for. */
    lemma Mirrors()
      requires Valid()
      ensures P.Wf(Abs()) && (putback.None? ==> P.Settled(Abs()))
      ensures Abs().state == state && Abs().needed == utf8Needed && Abs().putback == putback
      ensures state != P.Ground ==> utf8Needed == 0
    {
    }

    constructor ()
      ensures Valid() && Abs() == P.NEW
      ensures fresh(params) && fresh(intermediates) && fresh(osc) && fresh(utf8)
    {
      state := P.Ground;
      params := new u16[P.MAX_PARAMS](_ => 0);
      intermediates := new u8[P.MAX_INTER](_ => 0);
      osc := new u8[P.MAX_OSC](_ => 0);
      utf8 := new u8[P.MAX_UTF8](_ => 0);
      paramLen, paramAcc, interLen, ignore, oscLen, utf8Len, utf8Needed, putback := 0, 0, 0, false, 0, 0, 0, None;
    }

    function IsIdle(): bool
      requires Sized()
      reads this, params, intermediates, osc, utf8
      ensures IsIdle() <==> P.IsIdle(Abs())
    {
      state == P.Ground && utf8Len == 0 && putback.None?
    }

    method ResetSeq()
      requires Sized()
      modifies `paramLen, `paramAcc, `interLen, `ignore, `oscLen, params, intermediates
      ensures Sized() && Abs() == P.ResetSeq(old(Abs()))
    {
      paramLen, paramAcc, interLen, ignore, oscLen := 0, 0, 0, false, 0;
      ZeroSeq();
    }

    method ZeroSeq()
      modifies params, intermediates
    {
      forall i | 0 <= i < params.Length {
        params[i] := 0;
      }
      forall i | 0 <= i < intermediates.Length {
        intermediates[i] := 0;
      }
    }

    method Enter(next: P.State)
      requires Valid() && utf8Needed == 0 && putback.None?
      modifies `state
      ensures Valid() && Abs() == old(Abs()).(state := next)
    {
      state := next;
    }

    /** Enter a state with the collector cleared. */
    method Restart(next: P.State)
      requires Valid() && utf8Needed == 0 && putback.None?
      modifies `state, `paramLen, `paramAcc, `interLen, `ignore, `oscLen, params, intermediates
      ensures Valid() && Abs() == P.ResetSeq(old(Abs()).(state := next))
    {
      state := next;
      ResetSeq();
    }

    method PushInter(b: u8)
      requires Sized()
      modifies `interLen, `ignore, intermediates
      ensures Sized() && Abs() == P.PushInter(old(Abs()), b)
    {
      if interLen < P.MAX_INTER {
        intermediates[interLen] := b;
        interLen := interLen + 1;
        assert intermediates[..interLen] == old(intermediates[..interLen]) + [b];
      } else {
        ignore := true;
      }
    }

    method PushDigit(b: u8)
      requires Sized() && 0x30 <= b <= 0x39 && paramAcc <= 0xFFFF
      modifies `paramAcc
      ensures Sized() && Abs() == P.PushDigit(old(Abs()), b)
    {
      var d: int := b - 0x30;
      var acc: int := Min(Min(paramAcc * 10, U32_MAX) + d, U32_MAX);
      paramAcc := if acc > 0xFFFF then 0xFFFF else acc;
    }

    method FinishParam()
      requires Sized()
      modifies `paramLen, `paramAcc, `ignore, params
      ensures Sized() && Abs() == P.FinishParam(old(Abs()))
    {
      if paramLen < P.MAX_PARAMS {
        params[paramLen] := Min(paramAcc, 0xFFFF);
        paramLen := paramLen + 1;
        assert params[..paramLen] == old(params[..paramLen]) + [Min(paramAcc, 0xFFFF)];
      } else {
        ignore := true;
      }
      paramAcc := 0;
    }

    method PushOsc(b: u8)
      requires Sized()
      modifies `oscLen, `ignore, osc
      ensures Sized() && Abs() == P.PushOsc(old(Abs()), b)
    {
      if oscLen < P.MAX_OSC {
        osc[oscLen] := b;
        oscLen := oscLen + 1;
        assert osc[..oscLen] == old(osc[..oscLen]) + [b];
      } else {
        ignore := true;
      }
    }

    // ---------------------------------------------------------------- performing an action

    static method Print(c: u32, scr: Screen)
      requires scr.Valid()
      modifies scr, scr.cells
      ensures scr.Valid() && (scr.cells == old(scr.cells) || fresh(scr.cells))
      ensures scr.Shown() == S.StepAll(scr.t, old(scr.Shown()), [Action.Print(c)])
    {
      S.StepOne(scr.t, scr.Shown(), Action.Print(c));
      hide S.StepCore, S.StepFx, S.StepAll;
      scr.Print(c);
    }

    static method Execute(b: u8, scr: Screen)
      requires scr.Valid()
      modifies scr, scr.cells
      ensures scr.Valid() && (scr.cells == old(scr.cells) || fresh(scr.cells))
      ensures scr.Shown() == S.StepAll(scr.t, old(scr.Shown()), [Action.Execute(b)])
    {
      S.StepOne(scr.t, scr.Shown(), Action.Execute(b));
      hide S.StepCore, S.StepFx, S.StepAll;
      scr.Execute(b);
    }

    static method Osc(payload: seq<u8>, scr: Screen)
      requires scr.Valid()
      modifies scr, scr.cells
      ensures scr.Valid() && (scr.cells == old(scr.cells) || fresh(scr.cells))
      ensures scr.Shown() == S.StepAll(scr.t, old(scr.Shown()), [Action.Osc(payload)])
    {
      S.StepOne(scr.t, scr.Shown(), Action.Osc(payload));
      hide S.StepCore, S.StepFx, S.StepAll;
      scr.Osc(payload);
    }

    static method Esc(inters: seq<u8>, b: u8, scr: Screen)
      requires scr.Valid()
      modifies scr, scr.cells
      ensures scr.Valid() && (scr.cells == old(scr.cells) || fresh(scr.cells))
      ensures scr.Shown() == S.StepAll(scr.t, old(scr.Shown()), [Action.Esc(inters, b)])
    {
      S.StepOne(scr.t, scr.Shown(), Action.Esc(inters, b));
      hide S.StepCore, S.StepFx, S.StepAll;
      scr.Esc(inters, b);
    }

    static method Csi(ps: seq<u16>, inters: seq<u8>, skip: bool, b: u8, scr: Screen)
      requires scr.Valid()
      modifies scr, scr.cells
      ensures scr.Valid() && (scr.cells == old(scr.cells) || fresh(scr.cells))
      ensures scr.Shown() == S.StepAll(scr.t, old(scr.Shown()), [Action.Csi(ps, inters, skip, b)])
    {
      S.StepOne(scr.t, scr.Shown(), Action.Csi(ps, inters, skip, b));
      hide S.StepCore, S.StepFx, S.StepAll;
      scr.Csi(ps, inters, skip, b);
    }

    // ---------------------------------------------------------------- escape and control sequences

    method DispatchEsc(b: u8, scr: Screen)
      requires Valid() && putback.None? && scr.Valid() && utf8Needed == 0
      modifies this, params, intermediates, osc, utf8, scr, scr.cells
      ensures Valid() && Abs() == P.DispatchEsc(old(Abs()), b).p
      ensures scr.Valid() && (scr.cells == old(scr.cells) || fresh(scr.cells))
      ensures scr.Shown() == S.StepAll(scr.t, old(scr.Shown()), P.DispatchEsc(old(Abs()), b).acts)
    {
      S.StepNone(scr.t, scr.Shown());
      Collected();
      hide S.StepAll, Screen.Valid, Screen.Shown, Valid, Abs;
      Esc(intermediates[..interLen], b, scr);
      Restart(P.Ground);
    }

    method DispatchCsi(b: u8, scr: Screen)
      requires Valid() && putback.None? && scr.Valid() && utf8Needed == 0
      modifies this, params, intermediates, osc, utf8, scr, scr.cells
      ensures Valid() && Abs() == P.DispatchCsi(old(Abs()), b).p
      ensures scr.Valid() && (scr.cells == old(scr.cells) || fresh(scr.cells))
      ensures scr.Shown() == S.StepAll(scr.t, old(scr.Shown()), P.DispatchCsi(old(Abs()), b).acts)
    {
      S.StepNone(scr.t, scr.Shown());
      Collected();
      hide S.StepAll, Screen.Valid, Screen.Shown, Valid, Abs;
      Csi(params[..paramLen], intermediates[..interLen], ignore, b, scr);
      Restart(P.Ground);
    }

    method CommonStep(b: u8, scr: Screen)
      requires Valid() && putback.None? && scr.Valid() && utf8Needed == 0 && P.IsCommon(b)
      modifies this, params, intermediates, osc, utf8, scr, scr.cells
      ensures Valid() && Abs() == P.CommonStep(old(Abs()), b).p
      ensures scr.Valid() && (scr.cells == old(scr.cells) || fresh(scr.cells))
      ensures scr.Shown() == S.StepAll(scr.t, old(scr.Shown()), P.CommonStep(old(Abs()), b).acts)
    {
      S.StepNone(scr.t, scr.Shown());
      hide S.StepAll, Screen.Valid, Screen.Shown, Valid, Abs;
      if P.IsC0(b) {
        Execute(b, scr);
      } else if P.IsCancel(b) {
        Enter(P.Ground);
        Execute(b, scr);
      } else {
        Restart(P.Escape);
      }
    }

    method EscapeOwn(b: u8)
      requires Valid() && utf8Needed == 0 && putback.None?
      modifies `state, `paramLen, `paramAcc, `interLen, `ignore, `oscLen, params, intermediates
      ensures Valid() && Abs() == P.EscapeOwn(old(Abs()), b)
    {
      if 0x20 <= b <= 0x2f {
        PushInter(b);
        state := P.EscapeIntermediate;
      } else if b != 0x7f {
        ResetSeq();
        state := if b == 0x50 then P.DcsPassthrough
                 else if b == 0x58 || b == 0x5e || b == 0x5f then P.SosPmApc
                 else if b == 0x5b then P.CsiEntry
                 else if b == 0x5d then P.OscString
                 else P.Ground;
      }
    }

    method EscapeIntermediateOwn(b: u8)
      requires Valid() && utf8Needed == 0 && putback.None?
      modifies `state, `paramLen, `paramAcc, `interLen, `ignore, `oscLen, params, intermediates
      ensures Valid() && Abs() == P.EscapeIntermediateOwn(old(Abs()), b)
    {
      if 0x20 <= b <= 0x2f {
        PushInter(b);
      } else {
        ResetSeq();
        state := P.Ground;
      }
    }

    method CsiEntryOwn(b: u8)
      requires Valid() && utf8Needed == 0 && putback.None?
      modifies `state, `paramLen, `paramAcc, `interLen, `ignore, `oscLen, params, intermediates
      ensures Valid() && Abs() == P.CsiEntryOwn(old(Abs()), b)
    {
      if 0x20 <= b <= 0x2f {
        PushInter(b);
        state := P.CsiIntermediate;
      } else if b != 0x7f {
        if 0x30 <= b <= 0x39 {
          PushDigit(b);
        } else if b == 0x3a || b == 0x3b {
          FinishParam();
        } else if 0x3c <= b <= 0x3f {
          PushInter(b);
        } else {
          ignore := true;
        }
        state := P.CsiParam;
      }
    }

    method CsiParamOwn(b: u8)
      requires Valid() && utf8Needed == 0 && putback.None?
      modifies `state, `paramLen, `paramAcc, `interLen, `ignore, `oscLen, params, intermediates
      ensures Valid() && Abs() == P.CsiParamOwn(old(Abs()), b)
    {
      if 0x20 <= b <= 0x2f {
        FinishParam();
        PushInter(b);
        state := P.CsiIntermediate;
      } else if 0x30 <= b <= 0x39 {
        PushDigit(b);
      } else if b == 0x3a || b == 0x3b {
        FinishParam();
      } else if 0x3c <= b <= 0x3f {
        state := P.CsiIgnore;
      } else if b != 0x7f {
        ignore := true;
      }
    }

    method CsiIntermediateOwn(b: u8)
      requires Valid() && utf8Needed == 0 && putback.None?
      modifies `state, `paramLen, `paramAcc, `interLen, `ignore, `oscLen, params, intermediates
      ensures Valid() && Abs() == P.CsiIntermediateOwn(old(Abs()), b)
    {
      if 0x20 <= b <= 0x2f {
        PushInter(b);
      } else {
        if !(0x30 <= b <= 0x3f) {
          ignore := true;
        }
        state := P.CsiIgnore;
      }
    }

    method CsiIgnoreOwn(b: u8)
      requires Valid() && utf8Needed == 0 && putback.None?
      modifies `state, `paramLen, `paramAcc, `interLen, `ignore, `oscLen, params, intermediates
      ensures Valid() && Abs() == P.CsiIgnoreOwn(old(Abs()), b)
    {
      if P.IsCsiFinal(b) {
        ResetSeq();
        state := P.Ground;
      }
    }

    /** The last parameter, before the final byte. */
    method EndParams()
      requires Valid() && utf8Needed == 0 && putback.None?
      modifies `paramLen, `paramAcc, `ignore, params
      ensures Valid() && Abs() == P.FinishParam(old(Abs()))
    {
      FinishParam();
    }

    method CsiEnd(b: u8, scr: Screen)
      requires Valid() && putback.None? && scr.Valid() && !P.IsCommon(b) && P.IsCsiFinal(b)
      requires state in {P.CsiEntry, P.CsiParam, P.CsiIntermediate}
      modifies this, params, intermediates, osc, utf8, scr, scr.cells
      ensures Valid() && Abs() == P.SequenceStep(old(Abs()), b).p
      ensures scr.Valid() && (scr.cells == old(scr.cells) || fresh(scr.cells))
      ensures scr.Shown() == S.StepAll(scr.t, old(scr.Shown()), P.SequenceStep(old(Abs()), b).acts)
    {
      Mirrors();
      hide S.StepAll, Screen.Valid, Screen.Shown, P.FinishParam, P.Wf, P.DispatchCsi, Valid, Abs;
      hide P.EscapeOwn, P.EscapeIntermediateOwn, P.CsiEntryOwn, P.CsiParamOwn, P.CsiIntermediateOwn, P.CsiIgnoreOwn;
      if state == P.CsiParam {
        EndParams();
      }
      DispatchCsi(b, scr);
    }

    method CsiStep(b: u8, scr: Screen)
      requires Valid() && putback.None? && scr.Valid() && !P.IsCommon(b)
      requires state in {P.CsiEntry, P.CsiParam, P.CsiIntermediate, P.CsiIgnore}
      modifies this, params, intermediates, osc, utf8, scr, scr.cells
      ensures Valid() && Abs() == P.SequenceStep(old(Abs()), b).p
      ensures scr.Valid() && (scr.cells == old(scr.cells) || fresh(scr.cells))
      ensures scr.Shown() == S.StepAll(scr.t, old(scr.Shown()), P.SequenceStep(old(Abs()), b).acts)
    {
      S.StepNone(scr.t, scr.Shown());
      Mirrors();
      hide S.StepAll, Screen.Valid, Screen.Shown, P.FinishParam, P.Wf, Valid, Abs;
      hide P.EscapeOwn, P.EscapeIntermediateOwn, P.CsiEntryOwn, P.CsiParamOwn, P.CsiIntermediateOwn, P.CsiIgnoreOwn;
      if state == P.CsiIgnore {
        CsiIgnoreOwn(b);
      } else if P.IsCsiFinal(b) {
        CsiEnd(b, scr);
      } else if state == P.CsiEntry {
        CsiEntryOwn(b);
      } else if state == P.CsiParam {
        CsiParamOwn(b);
      } else {
        CsiIntermediateOwn(b);
      }
    }

    method SequenceStep(b: u8, scr: Screen)
      requires Valid() && putback.None? && scr.Valid() && P.InSequence(state)
      modifies this, params, intermediates, osc, utf8, scr, scr.cells
      ensures Valid() && Abs() == P.SequenceStep(old(Abs()), b).p
      ensures scr.Valid() && (scr.cells == old(scr.cells) || fresh(scr.cells))
      ensures scr.Shown() == S.StepAll(scr.t, old(scr.Shown()), P.SequenceStep(old(Abs()), b).acts)
    {
      S.StepNone(scr.t, scr.Shown());
      Mirrors();
      hide S.StepAll, Screen.Valid, Screen.Shown, P.EscapeOwn, P.EscapeIntermediateOwn, P.CsiEntryOwn, P.Wf, Valid, Abs;
      hide P.CsiParamOwn, P.CsiIntermediateOwn, P.CsiIgnoreOwn, P.FinishParam;
      if P.IsCommon(b) {
        CommonStep(b, scr);
      } else {
        if state == P.Escape {
          if P.IsEscFinal(b) { DispatchEsc(b, scr); } else { EscapeOwn(b); }
        } else if state == P.EscapeIntermediate {
          if 0x30 <= b <= 0x7e { DispatchEsc(b, scr); } else { EscapeIntermediateOwn(b); }
        } else {
          CsiStep(b, scr);
        }
      }
    }

    // ---------------------------------------------------------------- strings

    method CollectOsc(b: u8)
      requires Valid() && utf8Needed == 0 && putback.None?
      modifies `oscLen, `ignore, osc
      ensures Valid() && Abs() == P.PushOsc(old(Abs()), b)
    {
      PushOsc(b);
    }

    method OscStringStep(b: u8, scr: Screen)
      requires Valid() && putback.None? && scr.Valid() && utf8Needed == 0
      modifies this, params, intermediates, osc, utf8, scr, scr.cells
      ensures Valid() && Abs() == P.OscStringStep(old(Abs()), b).p
      ensures scr.Valid() && (scr.cells == old(scr.cells) || fresh(scr.cells))
      ensures scr.Shown() == S.StepAll(scr.t, old(scr.Shown()), P.OscStringStep(old(Abs()), b).acts)
    {
      hide S.StepAll, Screen.Valid, Screen.Shown, P.PushOsc, P.ResetSeq, Valid, Abs;
      if b == 0x07 {
        Collected();
        Osc(osc[..oscLen], scr);
        Restart(P.Ground);
      } else if P.IsCancel(b) {
        Restart(P.Ground);
        Execute(b, scr);
      } else {
        S.StepNone(scr.t, scr.Shown());
        if b == 0x1b {
          Enter(P.OscEscape);
        } else {
          CollectOsc(b);
        }
      }
    }

    method DcsStep(b: u8, scr: Screen)
      requires Valid() && putback.None? && scr.Valid() && utf8Needed == 0
      modifies this, params, intermediates, osc, utf8, scr, scr.cells
      ensures Valid() && Abs() == P.DcsStep(old(Abs()), b).p
      ensures scr.Valid() && (scr.cells == old(scr.cells) || fresh(scr.cells))
      ensures scr.Shown() == S.StepAll(scr.t, old(scr.Shown()), P.DcsStep(old(Abs()), b).acts)
    {
      S.StepNone(scr.t, scr.Shown());
      hide S.StepAll, Screen.Valid, Screen.Shown, Valid, Abs;
      if b == 0x1b {
        Enter(P.DcsEscape);
      } else if P.IsCancel(b) {
        Restart(P.Ground);
        Execute(b, scr);
      }
    }

    method SosOwn(b: u8)
      requires Valid() && utf8Needed == 0 && putback.None?
      modifies `state, `paramLen, `paramAcc, `interLen, `ignore, `oscLen, params, intermediates
      ensures Valid() && Abs() == P.SosStep(old(Abs()), b).p
    {
      if b == 0x1b {
        state := P.SosEscape;
      } else if P.IsCancel(b) {
        ResetSeq();
        state := P.Ground;
      }
    }

    /** The byte after ESC inside a string. */
    method StringEscapeOwn(b: u8)
      requires Valid() && utf8Needed == 0 && putback.None?
      modifies `state, `paramLen, `paramAcc, `interLen, `ignore, `oscLen, params, intermediates, `putback
      ensures Valid() && Abs() == P.StringEscapeStep(old(Abs()), b, []).p
    {
      if b == 0x5c {
        state := P.Ground;
      } else {
        state := P.Escape;
        putback := Some(b);
      }
      ResetSeq();
    }

    method StringStep(b: u8, scr: Screen)
      requires Valid() && putback.None? && scr.Valid() && utf8Needed == 0
      modifies this, params, intermediates, osc, utf8, scr, scr.cells
      ensures Valid() && Abs() == P.StringStep(old(Abs()), b).p
      ensures scr.Valid() && (scr.cells == old(scr.cells) || fresh(scr.cells))
      ensures scr.Shown() == S.StepAll(scr.t, old(scr.Shown()), P.StringStep(old(Abs()), b).acts)
    {
      S.StepNone(scr.t, scr.Shown());
      Mirrors();
      hide S.StepAll, Screen.Valid, Screen.Shown, P.OscStringStep, P.DcsStep, P.SosStep, P.StringEscapeStep, P.Wf, Valid, Abs;
      if state == P.OscString {
        OscStringStep(b, scr);
      } else if state == P.DcsPassthrough {
        DcsStep(b, scr);
      } else if state == P.SosPmApc {
        SosOwn(b);
      } else if state in {P.OscEscape, P.DcsEscape, P.SosEscape} {
        EndString(b, scr, state == P.OscEscape);
      }
    }

    /** The byte after ESC inside a string, which of the strings only an OSC
        acts on. */
    method EndString(b: u8, scr: Screen, acts: bool)
      requires Valid() && putback.None? && scr.Valid() && utf8Needed == 0
      modifies this, params, intermediates, osc, utf8, scr, scr.cells
      ensures var closing := if acts then [Action.Osc(old(Abs()).osc)] else [];
              && Valid() && Abs() == P.StringEscapeStep(old(Abs()), b, closing).p
              && scr.Valid() && (scr.cells == old(scr.cells) || fresh(scr.cells))
              && scr.Shown() == S.StepAll(scr.t, old(scr.Shown()), P.StringEscapeStep(old(Abs()), b, closing).acts)
    {
      S.StepNone(scr.t, scr.Shown());
      Collected();
      hide S.StepAll, Screen.Valid, Screen.Shown, Valid, Abs;
      if acts && b == 0x5c {
        Osc(osc[..oscLen], scr);
      }
      StringEscapeOwn(b);
    }

    // ---------------------------------------------------------------- ground and UTF-8

    method StartUtf8(b: u8)
      requires Valid() && putback.None? && utf8Needed == 0 && state == P.Ground && LeadLength(b) > 0
      modifies `utf8Len, `utf8Needed, utf8
      ensures Valid() && Abs() == P.StartUtf8(old(Abs()), b)
    {
      ZeroUtf8();
      utf8[0] := b;
      utf8Len := 1;
      utf8Needed := LeadLength(b);
      assert utf8[..1] == [b];
    }

    method ZeroUtf8()
      modifies utf8
    {
      forall i | 0 <= i < utf8.Length {
        utf8[i] := 0;
      }
    }

    /** Collect a continuation byte; at the last one, take the scalar. */
    method CollectUtf8(b: u8) returns (done: Option<u32>)
      requires Valid() && putback.None? && utf8Needed > 0 && IsTailByte(b)
      modifies `utf8Len, `utf8Needed, utf8
      ensures Valid() && Abs() == P.ContinueUtf8(old(Abs()), b).p
      ensures P.ContinueUtf8(old(Abs()), b).acts == if done.Some? then [Action.Print(done.value)] else []
    {
      utf8[utf8Len] := b;
      utf8Len := utf8Len + 1;
      assert utf8[..utf8Len] == old(utf8[..utf8Len]) + [b];
      done := None;
      if utf8Len == utf8Needed {
        var c := Decode(utf8[..utf8Len]);
        utf8Len := 0;
        utf8Needed := 0;
        done := Some(if c.Some? then c.value else REPLACEMENT);
      }
    }

    /** Drop the pending sequence and read `b` again. */
    method AbortUtf8(b: u8)
      requires Valid() && putback.None? && utf8Needed > 0
      modifies `utf8Len, `utf8Needed, `putback
      ensures Valid() && Abs() == old(Abs()).(utf8 := [], needed := 0, putback := Some(b))
    {
      utf8Len := 0;
      utf8Needed := 0;
      putback := Some(b);
    }

    method Utf8Step(b: u8, scr: Screen)
      requires Valid() && putback.None? && scr.Valid() && state == P.Ground && utf8Needed > 0
      modifies this, params, intermediates, osc, utf8, scr, scr.cells
      ensures Valid() && Abs() == P.GroundStep(old(Abs()), b).p
      ensures scr.Valid() && (scr.cells == old(scr.cells) || fresh(scr.cells))
      ensures scr.Shown() == S.StepAll(scr.t, old(scr.Shown()), P.GroundStep(old(Abs()), b).acts)
    {
      S.StepNone(scr.t, scr.Shown());
      Mirrors();
      hide S.StepAll, Screen.Valid, Screen.Shown, P.ContinueUtf8, P.Wf, Valid, Abs;
      if IsTailByte(b) {
        var c := CollectUtf8(b);
        if c.Some? {
          Print(c.value, scr);
        }
      } else {
        AbortUtf8(b);
        Print(REPLACEMENT, scr);
      }
    }

    method GroundStep(b: u8, scr: Screen)
      requires Valid() && putback.None? && scr.Valid() && state == P.Ground
      modifies this, params, intermediates, osc, utf8, scr, scr.cells
      ensures Valid() && Abs() == P.GroundStep(old(Abs()), b).p
      ensures scr.Valid() && (scr.cells == old(scr.cells) || fresh(scr.cells))
      ensures scr.Shown() == S.StepAll(scr.t, old(scr.Shown()), P.GroundStep(old(Abs()), b).acts)
    {
      Mirrors();
      hide S.StepAll, Screen.Valid, Screen.Shown, P.GroundStep, P.Wf, Valid, Abs;
      if utf8Needed > 0 {
        Utf8Step(b, scr);
      } else if b < 0x20 {
        ControlStep(b, scr);
      } else if LeadLength(b) > 0 {
        LeadStep(b, scr);
      } else {
        TextStep(b, scr);
      }
    }

    /** A byte in Ground that leads a character, with nothing pending. */
    method LeadStep(b: u8, scr: Screen)
      requires Valid() && putback.None? && scr.Valid() && state == P.Ground && utf8Needed == 0 && LeadLength(b) > 0
      modifies this, params, intermediates, osc, utf8, scr, scr.cells
      ensures Valid() && Abs() == P.GroundStep(old(Abs()), b).p
      ensures scr.Valid() && (scr.cells == old(scr.cells) || fresh(scr.cells))
      ensures scr.Shown() == S.StepAll(scr.t, old(scr.Shown()), P.GroundStep(old(Abs()), b).acts)
    {
      S.StepNone(scr.t, scr.Shown());
      Mirrors();
      hide S.StepAll, Screen.Valid, Screen.Shown, P.ContinueUtf8, P.StartUtf8, P.ResetSeq, P.Wf, Valid, Abs;
      assert b > 0x7f;
      StartUtf8(b);
    }

    /** Any other byte in Ground, with nothing pending. */
    method TextStep(b: u8, scr: Screen)
      requires Valid() && putback.None? && scr.Valid() && state == P.Ground && utf8Needed == 0
      requires b >= 0x20 && LeadLength(b) == 0
      modifies this, params, intermediates, osc, utf8, scr, scr.cells
      ensures Valid() && Abs() == P.GroundStep(old(Abs()), b).p
      ensures scr.Valid() && (scr.cells == old(scr.cells) || fresh(scr.cells))
      ensures scr.Shown() == S.StepAll(scr.t, old(scr.Shown()), P.GroundStep(old(Abs()), b).acts)
    {
      S.StepNone(scr.t, scr.Shown());
      Mirrors();
      P.TextActs(Abs(), b);
      hide S.StepAll, Screen.Valid, Screen.Shown, P.GroundStep, P.Wf, Valid, Abs;
      if b != 0x7f {
        Print(if b < 0x7f then b else REPLACEMENT, scr);
      }
    }

    /** A control character in Ground, with nothing pending. */
    method ControlStep(b: u8, scr: Screen)
      requires Valid() && putback.None? && scr.Valid() && state == P.Ground && utf8Needed == 0 && b < 0x20
      modifies this, params, intermediates, osc, utf8, scr, scr.cells
      ensures Valid() && Abs() == P.GroundStep(old(Abs()), b).p
      ensures scr.Valid() && (scr.cells == old(scr.cells) || fresh(scr.cells))
      ensures scr.Shown() == S.StepAll(scr.t, old(scr.Shown()), P.GroundStep(old(Abs()), b).acts)
    {
      S.StepNone(scr.t, scr.Shown());
      Mirrors();
      hide S.StepAll, Screen.Valid, Screen.Shown, P.ContinueUtf8, P.StartUtf8, P.Wf, Valid, Abs;
      if b == 0x1b {
        Restart(P.Escape);
      } else {
        if P.IsCancel(b) {
          Restart(P.Ground);
        }
        Execute(b, scr);
      }
    }

    // ---------------------------------------------------------------- the stream

    method Step(b: u8, scr: Screen)
      requires Valid() && putback.None? && scr.Valid()
      modifies this, params, intermediates, osc, utf8, scr, scr.cells
      ensures Valid() && Abs() == P.Step(old(Abs()), b).p
      ensures scr.Valid() && (scr.cells == old(scr.cells) || fresh(scr.cells))
      ensures scr.Shown() == S.StepAll(scr.t, old(scr.Shown()), P.Step(old(Abs()), b).acts)
    {
      Mirrors();
      hide S.StepAll, Screen.Valid, Screen.Shown, P.GroundStep, P.StringStep, P.SequenceStep, P.Wf, Valid, Abs;
      if state == P.Ground {
        GroundStep(b, scr);
      } else if P.InSequence(state) {
        SequenceStep(b, scr);
      } else {
        StringStep(b, scr);
      }
    }

    /** Every byte, in order; a byte put back is read again first. Ends with no
        byte put back, so a following call continues where this one stopped. */
    method Feed(bytes: seq<u8>, scr: Screen)
      requires Valid() && putback.None? && scr.Valid()
      modifies this, params, intermediates, osc, utf8, scr, scr.cells
      ensures Valid() && putback.None? && Abs() == P.Run(old(Abs()), bytes).p
      ensures scr.Valid() && (scr.cells == old(scr.cells) || fresh(scr.cells))
      ensures scr.Shown() == S.StepAll(scr.t, old(scr.Shown()), P.Run(old(Abs()), bytes).acts)
    {
      ghost var total := P.Run(Abs(), bytes);
      ghost var end := S.StepAll(scr.t, scr.Shown(), total.acts);
      hide P.Step, P.Run, P.Resume, P.Wf, S.StepAll, Screen.Valid, Screen.Shown;
      var i := 0;
      P.ResumeSettled(Abs(), bytes);
      while i < |bytes| || putback.Some?
        invariant 0 <= i <= |bytes| && Valid()
        invariant scr.Valid() && (scr.cells == old(scr.cells) || fresh(scr.cells))
        invariant P.Resume(Abs(), bytes[i..]).p == total.p
        invariant S.StepAll(scr.t, scr.Shown(), P.Resume(Abs(), bytes[i..]).acts) == end
        decreases |bytes| - i, putback.Some?
      {
        i := FeedOne(bytes, i, scr);
      }
      P.RunNothing(Abs());
      P.ResumeSettled(Abs(), bytes[i..]);
      S.StepNone(scr.t, scr.Shown());
    }

    /** One turn of the loop. */
    method FeedOne(bytes: seq<u8>, i: nat, scr: Screen) returns (j: nat)
      requires Valid() && scr.Valid() && i <= |bytes| && (i < |bytes| || putback.Some?)
      modifies this, params, intermediates, osc, utf8, scr, scr.cells
      ensures Valid() && i <= j <= |bytes|
      ensures if old(putback).Some? then j == i && putback.None? else j == i + 1
      ensures scr.Valid() && (scr.cells == old(scr.cells) || fresh(scr.cells))
      ensures P.Resume(Abs(), bytes[j..]).p == P.Resume(old(Abs()), bytes[i..]).p
      ensures S.StepAll(scr.t, scr.Shown(), P.Resume(Abs(), bytes[j..]).acts)
           == S.StepAll(scr.t, old(scr.Shown()), P.Resume(old(Abs()), bytes[i..]).acts)
    {
      hide P.Step, P.Run, P.Resume, P.Wf, S.StepAll, Screen.Valid, Screen.Shown;
      if putback.Some? {
        FeedPutback(bytes[i..], scr);
        j := i;
      } else {
        assert bytes[i..] == [bytes[i]] + bytes[i + 1..];
        FeedByte(bytes[i], bytes[i + 1..], scr);
        j := i + 1;
      }
    }

    /** One turn of the loop that takes the byte put back, before `rest`. */
    method FeedPutback(ghost rest: seq<u8>, scr: Screen)
      requires Valid() && putback.Some? && scr.Valid()
      modifies this, params, intermediates, osc, utf8, scr, scr.cells
      ensures Valid() && putback.None?
      ensures scr.Valid() && (scr.cells == old(scr.cells) || fresh(scr.cells))
      ensures P.Resume(Abs(), rest).p == P.Resume(old(Abs()), rest).p
      ensures S.StepAll(scr.t, scr.Shown(), P.Resume(Abs(), rest).acts)
           == S.StepAll(scr.t, old(scr.Shown()), P.Resume(old(Abs()), rest).acts)
    {
      ghost var p, d := Abs(), scr.Shown();
      var b := putback.value;
      P.ResumePutback(p, rest);
      ghost var o := P.Step(p.(putback := None), b);
      S.StepAllAppend(scr.t, d, o.acts, P.Resume(o.p, rest).acts);
      TakePutback();
      hide P.Step, P.Run, P.Resume, P.Wf, S.StepAll, Screen.Valid, Screen.Shown;
      Step(b, scr);
    }

    method TakePutback()
      requires Valid()
      modifies `putback
      ensures Valid() && Abs() == old(Abs()).(putback := None)
    {
      putback := None;
    }

    /** One turn of the loop that takes the next input byte, before `rest`. */
    method FeedByte(b: u8, ghost rest: seq<u8>, scr: Screen)
      requires Valid() && putback.None? && scr.Valid()
      modifies this, params, intermediates, osc, utf8, scr, scr.cells
      ensures Valid()
      ensures scr.Valid() && (scr.cells == old(scr.cells) || fresh(scr.cells))
      ensures P.Resume(Abs(), rest).p == P.Resume(old(Abs()), [b] + rest).p
      ensures S.StepAll(scr.t, scr.Shown(), P.Resume(Abs(), rest).acts)
           == S.StepAll(scr.t, old(scr.Shown()), P.Resume(old(Abs()), [b] + rest).acts)
    {
      ghost var p, d := Abs(), scr.Shown();
      P.RunIsStepThenResume(p, [b] + rest);
      P.ResumeSettled(p, [b] + rest);
      assert ([b] + rest)[1..] == rest;
      ghost var o := P.Step(p, b);
      S.StepAllAppend(scr.t, d, o.acts, P.Resume(o.p, rest).acts);
      hide P.Step, P.Run, P.Resume, P.Wf, S.StepAll, Screen.Valid, Screen.Shown;
      Step(b, scr);
    }
  }
}
