/**
  What each event of an eCall session makes it call back, and where it leaves the session, written out
  as tables over the configuration; the nested state entries of EcallModel are proved to add up to
  them. On the tables rest the laws about the call states a caller sees.
 */
module EcallScript {
  import opened Common
  import opened EcallModel
  import opened EcallTheorems

  // ---------------------------------------------------------------------------------------------
  // The tables
  // ---------------------------------------------------------------------------------------------

  const CallActive := ChangeCallState(ACTIVE)
  const CallEnded := ChangeCallState(ENDED)

  /** From the CRC check of a circuit-switched call on. */
  function CrcScript(c: Config): seq<Callback> {
    if T7 in c.failed then [StartTimer(T7)]
    else if T6 in c.failed then
      if c.custom then [] else [SendEvent(T7, true), StartTimer(T6), SendEvent(T7, false), Msd(LL_ACK_RECEIVED)]
    else if c.custom then [Msd(MSD_TRANSMISSION_SUCCESS)]
    else [SendEvent(T7, true), SendEvent(T6, true), Msd(MSD_TRANSMISSION_SUCCESS), SendEvent(T6, false),
          SendEvent(T7, false), Msd(LL_ACK_RECEIVED)]
  }

  /** From the moment the PSAP has answered, or pulls the MSD. */
  function AnswerScript(c: Config, pulled: bool): seq<Callback> {
    if c.ng && c.msd then
      if c.custom then [CallActive, Msd(OUTBAND_MSD_TRANSMISSION_SUCCESS)]
      else [Msd(OUTBAND_MSD_TRANSMISSION_STARTED), CallActive, Msd(OUTBAND_MSD_TRANSMISSION_SUCCESS)]
    else if c.ng then []
    else if !c.msd then
      if pulled && !c.custom then [Msd(MSD_TRANSMISSION_STARTED), CallActive] else [CallActive]
    else if pulled then
      (if c.custom then [Msd(MSD_TRANSMISSION_STARTED)] else [Msd(START_RECEIVED), Msd(MSD_TRANSMISSION_STARTED)])
      + CrcScript(c)
    else if c.custom then [Msd(MSD_TRANSMISSION_STARTED), CallActive] + CrcScript(c)
    else if T5 in c.failed then [Msd(MSD_TRANSMISSION_STARTED), CallActive, Msd(START_RECEIVED)]
    else [Msd(MSD_TRANSMISSION_STARTED), CallActive, Msd(START_RECEIVED), SendEvent(T5, false)] + CrcScript(c)
  }

  /** Where an answered call comes to rest: in conversation unless a forced failure holds it up. */
  function RestState(c: Config, pulled: bool): State {
    if c.ng || !c.msd then CallConversation
    else if !pulled && !c.custom && T5 in c.failed then DecodeSendMSD
    else if T7 in c.failed then CRCCheckonMSD
    else if T6 in c.failed then DecodeMSD
    else CallConversation
  }

  /** Only a completed MSD exchange clears the update that a pull started. */
  function Answered(c: Config, s: Session): Session {
    var rest := RestState(c, s.pulled);
    s.(state := rest, updating := s.updating && !(c.msd && s.pulled && rest == CallConversation))
  }

  function StartScript(c: Config, pulled: bool): seq<Callback>
    requires WellFormed(c)
  {
    if c.mode == Some(CALLORIG) then [ChangeCallState(DIALING), CallEnded, StartRedialTimer(c.gaps[0])]
    else if c.custom then [ChangeCallState(DIALING), ChangeCallState(ALERTING)] + AnswerScript(c, pulled)
    else if c.ng || !c.msd then
      [ChangeCallState(DIALING), ChangeCallState(ALERTING), StartTimer(T2)] + AnswerScript(c, pulled)
    else
      [ChangeCallState(DIALING), ChangeCallState(ALERTING), StartTimer(T2),
       if T5 in c.failed then StartTimer(T5) else SendEvent(T5, true)] + AnswerScript(c, pulled)
  }

  /** A regulatory call starts T9 when it enters PSAPCallback. */
  function CallbackScript(c: Config): seq<Callback> { if c.custom then [] else [StartTimer(T9)] }

  function ExpiryScript(c: Config, state: State, t: Timer, ecallOnly: bool): seq<Callback>
    requires WellFormed(c)
  {
    match state
    case DecodeSendMSD => if t == T5 && T5 in c.failed then [ExpiryTimer(T5), Msd(MSD_TRANSMISSION_FAILURE)] else []
    case CRCCheckonMSD => if t == T7 then [ExpiryTimer(T7), Msd(MSD_TRANSMISSION_FAILURE)] else []
    case DecodeMSD => if t == T6 && !c.custom && !c.ng then [ExpiryTimer(T6), Msd(MSD_TRANSMISSION_FAILURE)] else []
    case CallConversation =>
      if t != T2 || c.custom then []
      else [ExpiryTimer(T2), CallEnded, if c.mode == Some(CALLDROP) then StartRedialTimer(c.gaps[0]) else StartTimer(T9)]
    case PSAPCallback =>
      if t == T9 && !c.custom then [ExpiryTimer(T9), if ecallOnly then StartTimer(T10) else OnTerminal]
      else if t == T10 then [ExpiryTimer(T10)] else []
    case _ => []
  }

  function RedialScript(c: Config, s: Session): seq<Callback>
    requires WellFormed(c) && Sound(c, s)
  {
    if s.state != Redialing then []
    else if c.succeedAt == Some(s.attempt) then
      [ChangeCallState(DIALING), CallActive, OnRedial(false, CALL_CONNECTED)] + AnswerScript(c, s.pulled)
    else if s.attempt < |c.gaps| then
      [ChangeCallState(DIALING), CallEnded,
       OnRedial(true, if c.mode == Some(CALLORIG) then CALL_ORIG_FAILURE else CALL_DROP), StartRedialTimer(c.gaps[s.attempt])]
    else [ChangeCallState(DIALING), CallEnded, OnRedial(false, MAX_REDIAL_ATTEMPTED)] + CallbackScript(c)
  }

  /** Every callback that an event makes, in order. */
  function Script(c: Config, s: Session, e: Event): seq<Callback>
    requires WellFormed(c) && Sound(c, s)
  {
    match e
    case Start => StartScript(c, s.pulled)
    case Hangup =>
      if s.state == PSAPCallback || s.state == Terminal then []
      else if s.state == Redialing || c.custom then [CallEnded] + CallbackScript(c)
      else [CallEnded, SendEvent(T2, false), StartTimer(T9)]
    case MsdPull =>
      if s.state != CallConversation then []
      else if c.ng then
        if c.custom then [Msd(OUTBAND_MSD_TRANSMISSION_SUCCESS)]
        else [Msd(OUTBAND_MSD_TRANSMISSION_STARTED), Msd(OUTBAND_MSD_TRANSMISSION_SUCCESS)]
      else AnswerScript(c, true)
    case Deregister => if s.state == PSAPCallback && !c.custom then [SendEvent(T10, false)] else []
    case HlapExpiry(t, ecallOnly) => ExpiryScript(c, s.state, t, ecallOnly)
    case RedialExpiry => RedialScript(c, s)
  }

  /** Where a timer expiry leaves the session. */
  function ExpiredState(c: Config, state: State, t: Timer, ecallOnly: bool): State {
    match state
    case DecodeSendMSD => if t == T5 && T5 in c.failed then CallConversation else state
    case CRCCheckonMSD => if t == T7 then CallConversation else state
    case DecodeMSD => if t == T6 && !c.custom && !c.ng then CallConversation else state
    case CallConversation =>
      if t != T2 || c.custom then state else if c.mode == Some(CALLDROP) then Redialing else PSAPCallback
    case PSAPCallback => if t == T9 && !c.custom && !ecallOnly then Terminal else state
    case _ => state
  }

  /** Where an event leaves the session. */
  function Next(c: Config, s: Session, e: Event): Session
    requires WellFormed(c) && Sound(c, s)
  {
    match e
    case Start => if c.mode == Some(CALLORIG) then s.(state := Redialing, attempt := 1) else Answered(c, s)
    case Hangup => if s.state == Terminal then s else s.(state := PSAPCallback)
    case MsdPull =>
      if s.state != CallConversation then s.(pulled := true)
      else if c.ng then s.(pulled := true, updating := false)
      else Answered(c, s.(pulled := true, updating := true))
    case Deregister => s
    case HlapExpiry(t, ecallOnly) =>
      var state := ExpiredState(c, s.state, t, ecallOnly);
      if state == Redialing && s.state != Redialing then s.(state := state, attempt := 1) else s.(state := state)
    case RedialExpiry =>
      if s.state != Redialing then s
      else if c.succeedAt == Some(s.attempt) then Answered(c, s)
      else if s.attempt < |c.gaps| then s.(attempt := s.attempt + 1)
      else s.(state := PSAPCallback)
  }

  // ---------------------------------------------------------------------------------------------
  // The state entries add up to the tables
  // ---------------------------------------------------------------------------------------------

  /** Appending one callback after another is appending them together. */
  lemma Join(a: seq<Callback>, b: seq<Callback>, d: seq<Callback>)
    ensures (a + b) + d == a + (b + d)
  {}

  /** `m` was reached from `s` and `p` by making exactly the callbacks `cbs`. */
  ghost predicate Makes(p: Port, cbs: seq<Callback>, s: Session, m: Move) {
    m.p.out == p.out + cbs && m.s == s
  }

  lemma CrcMakes(c: Config, s: Session, p: Port)
    requires !c.ng && c.msd
    ensures Makes(p, CrcScript(c),
                  if T7 in c.failed then s.(state := CRCCheckonMSD)
                  else if T6 in c.failed then s.(state := DecodeMSD)
                  else s.(state := CallConversation, updating := s.updating && !s.pulled),
                  EnterCrcCheck(c, s, p))
  {}

  lemma AnswerMakes(c: Config, s: Session, p: Port)
    ensures Makes(p, AnswerScript(c, s.pulled), Answered(c, s), EnterDecodeSendMsd(c, s, p))
  {
    if !c.ng && c.msd {
      forall q ensures EnterCrcCheck(c, s, q).p.out == q.out + CrcScript(c) { CrcMakes(c, s, q); }
      CrcMakes(c, s, p);
      CsAnswerMakes(c, s, p);
    }
  }

  lemma CsAnswerMakes(c: Config, s: Session, p: Port)
    requires !c.ng && c.msd
    ensures Makes(p, AnswerScript(c, s.pulled), Answered(c, s), EnterDecodeSendMsd(c, s, p))
  {
    var before := if s.pulled then
                    (if c.custom then [Msd(MSD_TRANSMISSION_STARTED)] else [Msd(START_RECEIVED), Msd(MSD_TRANSMISSION_STARTED)])
                  else if c.custom then [Msd(MSD_TRANSMISSION_STARTED), CallActive]
                  else [Msd(MSD_TRANSMISSION_STARTED), CallActive, Msd(START_RECEIVED), SendEvent(T5, false)];
    Join(p.out, before, CrcScript(c));
    if s.pulled {
      var q := Emit(EmitIf(p, !c.custom, Msd(START_RECEIVED)), Msd(MSD_TRANSMISSION_STARTED));
      assert q.out == p.out + before;
      CrcMakes(c, s, q);
    } else {
      var p1 := Emit(Emit(p, Msd(MSD_TRANSMISSION_STARTED)), ChangeCallState(ACTIVE));
      var p2 := EmitIf(p1, !c.custom, Msd(START_RECEIVED));
      if c.custom || T5 !in c.failed {
        var q := EmitIf(p2, !c.custom, SendEvent(T5, false));
        assert q.out == p.out + before;
        CrcMakes(c, s, q);
      }
    }
  }

  lemma StartMakes(c: Config, s: Session, p: Port)
    requires WellFormed(c)
    ensures Makes(p, StartScript(c, s.pulled), Next(c, s.(state := CallConnect), Start), EnterCallConnect(c, s.(state := CallConnect), p))
  {
    if c.mode != Some(CALLORIG) {
      var p1 := Emit(Emit(p, ChangeCallState(DIALING)), ChangeCallState(ALERTING));
      var p2 := EmitIf(p1, !c.custom, StartTimer(T2));
      var t5 := if T5 in c.failed then StartTimer(T5) else SendEvent(T5, true);
      var p3 := EmitIf(p2, !c.custom && !c.ng && c.msd, t5);
      var before := if c.custom then [ChangeCallState(DIALING), ChangeCallState(ALERTING)]
                    else if c.ng || !c.msd then [ChangeCallState(DIALING), ChangeCallState(ALERTING), StartTimer(T2)]
                    else [ChangeCallState(DIALING), ChangeCallState(ALERTING), StartTimer(T2), t5];
      assert p3.out == p.out + before;
      AnswerMakes(c, s.(state := CallConnect), p3);
      Join(p.out, before, AnswerScript(c, s.pulled));
    }
  }

  lemma RedialMakes(c: Config, s: Session, p: Port)
    requires WellFormed(c) && Sound(c, s)
    ensures Makes(p, RedialScript(c, s), Next(c, s, RedialExpiry), OnRedialExpiry(c, s, p))
  {
    if s.state == Redialing && c.succeedAt == Some(s.attempt) {
      var p3 := Emit(Emit(Emit(p, ChangeCallState(DIALING)), ChangeCallState(ACTIVE)), OnRedial(false, CALL_CONNECTED));
      var before := [ChangeCallState(DIALING), CallActive, OnRedial(false, CALL_CONNECTED)];
      assert p3.out == p.out + before;
      AnswerMakes(c, s, p3);
      Join(p.out, before, AnswerScript(c, s.pulled));
    }
  }

  lemma ExpiryMakes(c: Config, s: Session, p: Port, t: Timer, ecallOnly: bool)
    requires WellFormed(c) && Sound(c, s)
    ensures Makes(p, ExpiryScript(c, s.state, t, ecallOnly), Next(c, s, HlapExpiry(t, ecallOnly)),
                  OnHlapExpiry(c, s, Delivered(p, t), t, ecallOnly))
  {}

  /** Every event makes exactly the callbacks of its table entry, in order, and leaves the session there. */
  lemma StepFollowsScript(c: Config, s: Session, p: Port, e: Event)
    requires WellFormed(c) && Sound(c, s)
    ensures Makes(p, Script(c, s, e), Next(c, s, e), Step(c, s, p, e))
  {
    match e
    case Start => StartMakes(c, s, p);
    case Hangup =>
    case MsdPull =>
      if s.state == CallConversation && !c.ng { AnswerMakes(c, s.(pulled := true, updating := true), p); }
    case Deregister =>
    case HlapExpiry(t, ecallOnly) => ExpiryMakes(c, s, p, t, ecallOnly);
    case RedialExpiry => RedialMakes(c, s, p);
  }

  // ---------------------------------------------------------------------------------------------
  // The call states a caller sees
  // ---------------------------------------------------------------------------------------------

  /** The call states among some callbacks. */
  function PhasesOf(out: seq<Callback>): seq<Phase> {
    if out == [] then []
    else
      var last := out[|out| - 1];
      PhasesOf(out[..|out| - 1]) + (if last.ChangeCallState? then [last.phase] else [])
  }

  lemma {:induction false} PhasesConcat(a: seq<Callback>, b: seq<Callback>)
    ensures PhasesOf(a + b) == PhasesOf(a) + PhasesOf(b)
    decreases |b|
  {
    if b == [] {
      assert a + b == a;
    } else {
      assert (a + b)[..|a + b| - 1] == a + b[..|b| - 1];
      PhasesConcat(a, b[..|b| - 1]);
    }
  }

  lemma PhaseOfOne(cb: Callback)
    ensures PhasesOf([cb]) == if cb.ChangeCallState? then [cb.phase] else []
  {
    assert [cb][..0] == [];
  }

  lemma {:induction false} NoPhases(cbs: seq<Callback>)
    requires forall cb :: cb in cbs ==> !cb.ChangeCallState?
    ensures PhasesOf(cbs) == []
  {
    if cbs != [] { NoPhases(cbs[..|cbs| - 1]); }
  }

  /** Callbacks whose only call states are the ones at their head. */
  lemma PhasesThenNone(a: seq<Callback>, b: seq<Callback>)
    requires forall cb :: cb in b ==> !cb.ChangeCallState?
    ensures PhasesOf(a + b) == PhasesOf(a)
  {
    PhasesConcat(a, b);
    NoPhases(b);
  }

  lemma PhasesOfTwo(a: Callback, b: Callback)
    requires a.ChangeCallState? && b.ChangeCallState?
    ensures PhasesOf([a, b]) == [a.phase, b.phase]
  {
    assert [a, b] == [a] + [b];
    PhasesConcat([a], [b]);
    PhaseOfOne(a);
    PhaseOfOne(b);
  }

  /** An answered call that is not reported ACTIVE: without an MSD over NG, or with the MSD pulled beforehand. */
  predicate Unannounced(c: Config, pulled: bool) {
    if c.ng then !c.msd else c.msd && pulled
  }

  /** Callbacks with one call state, ACTIVE, at position `n`. */
  lemma OnlyActive(cbs: seq<Callback>, n: nat)
    requires n < |cbs| && cbs[n] == CallActive && forall i :: 0 <= i < |cbs| && i != n ==> !cbs[i].ChangeCallState?
    ensures PhasesOf(cbs) == [ACTIVE]
  {
    assert cbs == cbs[..n] + ([CallActive] + cbs[n + 1..]);
    PhasesConcat(cbs[..n], [CallActive] + cbs[n + 1..]);
    NoPhases(cbs[..n]);
    PhasesThenNone([CallActive], cbs[n + 1..]);
    PhaseOfOne(CallActive);
  }

  /** What an announced circuit-switched call with an MSD calls back before its CRC check. */
  function AnnouncedHead(c: Config): seq<Callback> {
    if c.custom then [Msd(MSD_TRANSMISSION_STARTED), CallActive]
    else if T5 in c.failed then [Msd(MSD_TRANSMISSION_STARTED), CallActive, Msd(START_RECEIVED)]
    else [Msd(MSD_TRANSMISSION_STARTED), CallActive, Msd(START_RECEIVED), SendEvent(T5, false)]
  }

  lemma AnswerPhases(c: Config, pulled: bool)
    ensures PhasesOf(AnswerScript(c, pulled)) == if Unannounced(c, pulled) then [] else [ACTIVE]
  {
    var script := AnswerScript(c, pulled);
    if c.ng || !c.msd {
      if Unannounced(c, pulled) { NoPhases(script); } else { OnlyActive(script, if script[0] == CallActive then 0 else 1); }
    } else if pulled {
      PhasesThenNone(if c.custom then [Msd(MSD_TRANSMISSION_STARTED)] else [Msd(START_RECEIVED), Msd(MSD_TRANSMISSION_STARTED)],
                     CrcScript(c));
      NoPhases(if c.custom then [Msd(MSD_TRANSMISSION_STARTED)] else [Msd(START_RECEIVED), Msd(MSD_TRANSMISSION_STARTED)]);
    } else {
      OnlyActive(AnnouncedHead(c), 1);
      PhasesThenNone(AnnouncedHead(c), CrcScript(c));
    }
  }

  /** What a start shows the caller. */
  function StartPhases(c: Config, pulled: bool): seq<Phase> {
    if c.mode == Some(CALLORIG) then [DIALING, ENDED]
    else if Unannounced(c, pulled) then [DIALING, ALERTING]
    else [DIALING, ALERTING, ACTIVE]
  }

  lemma StartScriptPhases(c: Config, pulled: bool)
    requires WellFormed(c)
    ensures PhasesOf(StartScript(c, pulled)) == StartPhases(c, pulled)
  {
    var script := StartScript(c, pulled);
    if c.mode == Some(CALLORIG) {
      assert script == [ChangeCallState(DIALING), CallEnded] + [StartRedialTimer(c.gaps[0])];
      PhasesOfTwo(ChangeCallState(DIALING), CallEnded);
      PhasesThenNone([ChangeCallState(DIALING), CallEnded], [StartRedialTimer(c.gaps[0])]);
    } else {
      StartHeadPhases(c, pulled, |script| - |AnswerScript(c, pulled)|);
    }
  }

  lemma StartHeadPhases(c: Config, pulled: bool, n: nat)
    requires WellFormed(c) && c.mode != Some(CALLORIG) && n == |StartScript(c, pulled)| - |AnswerScript(c, pulled)|
    ensures PhasesOf(StartScript(c, pulled)) == StartPhases(c, pulled)
  {
    var script, dial := StartScript(c, pulled), [ChangeCallState(DIALING), ChangeCallState(ALERTING)];
    assert script == script[..n] + AnswerScript(c, pulled) && script[..n] == dial + script[2..n];
    PhasesConcat(script[..n], AnswerScript(c, pulled));
    PhasesOfTwo(dial[0], dial[1]);
    PhasesThenNone(dial, script[2..n]);
    AnswerPhases(c, pulled);
  }

  /** A start publishes DIALING and then, by the configuration alone, ENDED, ALERTING, or ALERTING and ACTIVE. */
  lemma StartPublishes(c: Config, s: Session, p: Port)
    requires WellFormed(c) && Sound(c, s)
    ensures PhasesOf(Step(c, s, p, Start).p.out) == PhasesOf(p.out) + StartPhases(c, s.pulled)
  {
    StepFollowsScript(c, s, p, Start);
    PhasesConcat(p.out, StartScript(c, s.pulled));
    StartScriptPhases(c, s.pulled);
  }

  /** The call state last shown. */
  function Shown(out: seq<Callback>): Option<Phase> {
    var ps := PhasesOf(out);
    if ps == [] then None else Some(ps[|ps| - 1])
  }

  lemma ShownAfter(a: seq<Callback>, b: seq<Callback>)
    ensures Shown(a + b) == if PhasesOf(b) == [] then Shown(a) else Shown(b)
  {
    PhasesConcat(a, b);
  }

  lemma RedialScriptShows(c: Config, s: Session)
    requires WellFormed(c) && Sound(c, s) && s.state == Redialing && c.succeedAt == Some(s.attempt)
    ensures Shown(RedialScript(c, s)) == Some(ACTIVE)
  {
    var dial := [ChangeCallState(DIALING), CallActive];
    var before := dial + [OnRedial(false, CALL_CONNECTED)];
    assert RedialScript(c, s) == before + AnswerScript(c, s.pulled);
    PhasesOfTwo(dial[0], dial[1]);
    PhasesThenNone(dial, [OnRedial(false, CALL_CONNECTED)]);
    AnswerPhases(c, s.pulled);
    ShownAfter(before, AnswerScript(c, s.pulled));
  }

  /** A call is shown ACTIVE as long as it lasts. */
  predicate ShownActive(m: Move) { InCall(m.s.state) ==> Shown(m.p.out) == Some(ACTIVE) }

  /** The callbacks of an event short of a start, as far as a call in progress is concerned. */
  lemma ScriptKeepsActive(c: Config, s: Session, e: Event)
    requires WellFormed(c) && Sound(c, s) && !e.Start? && InCall(Next(c, s, e).state)
    ensures Shown(Script(c, s, e)) == Some(ACTIVE) || (InCall(s.state) && PhasesOf(Script(c, s, e)) == [])
  {
    match e
    case Hangup =>
    case MsdPull => if s.state == CallConversation && !c.ng { AnswerPhases(c, true); } else { NoPhases(Script(c, s, e)); }
    case Deregister => NoPhases(Script(c, s, e));
    case HlapExpiry(_, _) => NoPhases(Script(c, s, e));
    case RedialExpiry =>
      if s.state == Redialing && c.succeedAt == Some(s.attempt) {
        RedialScriptShows(c, s);
      } else {
        NoPhases(Script(c, s, e));
      }
  }

  lemma StepShowsActive(c: Config, s: Session, p: Port, e: Event)
    requires WellFormed(c) && Sound(c, s) && ShownActive(Move(s, p))
    requires e.Start? ==> c.mode == Some(CALLORIG) || !Unannounced(c, s.pulled)
    ensures ShownActive(Step(c, s, p, e))
  {
    StepFollowsScript(c, s, p, e);
    ShownAfter(p.out, Script(c, s, e));
    if e.Start? {
      StartScriptPhases(c, s.pulled);
    } else if InCall(Next(c, s, e).state) {
      ScriptKeepsActive(c, s, e);
    }
  }

  lemma StepPulled(c: Config, s: Session, p: Port, e: Event)
    requires WellFormed(c) && Sound(c, s)
    ensures Step(c, s, p, e).s.pulled <==> s.pulled || e.MsdPull?
  {
    StepFollowsScript(c, s, p, e);
  }

  lemma {:induction false} RunPulled(c: Config, es: seq<Event>)
    requires WellFormed(c)
    ensures Run(c, Fresh, Silent, es).s.pulled <==> MsdPull in es
    decreases |es|
  {
    if es != [] {
      var front, e := es[..|es| - 1], es[|es| - 1];
      assert es == front + [e];
      RunPulled(c, front);
      StepPulled(c, Run(c, Fresh, Silent, front).s, Run(c, Fresh, Silent, front).p, e);
    }
  }

  /** No MSD was pulled before the latest start. */
  predicate StartedUnpulled(es: seq<Event>) {
    forall n :: 0 <= n < |es| && es[n] == Start && Start !in es[n + 1..] ==> MsdPull !in es[..n]
  }

  lemma StartedUnpulledFront(front: seq<Event>, e: Event)
    requires StartedUnpulled(front + [e])
    ensures e == Start ==> MsdPull !in front
    ensures e != Start ==> StartedUnpulled(front)
  {
    var es := front + [e];
    assert es[|front|] == e && es[..|front|] == front && es[|front| + 1..] == [];
    forall n | 0 <= n < |front| && e != Start && front[n] == Start && Start !in front[n + 1..] ensures MsdPull !in front[..n] {
      assert es[n] == Start && es[n + 1..] == front[n + 1..] + [e] && es[..n] == front[..n];
    }
  }

  /**
    Over every run of a call that is circuit-switched or has an MSD, no MSD having been pulled before
    its latest start: whenever it is in progress, the call state last shown is ACTIVE.
   */
  lemma {:induction false} InProgressShownActive(c: Config, es: seq<Event>)
    requires WellFormed(c) && (c.msd || !c.ng) && StartedUnpulled(es)
    ensures ShownActive(Run(c, Fresh, Silent, es))
    decreases |es|
  {
    if es != [] {
      var front, e := es[..|es| - 1], es[|es| - 1];
      assert es == front + [e];
      StartedUnpulledFront(front, e);
      var m := Run(c, Fresh, Silent, front);
      RunPulled(c, front);
      if e == Start {
        StepShowsStart(c, m.s, m.p);
      } else {
        InProgressShownActive(c, front);
        StepShowsActive(c, m.s, m.p, e);
      }
    }
  }

  lemma StepShowsStart(c: Config, s: Session, p: Port)
    requires WellFormed(c) && Sound(c, s) && (c.mode == Some(CALLORIG) || !Unannounced(c, s.pulled))
    ensures ShownActive(Step(c, s, p, Start))
  {
    StepFollowsScript(c, s, p, Start);
    StartScriptPhases(c, s.pulled);
    ShownAfter(p.out, StartScript(c, s.pulled));
  }

  /** The configurations whose calls are shown ACTIVE however the events fall. */
  predicate AlwaysAnnounced(c: Config) {
    c.mode == Some(CALLORIG) || (c.ng <==> c.msd)
  }

  lemma {:induction false} AnnouncedRun(c: Config, es: seq<Event>)
    requires WellFormed(c) && AlwaysAnnounced(c)
    ensures ShownActive(Run(c, Fresh, Silent, es))
    decreases |es|
  {
    if es != [] {
      var front, e := es[..|es| - 1], es[|es| - 1];
      AnnouncedRun(c, front);
      StepShowsActive(c, Run(c, Fresh, Silent, front).s, Run(c, Fresh, Silent, front).p, e);
    }
  }

  lemma UnannouncedRun(c: Config) returns (es: seq<Event>)
    requires WellFormed(c) && !AlwaysAnnounced(c)
    ensures !ShownActive(Run(c, Fresh, Silent, es))
  {
    if c.ng {
      es := [Start];
      RunOne(c, Fresh, Silent, Start);
      UnannouncedStart(c, Fresh, Silent);
    } else {
      es := [MsdPull, Start];
      EarlyPull(c);
      RunTwo(c, Fresh, Silent, MsdPull, Start);
      UnannouncedStart(c, Fresh.(pulled := true), Silent);
    }
  }

  lemma EarlyPull(c: Config)
    requires WellFormed(c)
    ensures Step(c, Fresh, Silent, MsdPull) == Move(Fresh.(pulled := true), Silent)
  {}

  lemma UnannouncedStart(c: Config, s: Session, p: Port)
    requires WellFormed(c) && Sound(c, s) && c.mode != Some(CALLORIG) && Unannounced(c, s.pulled)
    ensures !ShownActive(Step(c, s, p, Start))
  {
    StepFollowsScript(c, s, p, Start);
    StartPublishes(c, s, p);
  }

  /**
    Over all event sequences a call in progress is always shown ACTIVE if and only if its origination is
    made to fail first, or it is circuit-switched without an MSD, or NG with one.
   */
  lemma AlwaysShownActiveIff(c: Config)
    requires WellFormed(c)
    ensures (forall es: seq<Event> :: ShownActive(Run(c, Fresh, Silent, es))) <==> AlwaysAnnounced(c)
  {
    if AlwaysAnnounced(c) {
      forall es: seq<Event> ensures ShownActive(Run(c, Fresh, Silent, es)) { AnnouncedRun(c, es); }
    } else {
      var es := UnannouncedRun(c);
      assert !ShownActive(Run(c, Fresh, Silent, es));
    }
  }
}
