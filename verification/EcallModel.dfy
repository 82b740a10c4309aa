/**
  One eCall, as a transition function.

  Every event moves the session through its nested state entries, which call back into the owning
  manager on the way. The callbacks go through a port that keeps them in order and maintains, beside
  the sequence, the few facts about it that the properties below are stated in; `Honest` ties each of
  those facts to the sequence itself. The manager's reaction is in EcallManagerModel.dfy.
 */
module EcallModel {
  import opened Common

  datatype Timer = T2 | T5 | T6 | T7 | T9 | T10

  datatype Phase = DIALING | ALERTING | ACTIVE | ENDED

  datatype RedialMode = CALLORIG | CALLDROP

  datatype MsdStatus =
    | START_RECEIVED | MSD_TRANSMISSION_STARTED | MSD_TRANSMISSION_SUCCESS | MSD_TRANSMISSION_FAILURE
    | LL_ACK_RECEIVED | OUTBAND_MSD_TRANSMISSION_STARTED | OUTBAND_MSD_TRANSMISSION_SUCCESS

  datatype RedialReason = CALL_CONNECTED | CALL_ORIG_FAILURE | CALL_DROP | MAX_REDIAL_ATTEMPTED

  datatype Callback =
    | ChangeCallState(phase: Phase)
    | StartTimer(timer: Timer)                // schedules a real expiry
    | SendEvent(timer: Timer, start: bool)    // reports STARTED/STOPPED only
    | ExpiryTimer(timer: Timer)
    | Msd(status: MsdStatus)
    | OnTerminal
    | StartRedialTimer(delay: int)
    | OnRedial(willRedial: bool, reason: RedialReason)

  datatype State =
    | CallConnect | DecodeSendMSD | CRCCheckonMSD | DecodeMSD | CallConversation
    | PSAPCallback | Redialing | Terminal

  /** What is fixed when the session is created. */
  datatype Config = Config(
    msd: bool, ng: bool, custom: bool, failed: set<Timer>,
    mode: Option<RedialMode>, succeedAt: Option<int>, gaps: seq<int>)

  datatype Session = Session(state: State, pulled: bool, attempt: nat, updating: bool)

  datatype Event =
    | Start
    | Hangup
    | MsdPull
    | Deregister
    | HlapExpiry(timer: Timer, ecallOnly: bool)
    | RedialExpiry

  /** Every callback made so far, and what follows from them. */
  datatype Port = Port(
    out: seq<Callback>,
    lastDial: Option<Phase>,   // the last of DIALING and ENDED
    disciplined: bool,         // ALERTING and ACTIVE only came after a DIALING with no ENDED since
    redial: seq<Callback>,     // the redial callbacks, in order
    armed: set<Timer>)         // timers whose real expiry is scheduled and not yet delivered

  const Silent := Port([], None, true, [], {})

  datatype Move = Move(s: Session, p: Port)

  const Fresh := Session(CallConnect, false, 0, false)

  /** A session that may redial has a redial table: the manager never creates another kind. */
  predicate WellFormed(c: Config) {
    c.mode.Some? ==> c.gaps != []
  }

  /** The redial index always points into the table. */
  predicate Sound(c: Config, s: Session) {
    s.state == Redialing ==> c.mode.Some? && 1 <= s.attempt <= |c.gaps|
  }

  // ---------------------------------------------------------------------------------------------
  // The port
  // ---------------------------------------------------------------------------------------------

  predicate NeedsDial(cb: Callback) { cb == ChangeCallState(ALERTING) || cb == ChangeCallState(ACTIVE) }

  predicate AboutRedial(cb: Callback) { cb.StartRedialTimer? || cb.OnRedial? }

  function LastDial(out: seq<Callback>): Option<Phase> {
    if out == [] then None
    else
      var last := out[|out| - 1];
      if last == ChangeCallState(DIALING) then Some(DIALING)
      else if last == ChangeCallState(ENDED) then Some(ENDED)
      else LastDial(out[..|out| - 1])
  }

  /** ALERTING and ACTIVE are published only when the call was dialled and has not ended since. */
  ghost predicate Disciplined(out: seq<Callback>) {
    forall i :: 0 <= i < |out| && NeedsDial(out[i]) ==> LastDial(out[..i]) == Some(DIALING)
  }

  /** The recorded facts are facts about the callback sequence. */
  ghost predicate Honest(p: Port) {
    && p.lastDial == LastDial(p.out)
    && (p.disciplined <==> Disciplined(p.out))
    && p.redial == Filter(AboutRedial, p.out)
  }

  function Emit(p: Port, cb: Callback): Port
  {
    Port(
      p.out + [cb],
      if cb == ChangeCallState(DIALING) then Some(DIALING)
      else if cb == ChangeCallState(ENDED) then Some(ENDED) else p.lastDial,
      p.disciplined && (NeedsDial(cb) ==> p.lastDial == Some(DIALING)),
      if AboutRedial(cb) then p.redial + [cb] else p.redial,
      if cb.StartTimer? then p.armed + {cb.timer} else p.armed)
  }

  lemma DisciplinedLast(out: seq<Callback>, cb: Callback)
    ensures Disciplined(out + [cb]) <==> Disciplined(out) && (NeedsDial(cb) ==> LastDial(out) == Some(DIALING))
  {
    var all, n := out + [cb], |out|;
    assert all[..n] == out && all[n] == cb;
    assert forall i :: 0 <= i < n ==> all[i] == out[i] && all[..i] == out[..i];
    if Disciplined(all) {
      forall i | 0 <= i < n && NeedsDial(out[i]) ensures LastDial(out[..i]) == Some(DIALING) {
        assert NeedsDial(all[i]);
      }
    }
  }

  lemma ProjectionsLast(out: seq<Callback>, cb: Callback)
    ensures LastDial(out + [cb]) == if cb == ChangeCallState(DIALING) then Some(DIALING)
                                    else if cb == ChangeCallState(ENDED) then Some(ENDED) else LastDial(out)
    ensures Filter(AboutRedial, out + [cb])
            == if AboutRedial(cb) then Filter(AboutRedial, out) + [cb] else Filter(AboutRedial, out)
  {
    assert (out + [cb])[..|out|] == out;
    FilterConcat(AboutRedial, out, [cb]);
    assert Filter(AboutRedial, [cb]) == if AboutRedial(cb) then [cb] else [] by { assert [cb][1..] == []; }
  }

  lemma EmitHonest(p: Port, cb: Callback)
    requires Honest(p)
    ensures Honest(Emit(p, cb))
  {
    ProjectionsLast(p.out, cb);
    DisciplinedLast(p.out, cb);
  }

  /** A callback made only when `on`. */
  function EmitIf(p: Port, on: bool, cb: Callback): Port {
    if on then Emit(p, cb) else p
  }

  // ---------------------------------------------------------------------------------------------
  // State entries
  // ---------------------------------------------------------------------------------------------

  function Settle(s: Session): Session {
    s.(state := CallConversation, updating := if s.pulled then false else s.updating)
  }

  function EnterDecodeMsd(c: Config, s: Session, p: Port): Move {
    if c.ng then Move(Settle(s), Emit(p, Msd(OUTBAND_MSD_TRANSMISSION_SUCCESS)))
    else if T6 in c.failed then Move(s.(state := DecodeMSD), EmitIf(p, !c.custom, StartTimer(T6)))
    else
      var p1 := EmitIf(p, !c.custom, SendEvent(T6, true));
      var p2 := Emit(p1, Msd(MSD_TRANSMISSION_SUCCESS));
      Move(Settle(s), EmitIf(p2, !c.custom, SendEvent(T6, false)))
  }

  function EnterCrcCheck(c: Config, s: Session, p: Port): Move {
    if T7 in c.failed then Move(s.(state := CRCCheckonMSD), Emit(p, StartTimer(T7)))
    else
      var m := EnterDecodeMsd(c, s, EmitIf(p, !c.custom, SendEvent(T7, true)));
      var p1 := EmitIf(m.p, !c.custom, SendEvent(T7, false));
      Move(m.s, EmitIf(p1, !c.custom, Msd(LL_ACK_RECEIVED)))
  }

  function EnterDecodeSendMsd(c: Config, s: Session, p: Port): Move {
    if c.ng && c.msd then
      var p1 := EmitIf(p, !c.custom, Msd(OUTBAND_MSD_TRANSMISSION_STARTED));
      EnterDecodeMsd(c, s, Emit(p1, ChangeCallState(ACTIVE)))
    else if c.ng then Move(s.(state := CallConversation), p)
    else if !c.msd then
      var p1 := EmitIf(p, !c.custom && s.pulled, Msd(MSD_TRANSMISSION_STARTED));
      Move(s.(state := CallConversation), Emit(p1, ChangeCallState(ACTIVE)))
    else if s.pulled then
      var p1 := EmitIf(p, !c.custom, Msd(START_RECEIVED));
      EnterCrcCheck(c, s, Emit(p1, Msd(MSD_TRANSMISSION_STARTED)))
    else
      var p1 := Emit(Emit(p, Msd(MSD_TRANSMISSION_STARTED)), ChangeCallState(ACTIVE));
      var p2 := EmitIf(p1, !c.custom, Msd(START_RECEIVED));
      if !c.custom && T5 in c.failed then Move(s.(state := DecodeSendMSD), p2)
      else EnterCrcCheck(c, s, EmitIf(p2, !c.custom, SendEvent(T5, false)))
  }

  function EnterPsapCallback(c: Config, s: Session, p: Port): Move {
    Move(s.(state := PSAPCallback), EmitIf(p, !c.custom, StartTimer(T9)))
  }

  function EnterRedialing(c: Config, s: Session, p: Port): Move
    requires c.gaps != []
  {
    Move(s.(state := Redialing, attempt := 1), Emit(p, StartRedialTimer(c.gaps[0])))
  }

  function EnterCallConnect(c: Config, s: Session, p: Port): Move
    requires WellFormed(c)
  {
    var p1 := Emit(p, ChangeCallState(DIALING));
    if c.mode == Some(CALLORIG) then EnterRedialing(c, s, Emit(p1, ChangeCallState(ENDED)))
    else
      var p2 := EmitIf(Emit(p1, ChangeCallState(ALERTING)), !c.custom, StartTimer(T2));
      var t5 := if T5 in c.failed then StartTimer(T5) else SendEvent(T5, true);
      EnterDecodeSendMsd(c, s, EmitIf(p2, !c.custom && !c.ng && c.msd, t5))
  }

  // ---------------------------------------------------------------------------------------------
  // Events
  // ---------------------------------------------------------------------------------------------

  predicate InCall(state: State) {
    state in {DecodeSendMSD, CRCCheckonMSD, DecodeMSD, CallConversation}
  }

  function OnHangup(c: Config, s: Session, p: Port): Move {
    if s.state == CallConnect || InCall(s.state) then
      EnterPsapCallback(c, s, EmitIf(Emit(p, ChangeCallState(ENDED)), !c.custom, SendEvent(T2, false)))
    else if s.state == Redialing then EnterPsapCallback(c, s, Emit(p, ChangeCallState(ENDED)))
    else Move(s, p)
  }

  function OnMsdPull(c: Config, s: Session, p: Port): Move {
    var s' := s.(pulled := true);
    if s.state != CallConversation then Move(s', p)
    else if c.ng then
      var p1 := EmitIf(p, !c.custom, Msd(OUTBAND_MSD_TRANSMISSION_STARTED));
      Move(s'.(updating := false), Emit(p1, Msd(OUTBAND_MSD_TRANSMISSION_SUCCESS)))
    else EnterDecodeSendMsd(c, s'.(updating := true), p)
  }

  /** A forced failure of the timer that the session is waiting for. */
  function MsdFailed(s: Session, p: Port, t: Timer): Move {
    Move(s.(state := CallConversation), Emit(Emit(p, ExpiryTimer(t)), Msd(MSD_TRANSMISSION_FAILURE)))
  }

  function OnHlapExpiry(c: Config, s: Session, p: Port, t: Timer, ecallOnly: bool): Move
    requires WellFormed(c)
  {
    if s.state == DecodeSendMSD && t == T5 && T5 in c.failed then MsdFailed(s, p, T5)
    else if s.state == CRCCheckonMSD && t == T7 then MsdFailed(s, p, T7)
    else if s.state == DecodeMSD && t == T6 && !c.custom && !c.ng then MsdFailed(s, p, T6)
    else if s.state == CallConversation && t == T2 && !c.custom then
      var p1 := Emit(Emit(p, ExpiryTimer(T2)), ChangeCallState(ENDED));
      if c.mode == Some(CALLDROP) then EnterRedialing(c, s, p1) else EnterPsapCallback(c, s, p1)
    else if s.state == PSAPCallback && t == T9 && !c.custom then
      if ecallOnly then Move(s, Emit(Emit(p, ExpiryTimer(T9)), StartTimer(T10)))
      else Move(s.(state := Terminal), Emit(Emit(p, ExpiryTimer(T9)), OnTerminal))
    else if s.state == PSAPCallback && t == T10 then Move(s, Emit(p, ExpiryTimer(T10)))
    else Move(s, p)
  }

  function FailureReason(c: Config): RedialReason {
    if c.mode == Some(CALLORIG) then CALL_ORIG_FAILURE else CALL_DROP
  }

  /** A failed redial attempt, already dialled: the next delay, or PSAPCallback after the last. */
  function AttemptFailed(c: Config, s: Session, p: Port): Move
    requires 1 <= s.attempt <= |c.gaps|
  {
    var p1 := Emit(p, ChangeCallState(ENDED));
    if s.attempt < |c.gaps| then
      var p2 := Emit(p1, OnRedial(true, FailureReason(c)));
      Move(s.(attempt := s.attempt + 1), Emit(p2, StartRedialTimer(c.gaps[s.attempt])))
    else EnterPsapCallback(c, s, Emit(p1, OnRedial(false, MAX_REDIAL_ATTEMPTED)))
  }

  function OnRedialExpiry(c: Config, s: Session, p: Port): Move
    requires Sound(c, s)
  {
    if s.state != Redialing then Move(s, p)
    else
      var p1 := Emit(p, ChangeCallState(DIALING));
      if c.succeedAt == Some(s.attempt) then
        var p2 := Emit(Emit(p1, ChangeCallState(ACTIVE)), OnRedial(false, CALL_CONNECTED));
        EnterDecodeSendMsd(c, s, p2)
      else AttemptFailed(c, s, p1)
  }

  function OnDeregister(c: Config, s: Session, p: Port): Move {
    Move(s, EmitIf(p, s.state == PSAPCallback && !c.custom, SendEvent(T10, false)))
  }

  function Delivered(p: Port, t: Timer): Port {
    p.(armed := p.armed - {t})
  }

  function Step(c: Config, s: Session, p: Port, e: Event): (m: Move)
    requires WellFormed(c) && Sound(c, s)
  {
    match e
    case Start => EnterCallConnect(c, s.(state := CallConnect), p)
    case Hangup => OnHangup(c, s, p)
    case MsdPull => OnMsdPull(c, s, p)
    case Deregister => OnDeregister(c, s, p)
    case HlapExpiry(t, ecallOnly) => OnHlapExpiry(c, s, Delivered(p, t), t, ecallOnly)
    case RedialExpiry => OnRedialExpiry(c, s, p)
  }

  /** Every event leaves the redial index inside the table. */
  lemma StepSound(c: Config, s: Session, p: Port, e: Event)
    requires WellFormed(c) && Sound(c, s)
    ensures Sound(c, Step(c, s, p, e).s)
  {
    match e
    case Start =>
    case Hangup =>
    case MsdPull =>
    case Deregister =>
    case HlapExpiry(_, _) =>
    case RedialExpiry =>
  }

  /** A whole event sequence: final state and every callback made. */
  function Run(c: Config, s: Session, p: Port, es: seq<Event>): (m: Move)
    requires WellFormed(c) && Sound(c, s)
    ensures Sound(c, m.s)
  {
    if es == [] then Move(s, p)
    else
      var before := Run(c, s, p, es[..|es| - 1]);
      StepSound(c, before.s, before.p, es[|es| - 1]);
      Step(c, before.s, before.p, es[|es| - 1])
  }

  /** The one event that makes a session terminal. */
  predicate Terminates(c: Config, s: Session, e: Event) {
    s.state == PSAPCallback && !c.custom && e.HlapExpiry? && e.timer == T9 && !e.ecallOnly
  }

  /** Preserved by every single callback other than on_terminal. */
  ghost predicate Inductive(I: Port -> bool) {
    forall q, cb :: I(q) && cb != OnTerminal ==> I(Emit(q, cb))
  }

  lemma MsdEntriesPreserve(I: Port -> bool, c: Config, s: Session, p: Port)
    requires Inductive(I) && I(p)
    ensures I(EnterDecodeMsd(c, s, p).p) && I(EnterCrcCheck(c, s, p).p)
  {
    var p1 := EmitIf(p, !c.custom, SendEvent(T7, true));
    assert I(EnterDecodeMsd(c, s, p1).p);
  }

  lemma DecodeSendPreserves(I: Port -> bool, c: Config, s: Session, p: Port)
    requires Inductive(I) && I(p)
    ensures I(EnterDecodeSendMsd(c, s, p).p)
  {
    forall q | I(q) ensures I(EnterDecodeMsd(c, s, q).p) && I(EnterCrcCheck(c, s, q).p) {
      MsdEntriesPreserve(I, c, s, q);
    }
  }

  /** The port an event starts from: a delivered expiry is no longer outstanding. */
  function Before(p: Port, e: Event): Port {
    if e.HlapExpiry? then Delivered(p, e.timer) else p
  }

  lemma ConnectPreserves(I: Port -> bool, c: Config, s: Session, p: Port)
    requires WellFormed(c) && Inductive(I) && I(p)
    ensures I(EnterCallConnect(c, s, p).p)
  {
    forall q | I(q) ensures I(EnterDecodeSendMsd(c, s, q).p) { DecodeSendPreserves(I, c, s, q); }
  }

  lemma RedialPreserves(I: Port -> bool, c: Config, s: Session, p: Port)
    requires Sound(c, s) && Inductive(I) && I(p)
    ensures I(OnRedialExpiry(c, s, p).p)
  {
    forall q | I(q) ensures I(EnterDecodeSendMsd(c, s, q).p) { DecodeSendPreserves(I, c, s, q); }
  }

  /** Whatever holds when an event starts and every callback preserves still holds when it ends. */
  lemma StepPreserves(I: Port -> bool, c: Config, s: Session, p: Port, e: Event)
    requires WellFormed(c) && Sound(c, s)
    requires Inductive(I) && (Terminates(c, s, e) ==> forall q :: I(q) ==> I(Emit(q, OnTerminal)))
    requires I(Before(p, e))
    ensures I(Step(c, s, p, e).p)
  {
    match e
    case Start => ConnectPreserves(I, c, s.(state := CallConnect), p);
    case Hangup =>
    case MsdPull => DecodeSendPreserves(I, c, s.(pulled := true, updating := true), p);
    case Deregister =>
    case HlapExpiry(t, _) => assert I(Delivered(p, t));
    case RedialExpiry => RedialPreserves(I, c, s, p);
  }

  lemma StepHonest(c: Config, s: Session, p: Port, e: Event)
    requires WellFormed(c) && Sound(c, s) && Honest(p)
    ensures Honest(Step(c, s, p, e).p)
  {
    forall q: Port, cb | Honest(q) ensures Honest(Emit(q, cb)) { EmitHonest(q, cb); }
    StepPreserves(q => Honest(q), c, s, p, e);
  }

  // ---------------------------------------------------------------------------------------------
  // ALERTING and ACTIVE only while dialled
  // ---------------------------------------------------------------------------------------------

  /** What each state says about the last dial or end event. */
  predicate DialMatches(s: Session, p: Port) {
    && p.disciplined
    && (InCall(s.state) ==> p.lastDial == Some(DIALING))
    && (s.state in {PSAPCallback, Redialing, Terminal} ==> p.lastDial == Some(ENDED))
  }

  predicate Dialled(p: Port) { p.disciplined && p.lastDial == Some(DIALING) }

  lemma MsdEntriesStayDialled(c: Config, s: Session, p: Port)
    requires Dialled(p)
    ensures var m := EnterDecodeMsd(c, s, p); InCall(m.s.state) && Dialled(m.p)
    ensures var m := EnterCrcCheck(c, s, p); InCall(m.s.state) && Dialled(m.p)
  {}

  lemma DecodeSendStaysDialled(c: Config, s: Session, p: Port)
    requires Dialled(p)
    ensures var m := EnterDecodeSendMsd(c, s, p); InCall(m.s.state) && Dialled(m.p)
  {
    forall q | Dialled(q)
      ensures var m := EnterDecodeMsd(c, s, q); InCall(m.s.state) && Dialled(m.p)
      ensures var m := EnterCrcCheck(c, s, q); InCall(m.s.state) && Dialled(m.p)
    {
      MsdEntriesStayDialled(c, s, q);
    }
  }

  lemma ConnectDialMatches(c: Config, s: Session, p: Port)
    requires WellFormed(c) && p.disciplined
    ensures var m := EnterCallConnect(c, s, p); DialMatches(m.s, m.p)
  {
    forall q | Dialled(q) ensures var m := EnterDecodeSendMsd(c, s, q); InCall(m.s.state) && Dialled(m.p) {
      DecodeSendStaysDialled(c, s, q);
    }
  }

  lemma RedialDialMatches(c: Config, s: Session, p: Port)
    requires Sound(c, s) && DialMatches(s, p)
    ensures var m := OnRedialExpiry(c, s, p); DialMatches(m.s, m.p)
  {
    forall q | Dialled(q) ensures var m := EnterDecodeSendMsd(c, s, q); InCall(m.s.state) && Dialled(m.p) {
      DecodeSendStaysDialled(c, s, q);
    }
  }

  lemma HlapDialMatches(c: Config, s: Session, p: Port, t: Timer, ecallOnly: bool)
    requires WellFormed(c) && DialMatches(s, p)
    ensures var m := OnHlapExpiry(c, s, p, t, ecallOnly); DialMatches(m.s, m.p)
  {}

  lemma StepDialMatches(c: Config, s: Session, p: Port, e: Event)
    requires WellFormed(c) && Sound(c, s) && DialMatches(s, p)
    ensures var m := Step(c, s, p, e); DialMatches(m.s, m.p)
  {
    match e
    case Start => ConnectDialMatches(c, s.(state := CallConnect), p);
    case Hangup =>
    case MsdPull =>
      if s.state == CallConversation { DecodeSendStaysDialled(c, s.(pulled := true, updating := true), p); }
    case Deregister =>
    case HlapExpiry(t, ecallOnly) => HlapDialMatches(c, s, Delivered(p, t), t, ecallOnly);
    case RedialExpiry => RedialDialMatches(c, s, p);
  }

  /**
    In every event sequence of a session, repeated starts and stale timers included, ALERTING and
    ACTIVE are published only after a DIALING with no ENDED in between.
   */
  lemma {:induction false} NeverActiveAfterEnded(c: Config, es: seq<Event>)
    requires WellFormed(c)
    ensures var m := Run(c, Fresh, Silent, es);
            Disciplined(m.p.out) && Honest(m.p) && DialMatches(m.s, m.p)
    decreases |es|
  {
    if es != [] {
      NeverActiveAfterEnded(c, es[..|es| - 1]);
      var m := Run(c, Fresh, Silent, es[..|es| - 1]);
      StepDialMatches(c, m.s, m.p, es[|es| - 1]);
      StepHonest(c, m.s, m.p, es[|es| - 1]);
    }
  }
}
