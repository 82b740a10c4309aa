/** Properties of whole eCall runs: the redial loop, and waiting states that always get out. */
module EcallTheorems {
  import opened Common
  import opened EcallModel

  // ---------------------------------------------------------------------------------------------
  // The redial loop
  // ---------------------------------------------------------------------------------------------

  /** The configured attempt exists, so the loop ends in a connected call. */
  predicate Succeeds(c: Config) {
    c.succeedAt.Some? && 1 <= c.succeedAt.value <= |c.gaps|
  }

  /** How many redial timers the loop consumes when nobody hangs up. */
  function Attempts(c: Config): nat {
    if Succeeds(c) then c.succeedAt.value else |c.gaps|
  }

  /** The redial callbacks of `k` failed attempts: an announcement and the next delay, each time. */
  function Retries(c: Config, k: nat): seq<Callback>
    requires k < |c.gaps|
  {
    if k == 0 then []
    else Retries(c, k - 1) + [OnRedial(true, FailureReason(c)), StartRedialTimer(c.gaps[k])]
  }

  /** In particular the delays are the table entries after the first, in order. */
  lemma {:induction false} RetriesInOrder(c: Config, k: nat)
    requires k < |c.gaps|
    ensures |Retries(c, k)| == 2 * k
    ensures forall i :: 0 <= i < k ==> Retries(c, k)[2 * i] == OnRedial(true, FailureReason(c))
                                       && Retries(c, k)[2 * i + 1] == StartRedialTimer(c.gaps[i + 1])
  {
    if k > 0 {
      RetriesInOrder(c, k - 1);
      var prev := Retries(c, k - 1);
      forall i | 0 <= i < k
        ensures Retries(c, k)[2 * i] == OnRedial(true, FailureReason(c))
        ensures Retries(c, k)[2 * i + 1] == StartRedialTimer(c.gaps[i + 1])
      {
        if i < k - 1 {
          assert Retries(c, k)[2 * i] == prev[2 * i] && Retries(c, k)[2 * i + 1] == prev[2 * i + 1];
        }
      }
    }
  }

  /** Anything but a new start or a hang-up: MSD pulls, stray timers, deregistrations, redial timers. */
  predicate Undisturbed(es: seq<Event>) {
    forall e :: e in es ==> !e.Start? && !e.Hangup?
  }

  predicate IsRedialExpiry(e: Event) { e.RedialExpiry? }

  function Redials(es: seq<Event>): nat { |Filter(IsRedialExpiry, es)| }

  lemma RedialsLast(es: seq<Event>, e: Event)
    ensures Redials(es + [e]) == Redials(es) + (if e.RedialExpiry? then 1 else 0)
  {
    FilterConcat(IsRedialExpiry, es, [e]);
    assert [e][1..] == [];
  }

  lemma FailedAttempt(c: Config, s: Session, p: Port)
    requires WellFormed(c) && Sound(c, s) && s.state == Redialing && s.attempt < Attempts(c)
    ensures var m := Step(c, s, p, RedialExpiry);
            && m.s == s.(attempt := s.attempt + 1) && m.p.armed == p.armed
            && m.p.redial == p.redial + [OnRedial(true, FailureReason(c)), StartRedialTimer(c.gaps[s.attempt])]
  {
    assert p.redial + [OnRedial(true, FailureReason(c))] + [StartRedialTimer(c.gaps[s.attempt])]
        == p.redial + [OnRedial(true, FailureReason(c)), StartRedialTimer(c.gaps[s.attempt])];
  }

  lemma LoopIgnores(c: Config, s: Session, p: Port, e: Event)
    requires WellFormed(c) && Sound(c, s) && s.state == Redialing
    requires !e.Start? && !e.Hangup? && !e.RedialExpiry?
    ensures var m := Step(c, s, p, e);
            && m.s == s.(pulled := s.pulled || e.MsdPull?) && m.p.redial == p.redial && m.p.armed <= p.armed
  {}

  /** The loop, entered with port `p`, after `k` failed attempts. */
  predicate LoopAt(c: Config, p: Port, pulled: bool, k: nat, m: Move) {
    && k < Attempts(c)
    && Sound(c, m.s) && m.s.state == Redialing && m.s.attempt == k + 1
    && m.p.redial == p.redial + Retries(c, k)
    && m.p.armed <= p.armed && (m.s.pulled ==> pulled)
  }

  lemma LoopStep(c: Config, p: Port, pulled: bool, k: nat, m: Move, e: Event)
    requires WellFormed(c) && LoopAt(c, p, pulled, k, m) && !e.Start? && !e.Hangup? && (e.MsdPull? ==> pulled)
    requires e.RedialExpiry? ==> k + 1 < Attempts(c)
    ensures LoopAt(c, p, pulled, if e.RedialExpiry? then k + 1 else k, Step(c, m.s, m.p, e))
  {
    if e.RedialExpiry? {
      FailedAttempt(c, m.s, m.p);
      assert p.redial + Retries(c, k) + [OnRedial(true, FailureReason(c)), StartRedialTimer(c.gaps[k + 1])]
          == p.redial + Retries(c, k + 1);
    } else {
      LoopIgnores(c, m.s, m.p, e);
    }
  }

  /** Until its last attempt the loop only counts redial timers; everything else leaves it alone. */
  lemma {:induction false} LoopCounts(c: Config, s: Session, p: Port, pulled: bool, es: seq<Event>)
    requires WellFormed(c) && Sound(c, s) && s.state == Redialing && s.attempt == 1
    requires Undisturbed(es) && Redials(es) < Attempts(c) && (s.pulled || MsdPull in es ==> pulled)
    ensures LoopAt(c, p, pulled, Redials(es), Run(c, s, p, es))
    decreases |es|
  {
    if es == [] {
      assert p.redial + Retries(c, 0) == p.redial;
    } else {
      var front, e := es[..|es| - 1], es[|es| - 1];
      assert es == front + [e] && e in es;
      RedialsLast(front, e);
      LoopCounts(c, s, p, pulled, front);
      LoopStep(c, p, pulled, Redials(front), Run(c, s, p, front), e);
    }
  }

  lemma DecodeSendKeepsRedial(c: Config, s: Session, p: Port)
    ensures var m := EnterDecodeSendMsd(c, s, p); m.p.redial == p.redial && InCall(m.s.state)
  {
    forall q ensures var m := EnterCrcCheck(c, s, q); m.p.redial == q.redial && InCall(m.s.state)
             ensures var m := EnterDecodeMsd(c, s, q); m.p.redial == q.redial && InCall(m.s.state)
    {
      MsdEntriesKeepRedial(c, s, q);
    }
  }

  lemma MsdEntriesKeepRedial(c: Config, s: Session, p: Port)
    ensures var m := EnterDecodeMsd(c, s, p); m.p.redial == p.redial && InCall(m.s.state)
    ensures var m := EnterCrcCheck(c, s, p); m.p.redial == p.redial && InCall(m.s.state)
  {}

  lemma LastAttempt(c: Config, s: Session, p: Port)
    requires WellFormed(c) && Sound(c, s) && s.state == Redialing && s.attempt == Attempts(c)
    ensures var m := Step(c, s, p, RedialExpiry);
            && m.p.redial == p.redial + [OnRedial(false, if Succeeds(c) then CALL_CONNECTED else MAX_REDIAL_ATTEMPTED)]
            && (if Succeeds(c) then InCall(m.s.state) else m.s.state == PSAPCallback)
  {
    if Succeeds(c) { DecodeSendKeepsRedial(c, s, Connected(p)); }
  }

  /** The callbacks of a redial attempt that connects. */
  function Connected(p: Port): Port {
    Emit(Emit(Emit(p, ChangeCallState(DIALING)), ChangeCallState(ACTIVE)), OnRedial(false, CALL_CONNECTED))
  }

  /**
    The last redial timer ends the loop: in a connected call, announced once, exactly when the
    configured attempt lies in the table; otherwise with MAX_REDIAL_ATTEMPTED in PSAPCallback. Nothing
    but (gaps, succeedAt) decides the redial callbacks.
   */
  lemma LoopEnds(c: Config, s: Session, p: Port, es: seq<Event>)
    requires WellFormed(c) && Sound(c, s) && s.state == Redialing && s.attempt == 1
    requires Undisturbed(es) && Redials(es) + 1 == Attempts(c)
    ensures var m := Run(c, s, p, es + [RedialExpiry]);
            && m.p.redial == p.redial + Retries(c, Attempts(c) - 1)
                             + [OnRedial(false, if Succeeds(c) then CALL_CONNECTED else MAX_REDIAL_ATTEMPTED)]
            && (if Succeeds(c) then InCall(m.s.state) else m.s.state == PSAPCallback)
  {
    LoopCounts(c, s, p, true, es);
    assert (es + [RedialExpiry])[..|es|] == es;
    LastAttempt(c, Run(c, s, p, es).s, Run(c, s, p, es).p);
  }

  /** A CALLORIG call starts the loop from its first dial, with the first delay of the table. */
  lemma OriginationFailureStartsLoop(c: Config, s: Session, p: Port)
    requires WellFormed(c) && Sound(c, s) && c.mode == Some(CALLORIG)
    ensures var m := Step(c, s, p, Start);
            m.s.state == Redialing && m.s.attempt == 1 && m.p.redial == p.redial + [StartRedialTimer(c.gaps[0])]
  {}

  /** A CALLDROP call starts the loop when T2 ends the conversation. */
  lemma CallDropStartsLoop(c: Config, s: Session, p: Port, ecallOnly: bool)
    requires WellFormed(c) && c.mode == Some(CALLDROP) && !c.custom && s.state == CallConversation
    ensures var m := Step(c, s, p, HlapExpiry(T2, ecallOnly));
            m.s.state == Redialing && m.s.attempt == 1 && m.p.redial == p.redial + [StartRedialTimer(c.gaps[0])]
  {}

  /** The redial callbacks of a loop that has seen `k` redial timers, after its first delay. */
  function LoopTrace(c: Config, k: nat): seq<Callback>
    requires c.gaps != []
  {
    if k < Attempts(c) then Retries(c, k)
    else Retries(c, Attempts(c) - 1) + [OnRedial(false, if Succeeds(c) then CALL_CONNECTED else MAX_REDIAL_ATTEMPTED)]
  }

  predicate IsDrop(e: Event) { e.HlapExpiry? && e.timer == T2 }

  /** T2 ends the conversation of a call that redials when dropped. */
  predicate Drops(c: Config, s: Session, e: Event) {
    c.mode == Some(CALLDROP) && !c.custom && s.state == CallConversation && IsDrop(e)
  }

  /** Outside the loop only a new start or a drop makes redial callbacks. */
  lemma OutsideLoop(c: Config, s: Session, p: Port, e: Event)
    requires WellFormed(c) && s.state != Redialing && !Drops(c, s, e) && (e.Start? ==> c.mode != Some(CALLORIG))
    ensures var m := Step(c, s, p, e);
            && m.p.redial == p.redial && m.s.state != Redialing
            && (s.state in {PSAPCallback, Terminal} && !e.Start? ==> m.s.state in {PSAPCallback, Terminal})
  {
    match e
    case Start => ConnectKeepsRedial(c, s.(state := CallConnect), p);
    case MsdPull => DecodeSendKeepsRedial(c, s.(pulled := true, updating := true), p);
    case _ =>
  }

  lemma ConnectKeepsRedial(c: Config, s: Session, p: Port)
    requires WellFormed(c) && c.mode != Some(CALLORIG)
    ensures var m := EnterCallConnect(c, s, p); m.p.redial == p.redial && InCall(m.s.state)
  {
    forall q ensures var m := EnterDecodeSendMsd(c, s, q); m.p.redial == q.redial && InCall(m.s.state) {
      DecodeSendKeepsRedial(c, s, q);
    }
  }

  /** A loop entered with port `p`, `k` redial timers later: still counting, or over for good. */
  predicate LoopAfter(c: Config, p: Port, k: nat, m: Move) {
    if k < Attempts(c) then LoopAt(c, p, true, k, m)
    else
      && c.gaps != [] && m.p.redial == p.redial + LoopTrace(c, k)
      && Sound(c, m.s) && m.s.state != Redialing
      && (!Succeeds(c) ==> m.s.state in {PSAPCallback, Terminal})
  }

  lemma LoopAfterStep(c: Config, p: Port, k: nat, m: Move, e: Event)
    requires WellFormed(c) && LoopAfter(c, p, k, m) && !e.Start? && !e.Hangup?
    requires Sound(c, m.s) && !(k >= Attempts(c) && Drops(c, m.s, e))
    ensures LoopAfter(c, p, if e.RedialExpiry? then k + 1 else k, Step(c, m.s, m.p, e))
  {
    if k >= Attempts(c) {
      StepSound(c, m.s, m.p, e);
      OutsideLoop(c, m.s, m.p, e);
    } else if e.RedialExpiry? && k + 1 == Attempts(c) {
      LoopLastStep(c, p, k, m);
    } else {
      LoopStep(c, p, true, k, m, e);
    }
  }

  lemma LoopLastStep(c: Config, p: Port, k: nat, m: Move)
    requires WellFormed(c) && LoopAt(c, p, true, k, m) && k + 1 == Attempts(c)
    ensures LoopAfter(c, p, k + 1, Step(c, m.s, m.p, RedialExpiry))
  {
    StepSound(c, m.s, m.p, RedialExpiry);
    LastAttempt(c, m.s, m.p);
    LoopOver(c, p, k, m.p.redial, Step(c, m.s, m.p, RedialExpiry));
  }

  lemma LoopOver(c: Config, p: Port, k: nat, before: seq<Callback>, m: Move)
    requires c.gaps != [] && k + 1 == Attempts(c) && before == p.redial + Retries(c, k) && Sound(c, m.s)
    requires m.p.redial == before + [OnRedial(false, if Succeeds(c) then CALL_CONNECTED else MAX_REDIAL_ATTEMPTED)]
    requires if Succeeds(c) then InCall(m.s.state) else m.s.state == PSAPCallback
    ensures LoopAfter(c, p, k + 1, m)
  {
    Regroup(p.redial, Retries(c, k), [OnRedial(false, if Succeeds(c) then CALL_CONNECTED else MAX_REDIAL_ATTEMPTED)]);
  }

  lemma Regroup(a: seq<Callback>, b: seq<Callback>, d: seq<Callback>)
    ensures (a + b) + d == a + (b + d)
  {}

  /** No second drop: a CALLDROP call that a redial connected is not dropped again within `es`. */
  predicate OneDrop(c: Config, es: seq<Event>) {
    c.mode == Some(CALLDROP) && Succeeds(c) ==>
      forall i :: 0 <= i < |es| && IsDrop(es[i]) ==> Redials(es[..i]) < Attempts(c)
  }

  lemma OneDropFront(c: Config, front: seq<Event>, e: Event)
    requires OneDrop(c, front + [e])
    ensures OneDrop(c, front)
    ensures c.mode == Some(CALLDROP) && Succeeds(c) && IsDrop(e) ==> Redials(front) < Attempts(c)
  {
    var es := front + [e];
    assert es[..|front|] == front && es[|front|] == e;
    assert forall i :: 0 <= i < |front| ==> es[i] == front[i] && es[..i] == front[..i];
  }

  lemma LoopLonger(c: Config, p: Port, front: seq<Event>, m: Move, e: Event)
    requires WellFormed(c) && Sound(c, m.s) && LoopAfter(c, p, Redials(front), m)
    requires !e.Start? && !e.Hangup?
    requires c.mode == Some(CALLDROP) && Succeeds(c) && IsDrop(e) ==> Redials(front) < Attempts(c)
    ensures LoopAfter(c, p, Redials(front + [e]), Step(c, m.s, m.p, e))
  {
    RedialsLast(front, e);
    LoopAfterStep(c, p, Redials(front), m, e);
  }

  /**
    Undisturbed by a start or a hang-up, the redial callbacks of a loop are fixed by (gaps, succeedAt)
    and the number of redial timers seen, whatever else happens in between or after its end.
   */
  lemma {:induction false} LoopTraceFixed(c: Config, s: Session, p: Port, es: seq<Event>)
    requires WellFormed(c) && Sound(c, s) && s.state == Redialing && s.attempt == 1
    requires Undisturbed(es) && OneDrop(c, es)
    ensures LoopAfter(c, p, Redials(es), Run(c, s, p, es))
    decreases |es|
  {
    if es == [] {
      assert p.redial + Retries(c, 0) == p.redial;
      assert LoopAt(c, p, true, 0, Move(s, p));
    } else {
      var front, e := es[..|es| - 1], es[|es| - 1];
      assert es == front + [e] && e in es;
      OneDropFront(c, front, e);
      LoopTraceFixed(c, s, p, front);
      LoopLonger(c, p, front, Run(c, s, p, front), e);
    }
  }

  /** The redial callbacks from the entry of a loop on. */
  lemma LoopEntered(c: Config, m: Move, before: seq<Callback>, es: seq<Event>)
    requires WellFormed(c) && Sound(c, m.s) && m.s.state == Redialing && m.s.attempt == 1
    requires m.p.redial == before + [StartRedialTimer(c.gaps[0])]
    requires Undisturbed(es) && OneDrop(c, es)
    ensures Run(c, m.s, m.p, es).p.redial == before + ([StartRedialTimer(c.gaps[0])] + LoopTrace(c, Redials(es)))
  {
    LoopTraceFixed(c, m.s, m.p, es);
    Regroup(before, [StartRedialTimer(c.gaps[0])], LoopTrace(c, Redials(es)));
  }

  /** The redial callbacks of a run are the recorded ones. */
  lemma RunRedial(c: Config, es: seq<Event>)
    requires WellFormed(c)
    ensures var m := Run(c, Fresh, Silent, es); Filter(AboutRedial, m.p.out) == m.p.redial
  {
    NeverActiveAfterEnded(c, es);
  }

  /**
    A CALLORIG call, from its start on and unless hung up: the first delay of the table, then for each
    failed attempt one willRedial=true and the next delay, and at the end one CALL_CONNECTED or one
    MAX_REDIAL_ATTEMPTED; nothing more, ever.
   */
  lemma OriginationRedialTrace(c: Config, es: seq<Event>)
    requires WellFormed(c) && c.mode == Some(CALLORIG) && Undisturbed(es)
    ensures Filter(AboutRedial, Run(c, Fresh, Silent, [Start] + es).p.out)
            == [StartRedialTimer(c.gaps[0])] + LoopTrace(c, Redials(es))
  {
    RunOne(c, Fresh, Silent, Start);
    var m := Step(c, Fresh, Silent, Start);
    OriginationFailureStartsLoop(c, Fresh, Silent);
    RunConcat(c, Fresh, Silent, [Start], es);
    LoopEntered(c, m, [], es);
    RunRedial(c, [Start] + es);
  }

  /**
    A CALLDROP call dropped by T2 after any run `pre`, and unless hung up or dropped again after a
    redial connected it: the same redial callbacks follow those made before.
   */
  lemma CallDropRedialTrace(c: Config, pre: seq<Event>, ecallOnly: bool, es: seq<Event>)
    requires WellFormed(c) && c.mode == Some(CALLDROP) && !c.custom
    requires Run(c, Fresh, Silent, pre).s.state == CallConversation
    requires Undisturbed(es) && OneDrop(c, es)
    ensures Filter(AboutRedial, Run(c, Fresh, Silent, pre + ([HlapExpiry(T2, ecallOnly)] + es)).p.out)
            == Filter(AboutRedial, Run(c, Fresh, Silent, pre).p.out)
               + ([StartRedialTimer(c.gaps[0])] + LoopTrace(c, Redials(es)))
  {
    var drop := HlapExpiry(T2, ecallOnly);
    var a := Run(c, Fresh, Silent, pre);
    var m := Step(c, a.s, a.p, drop);
    CallDropStartsLoop(c, a.s, a.p, ecallOnly);
    RunOne(c, a.s, a.p, drop);
    RunConcat(c, Fresh, Silent, pre, [drop] + es);
    RunConcat(c, a.s, a.p, [drop], es);
    LoopEntered(c, m, a.p.redial, es);
    RunRedial(c, pre);
    RunRedial(c, pre + ([drop] + es));
  }

  /** Without origination failures and before the first drop there are no redial callbacks at all. */
  lemma {:induction false} NoRedialBeforeDrop(c: Config, es: seq<Event>)
    requires WellFormed(c) && c.mode != Some(CALLORIG)
    requires c.mode == Some(CALLDROP) ==> forall e :: e in es ==> !IsDrop(e)
    ensures var m := Run(c, Fresh, Silent, es); Filter(AboutRedial, m.p.out) == [] && m.s.state != Redialing
    decreases |es|
  {
    RunRedial(c, es);
    if es != [] {
      var front, e := es[..|es| - 1], es[|es| - 1];
      NoRedialBeforeDrop(c, front);
      RunRedial(c, front);
      assert e in es;
      OutsideLoop(c, Run(c, Fresh, Silent, front).s, Run(c, Fresh, Silent, front).p, e);
    }
  }

  // ---------------------------------------------------------------------------------------------
  // No session waits for a timer that is not running
  // ---------------------------------------------------------------------------------------------

  /** The timer whose expiry a waiting state depends on. */
  function AwaitedTimer(state: State): Option<Timer> {
    match state
    case DecodeSendMSD => Some(T5)
    case CRCCheckonMSD => Some(T7)
    case DecodeMSD => Some(T6)
    case _ => None
  }

  /** A session resting in one of the three MSD states has that expiry outstanding. */
  predicate Covered(m: Move) {
    AwaitedTimer(m.s.state).Some? ==> AwaitedTimer(m.s.state).value in m.p.armed
  }

  /**
    The configurations that can strand a session: a custom-number circuit-switched call reaching
    DecodeMSD with T6 forced to fail (nothing starts T6), and a redial that connects with T5 forced to
    fail (only the first dial starts T5).
   */
  predicate Strands(c: Config) {
    && !c.ng && c.msd
    && (|| (c.custom && T6 in c.failed && T7 !in c.failed && (c.mode == Some(CALLORIG) ==> Succeeds(c)))
        || (!c.custom && T5 in c.failed && c.mode.Some? && Succeeds(c)))
  }

  ghost predicate WaitInv(c: Config, s: Session, p: Port) {
    && Sound(c, s)
    && Covered(Move(s, p))
    && (s.state == DecodeSendMSD ==> T5 in c.failed)
    && (s.state == DecodeMSD ==> !c.custom && !c.ng)
    && (InCall(s.state) && c.mode == Some(CALLORIG) ==> Succeeds(c))
  }

  /** What entering the MSD exchange must leave behind. */
  ghost predicate WellRested(c: Config, m: Move) {
    && Covered(m) && InCall(m.s.state)
    && (m.s.state == DecodeSendMSD ==> T5 in c.failed)
    && (m.s.state == DecodeMSD ==> !c.custom && !c.ng)
  }

  lemma CrcCheckWaits(c: Config, s: Session, p: Port)
    requires !Strands(c) && !c.ng && c.msd && (c.mode == Some(CALLORIG) ==> Succeeds(c))
    ensures WellRested(c, EnterCrcCheck(c, s, p))
  {}

  /** Entering DecodeSendMSD strands nobody unless it leaves T5 to a timer that is not running. */
  lemma DecodeSendWaits(c: Config, s: Session, p: Port)
    requires !Strands(c) && (c.mode == Some(CALLORIG) ==> Succeeds(c))
    requires !c.ng && c.msd && !s.pulled && !c.custom && T5 in c.failed ==> T5 in p.armed
    ensures WellRested(c, EnterDecodeSendMsd(c, s, p))
  {
    if !c.ng && c.msd {
      forall q: Port ensures WellRested(c, EnterCrcCheck(c, s, q)) { CrcCheckWaits(c, s, q); }
    }
  }

  lemma ConnectWaits(c: Config, s: Session, p: Port)
    requires WellFormed(c) && !Strands(c) && c.mode != Some(CALLORIG)
    ensures WellRested(c, EnterCallConnect(c, s, p))
  {
    forall q: Port | !c.custom && !c.ng && c.msd && T5 in c.failed ==> T5 in q.armed
      ensures WellRested(c, EnterDecodeSendMsd(c, s, q))
    {
      DecodeSendWaits(c, s, q);
    }
  }

  lemma ExpiryWaits(c: Config, s: Session, p: Port, t: Timer, ecallOnly: bool)
    requires WellFormed(c) && !Strands(c) && WaitInv(c, s, p)
    ensures var m := OnHlapExpiry(c, s, Delivered(p, t), t, ecallOnly); WaitInv(c, m.s, m.p)
  {}

  lemma StepWaits(c: Config, s: Session, p: Port, e: Event)
    requires WellFormed(c) && !Strands(c) && WaitInv(c, s, p)
    ensures var m := Step(c, s, p, e); WaitInv(c, m.s, m.p)
  {
    StepSound(c, s, p, e);
    match e
    case Start => if c.mode != Some(CALLORIG) { ConnectWaits(c, s.(state := CallConnect), p); }
    case Hangup =>
    case MsdPull =>
      if s.state == CallConversation { DecodeSendWaits(c, s.(pulled := true, updating := true), p); }
    case Deregister =>
    case HlapExpiry(t, ecallOnly) => ExpiryWaits(c, s, p, t, ecallOnly);
    case RedialExpiry =>
      if s.state == Redialing && c.succeedAt == Some(s.attempt) { DecodeSendWaits(c, s, Connected(p)); }
  }

  lemma {:induction false} RunWaits(c: Config, es: seq<Event>)
    requires WellFormed(c) && !Strands(c)
    ensures var m := Run(c, Fresh, Silent, es); WaitInv(c, m.s, m.p)
    decreases |es|
  {
    if es != [] {
      RunWaits(c, es[..|es| - 1]);
      var m := Run(c, Fresh, Silent, es[..|es| - 1]);
      StepWaits(c, m.s, m.p, es[|es| - 1]);
    }
  }

  /** The awaited expiry always moves the session on to CallConversation. */
  lemma AwaitedExpiryResumes(c: Config, es: seq<Event>, ecallOnly: bool)
    requires WellFormed(c) && !Strands(c)
    requires AwaitedTimer(Run(c, Fresh, Silent, es).s.state).Some?
    ensures var m := Run(c, Fresh, Silent, es);
            var t := AwaitedTimer(m.s.state).value;
            t in m.p.armed && Step(c, m.s, m.p, HlapExpiry(t, ecallOnly)).s.state == CallConversation
  {
    RunWaits(c, es);
  }

  // The converse: every stranding configuration has a run that strands it.

  /** `n` redial timers in a row. */
  function RedialTimers(n: nat): seq<Event> { seq(n, i => RedialExpiry) }

  lemma {:induction false} RedialTimersCount(n: nat)
    ensures Undisturbed(RedialTimers(n)) && Redials(RedialTimers(n)) == n && MsdPull !in RedialTimers(n)
  {
    if n > 0 {
      RedialTimersCount(n - 1);
      assert RedialTimers(n) == RedialTimers(n - 1) + [RedialExpiry];
      RedialsLast(RedialTimers(n - 1), RedialExpiry);
    }
  }

  /** Running on from where another run stopped. */
  lemma {:induction false} RunConcat(c: Config, s: Session, p: Port, a: seq<Event>, b: seq<Event>)
    requires WellFormed(c) && Sound(c, s)
    ensures Run(c, s, p, a + b) == Run(c, Run(c, s, p, a).s, Run(c, s, p, a).p, b)
    decreases |b|
  {
    if b == [] {
      assert a + b == a;
    } else {
      assert (a + b)[..|a + b| - 1] == a + b[..|b| - 1];
      RunConcat(c, s, p, a, b[..|b| - 1]);
    }
  }

  lemma StrandedConnect(c: Config, s: Session, p: Port)
    requires WellFormed(c) && Sound(c, s) && s.state == Redialing && c.succeedAt == Some(s.attempt) && !s.pulled
    requires Strands(c) && T5 !in p.armed && T6 !in p.armed
    ensures !Covered(Step(c, s, p, RedialExpiry))
  {
    StrandedEntry(c, s, Connected(p));
  }

  lemma LastRedialStrands(c: Config, p: Port, m: Move)
    requires WellFormed(c) && Strands(c) && Succeeds(c) && T5 !in p.armed && T6 !in p.armed
    requires LoopAt(c, p, false, c.succeedAt.value - 1, m)
    ensures !Covered(Run(c, m.s, m.p, [RedialExpiry]))
  {
    RunOne(c, m.s, m.p, RedialExpiry);
    StrandedConnect(c, m.s, m.p);
  }

  /** A successful redial of a stranding configuration rests with its timer not running. */
  lemma RedialStrands(c: Config, s: Session, p: Port)
    requires WellFormed(c) && Sound(c, s) && s.state == Redialing && s.attempt == 1 && !s.pulled
    requires Strands(c) && Succeeds(c) && T5 !in p.armed && T6 !in p.armed
    ensures !Covered(Run(c, s, p, RedialTimers(c.succeedAt.value)))
  {
    var before := RedialTimers(c.succeedAt.value - 1);
    RedialTimersCount(c.succeedAt.value - 1);
    assert RedialTimers(c.succeedAt.value) == before + [RedialExpiry];
    LoopCounts(c, s, p, false, before);
    LastRedialStrands(c, p, Run(c, s, p, before));
    RunConcat(c, s, p, before, [RedialExpiry]);
  }

  lemma StrandedEntry(c: Config, s: Session, p: Port)
    requires Strands(c) && !s.pulled && T5 !in p.armed && T6 !in p.armed && (c.custom || T5 in c.failed)
    ensures !Covered(EnterDecodeSendMsd(c, s, p))
  {}

  lemma RunOne(c: Config, s: Session, p: Port, e: Event)
    requires WellFormed(c) && Sound(c, s)
    ensures Run(c, s, p, [e]) == Step(c, s, p, e)
  {
    assert [e][..0] == [];
    assert Run(c, s, p, []) == Move(s, p);
  }

  lemma RunTwo(c: Config, s: Session, p: Port, e: Event, e': Event)
    requires WellFormed(c) && Sound(c, s)
    ensures Sound(c, Step(c, s, p, e).s)
    ensures Run(c, s, p, [e, e']) == Step(c, Step(c, s, p, e).s, Step(c, s, p, e).p, e')
  {
    StepSound(c, s, p, e);
    assert [e, e'][..1] == [e];
    RunOne(c, s, p, e);
  }

  lemma OriginationStrands(c: Config)
    requires WellFormed(c) && Strands(c) && c.mode == Some(CALLORIG)
    ensures !Covered(Run(c, Fresh, Silent, [Start] + RedialTimers(c.succeedAt.value)))
  {
    RunOne(c, Fresh, Silent, Start);
    var start := Step(c, Fresh, Silent, Start);
    OriginationFailureStartsLoop(c, Fresh, Silent);
    RunConcat(c, Fresh, Silent, [Start], RedialTimers(c.succeedAt.value));
    RedialStrands(c, start.s, start.p);
  }

  lemma DropStrands(c: Config)
    requires WellFormed(c) && Strands(c) && c.mode == Some(CALLDROP) && !c.custom
    ensures var fail := [HlapExpiry(T5, false), HlapExpiry(T2, false)];
            !Covered(Run(c, Fresh, Silent, [Start] + (fail + RedialTimers(c.succeedAt.value))))
  {
    var fail, rest := [HlapExpiry(T5, false), HlapExpiry(T2, false)], RedialTimers(c.succeedAt.value);
    RunOne(c, Fresh, Silent, Start);
    StepSound(c, Fresh, Silent, Start);
    var start := Step(c, Fresh, Silent, Start);
    RunConcat(c, Fresh, Silent, [Start], fail + rest);
    RunConcat(c, start.s, start.p, fail, rest);
    RunTwo(c, start.s, start.p, fail[0], fail[1]);
    DroppedAfterT5(c);
    RedialStrands(c, Run(c, start.s, start.p, fail).s, Run(c, start.s, start.p, fail).p);
  }

  lemma StrandingRun(c: Config) returns (es: seq<Event>)
    requires WellFormed(c) && Strands(c)
    ensures !Covered(Run(c, Fresh, Silent, es))
  {
    if c.mode == Some(CALLORIG) {
      es := [Start] + RedialTimers(c.succeedAt.value);
      OriginationStrands(c);
    } else if c.custom {
      es := [Start];
      RunOne(c, Fresh, Silent, Start);
    } else {
      es := [Start] + ([HlapExpiry(T5, false), HlapExpiry(T2, false)] + RedialTimers(c.succeedAt.value));
      assert c.mode.value == CALLDROP;
      DropStrands(c);
    }
  }

  lemma ConnectWithT5Failed(c: Config)
    requires WellFormed(c) && Strands(c) && !c.custom && c.mode == Some(CALLDROP)
    ensures var a := Step(c, Fresh, Silent, Start);
            a.s.state == DecodeSendMSD && !a.s.pulled && a.p.armed == {T2, T5}
  {}

  /** A regulatory call with T5 forced to fail, dropped by T2 after T5 expired, redials with neither timer running. */
  lemma DroppedAfterT5(c: Config)
    requires WellFormed(c) && Strands(c) && !c.custom && c.mode == Some(CALLDROP)
    ensures var a := Step(c, Fresh, Silent, Start);
            var b := Step(c, a.s, a.p, HlapExpiry(T5, false));
            var d := Step(c, b.s, b.p, HlapExpiry(T2, false));
            d.s.state == Redialing && d.s.attempt == 1 && !d.s.pulled && T5 !in d.p.armed && T6 !in d.p.armed
  {
    ConnectWithT5Failed(c);
    var a := Step(c, Fresh, Silent, Start);
    T5ThenT2(c, a.s, a.p);
  }

  lemma T5ThenT2(c: Config, s: Session, p: Port)
    requires WellFormed(c) && !c.custom && c.mode == Some(CALLDROP) && T5 in c.failed
    requires s.state == DecodeSendMSD && !s.pulled && p.armed == {T2, T5}
    ensures var b := Step(c, s, p, HlapExpiry(T5, false));
            var d := Step(c, b.s, b.p, HlapExpiry(T2, false));
            d.s.state == Redialing && d.s.attempt == 1 && !d.s.pulled && T5 !in d.p.armed && T6 !in d.p.armed
  {}

  /**
    A session never rests in DecodeSendMSD, CRCCheckonMSD or DecodeMSD without its own T5, T7 or T6
    expiry outstanding, over all event sequences, exactly when its configuration is not a stranding one.
   */
  lemma NeverStrandedIff(c: Config)
    requires WellFormed(c)
    ensures (forall es: seq<Event> :: Covered(Run(c, Fresh, Silent, es))) <==> !Strands(c)
  {
    if Strands(c) {
      var es := StrandingRun(c);
      assert !Covered(Run(c, Fresh, Silent, es));
    } else {
      forall es: seq<Event> ensures Covered(Run(c, Fresh, Silent, es)) {
        RunWaits(c, es);
      }
    }
  }

  /**
    With redial off the only calls that can be stranded are custom-number circuit-switched ones with an
    MSD to send that get past the CRC check and find T6 forced to fail.
   */
  lemma RedialOffStrandedIff(c: Config)
    requires c.mode.None?
    ensures (exists es: seq<Event> :: !Covered(Run(c, Fresh, Silent, es)))
            <==> c.custom && !c.ng && c.msd && T6 in c.failed && T7 !in c.failed
  {
    NeverStrandedIff(c);
  }
}
