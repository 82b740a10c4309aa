/**
  What the eCall manager's requests and timer events come to: which call a start creates, what of a
  session reaches the wire, what the timer statuses mean, and what each setting does.
 */
module EcallManagerLaws {
  import opened Common
  import E = EcallModel
  import opened EcallTheorems
  import opened EcallScript
  import opened EcallManagerModel

  // ---------------------------------------------------------------------------------------------
  // Starting a call
  // ---------------------------------------------------------------------------------------------

  /** A caller-supplied number, or else a configured overriding one, makes a regulatory call a custom one. */
  predicate IsCustom(g: Settings, isPrivate: bool, remote: string) {
    !isPrivate && (remote != "" || (g.overridden && g.overriddenNum != ""))
  }

  /** The number a new call dials. */
  function NumberFor(g: Settings, isPrivate: bool, remote: string, dial: string): string {
    if isPrivate then dial
    else if remote != "" then remote
    else if IsCustom(g, isPrivate, remote) then g.overriddenNum
    else ""
  }

  /**
    An accepted start_ecall tables a fresh call under the next index, with the number, kind, MSD, forced
    failures and redial behaviour that the request and the settings of that moment give it, answers with
    the index and posts the call's start; a phone whose call is still going on only gets DEVICE_IN_USE.
   */
  lemma StartCreates(m: Manager, phone: int, isPrivate: bool, msd: bool, remote: string, dial: string)
    requires Inv(m)
    ensures var m' := Step(m, StartEcall(phone, isPrivate, msd, remote, dial));
            var g := m.settings;
            if phone in m.sessions && m.sessions[phone].s.state != E.PSAPCallback && m.sessions[phone].s.state != E.Terminal then
              m' == m.(log := m.log + [DeviceInUse(phone)])
            else
              && phone in m'.sessions && m'.sessions - {phone} == m.sessions - {phone}
              && m'.nextIndex == m.nextIndex + 1
              && m'.posted == m.posted + [SessionStart(phone)] && m'.log == m.log + [StartOk(phone, m.nextIndex)]
              && m'.settings == g
              && var l := m'.sessions[phone];
              && l.index == m.nextIndex && l.s == E.Fresh && l.p == E.Silent
              && l.number == NumberFor(g, isPrivate, remote, dial)
              && (l.c.custom <==> !isPrivate && (remote != "" || (g.overridden && g.overriddenNum != "")))
              && (l.c.ng <==> isPrivate || g.ngDevice)
              && l.c.msd == msd && l.c.failed == g.failed
              && (g.redial.None? ==> l.c.mode.None? && l.c.succeedAt.None? && l.c.gaps == [])
              && (g.redial.Some? ==> l.c.mode == Some(g.redial.value.0) && l.c.succeedAt == g.redial.value.1)
              && (l.c.mode == Some(E.CALLORIG) ==> l.c.gaps == g.origGaps)
              && (l.c.mode == Some(E.CALLDROP) ==> l.c.gaps == g.dropGaps)
  {
    if !Busy(m, phone) {
      StartedSession(m, phone, isPrivate, msd, remote, dial);
      assert OnStartEcall(m, phone, isPrivate, msd, remote, dial).sessions - {phone} == m.sessions - {phone};
    }
  }

  lemma StartedSession(m: Manager, phone: int, isPrivate: bool, msd: bool, remote: string, dial: string)
    requires !Busy(m, phone)
    ensures var m', g := OnStartEcall(m, phone, isPrivate, msd, remote, dial), m.settings;
            && phone in m'.sessions
            && m'.sessions[phone] == Live(m.nextIndex, NumberFor(g, isPrivate, remote, dial),
                                          NewConfig(g, IsCustom(g, isPrivate, remote), isPrivate || g.ngDevice, msd),
                                          E.Fresh, E.Silent)
  {}

  // ---------------------------------------------------------------------------------------------
  // What of a session reaches the wire
  // ---------------------------------------------------------------------------------------------

  /** The indication, if any, that a callback is published as. */
  function Indication(phone: int, index: nat, cb: E.Callback): seq<Message> {
    match cb
    case ChangeCallState(phase) => [CallState(phone, index, phase)]
    case StartTimer(t) => [TimerEvent(phone, t, STARTED)]
    case SendEvent(t, start) => [TimerEvent(phone, t, if start then STARTED else STOPPED)]
    case ExpiryTimer(t) => [TimerEvent(phone, t, EXPIRED)]
    case Msd(status) => [MsdEvent(phone, status)]
    case OnRedial(willRedial, reason) => [RedialEvent(phone, willRedial, reason)]
    case OnTerminal => []
    case StartRedialTimer(_) => []
  }

  function Wire(phone: int, index: nat, cbs: seq<E.Callback>): seq<Message> {
    if cbs == [] then []
    else Wire(phone, index, cbs[..|cbs| - 1]) + Indication(phone, index, cbs[|cbs| - 1])
  }

  lemma {:induction false} CallbacksWire(m: Manager, phone: int, cbs: seq<E.Callback>)
    requires phone in m.sessions && E.OnTerminal !in cbs
    ensures OnCallbacks(m, phone, cbs).log == m.log + Wire(phone, m.sessions[phone].index, cbs)
    decreases |cbs|
  {
    if cbs != [] {
      var front, last := cbs[..|cbs| - 1], cbs[|cbs| - 1];
      CallbacksWire(m, phone, front);
      CallbacksFrame(m, phone, front);
      OneWire(OnCallbacks(m, phone, front), phone, last);
    }
  }

  lemma OneWire(m: Manager, phone: int, cb: E.Callback)
    requires phone in m.sessions
    ensures OnCallback(m, phone, cb).log == m.log + Indication(phone, m.sessions[phone].index, cb)
  {}

  /**
    From `m` to `m'` the call of a phone handled `e` as its tables prescribe: exactly the indications of
    the callbacks there were published, in order, under the phone and index of the call, and the session
    is where the table says; one that terminates is gone.
   */
  ghost predicate Handled(m: Manager, phone: int, e: E.Event, m': Manager)
    requires phone in m.sessions && E.WellFormed(m.sessions[phone].c) && E.Sound(m.sessions[phone].c, m.sessions[phone].s)
  {
    var l := m.sessions[phone];
    var next, script := Next(l.c, l.s, e), Script(l.c, l.s, e);
    && m'.log == m.log + Wire(phone, l.index, script)
    && if next.state == E.Terminal then Freed(m', phone)
       else phone in m'.sessions && m'.sessions[phone] == l.(s := next, p := m'.sessions[phone].p)
            && m'.sessions[phone].p.out == l.p.out + script
  }

  lemma DriveHandles(m: Manager, phone: int, e: E.Event)
    requires Inv(m) && phone in m.sessions
    ensures Handled(m, phone, e, Drive(m, phone, e))
  {
    var l, l' := m.sessions[phone], Stepped(m, phone, e);
    DriveInv(m, phone, e);
    StepFollowsScript(l.c, l.s, l.p, e);
    StepAppends(l.c, l.s, l.p, e);
    TerminalShape(l.c, l.s, l.p, e);
    var m1, cbs := m.(sessions := m.sessions[phone := l']), l'.p.out[|l.p.out|..];
    assert cbs == Script(l.c, l.s, e);
    if E.Terminates(l.c, l.s, e) {
      TerminationWire(m1, phone);
    } else {
      CallbacksWire(m1, phone, cbs);
    }
  }

  lemma TerminationWire(m: Manager, phone: int)
    requires phone in m.sessions
    ensures var cbs := [E.ExpiryTimer(E.T9), E.OnTerminal];
            OnCallbacks(m, phone, cbs).log == m.log + Wire(phone, m.sessions[phone].index, cbs)
  {
    var cbs, index := [E.ExpiryTimer(E.T9), E.OnTerminal], m.sessions[phone].index;
    var m1 := OnCallback(m, phone, cbs[0]);
    assert cbs[..1] == [cbs[0]] && [cbs[0]][..0] == [];
    assert OnCallbacks(m, phone, []) == m;
    assert OnCallbacks(m, phone, [cbs[0]]) == m1;
    assert Wire(phone, index, []) == [];
    assert Wire(phone, index, [cbs[0]]) == [TimerEvent(phone, E.T9, EXPIRED)];
  }

  // ---------------------------------------------------------------------------------------------
  // What the timer statuses mean
  // ---------------------------------------------------------------------------------------------

  /** The last thing a session said about a timer is that it runs. */
  function Running(t: Timer, out: seq<E.Callback>): bool {
    if out == [] then false
    else
      match out[|out| - 1]
      case StartTimer(u) => u == t || Running(t, out[..|out| - 1])
      case SendEvent(u, start) => if u == t then start else Running(t, out[..|out| - 1])
      case ExpiryTimer(u) => u != t && Running(t, out[..|out| - 1])
      case _ => Running(t, out[..|out| - 1])
  }

  /** The reported status of each timer is what the session last said of it. */
  ghost predicate StatusTrue(m: Manager, phone: int) {
    phone in m.sessions ==> forall t: Timer :: t in Active(m, phone) <==> Running(t, m.sessions[phone].p.out)
  }

  lemma {:induction false} CallbacksStatus(m: Manager, phone: int, cbs: seq<E.Callback>, before: seq<E.Callback>)
    requires forall t: Timer :: t in Active(m, phone) <==> Running(t, before)
    requires E.OnTerminal !in cbs
    ensures forall t: Timer :: t in Active(OnCallbacks(m, phone, cbs), phone) <==> Running(t, before + cbs)
    decreases |cbs|
  {
    if cbs == [] {
      assert before + cbs == before;
    } else {
      var front, last := cbs[..|cbs| - 1], cbs[|cbs| - 1];
      CallbacksStatus(m, phone, front, before);
      assert before + cbs == (before + front) + [last];
      OneStatus(OnCallbacks(m, phone, front), phone, last, before + front);
    }
  }

  lemma OneStatus(m: Manager, phone: int, cb: E.Callback, before: seq<E.Callback>)
    requires forall t: Timer :: t in Active(m, phone) <==> Running(t, before)
    requires cb != E.OnTerminal
    ensures forall t: Timer :: t in Active(OnCallback(m, phone, cb), phone) <==> Running(t, before + [cb])
  {
    assert (before + [cb])[..|before|] == before;
  }

  lemma DriveStatus(m: Manager, phone: int, e: E.Event)
    requires Inv(m) && StatusTrue(m, phone)
    ensures StatusTrue(Drive(m, phone, e), phone)
  {
    if phone in m.sessions {
      var l, l' := m.sessions[phone], Stepped(m, phone, e);
      DriveInv(m, phone, e);
      StepAppends(l.c, l.s, l.p, e);
      if !E.Terminates(l.c, l.s, e) { SteppedStatus(m, phone, l'); }
    }
  }

  lemma SteppedStatus(m: Manager, phone: int, l': Live)
    requires phone in m.sessions && StatusTrue(m, phone)
    requires m.sessions[phone].p.out <= l'.p.out && E.OnTerminal !in l'.p.out[|m.sessions[phone].p.out|..]
    ensures var m', n := m.(sessions := m.sessions[phone := l']), |m.sessions[phone].p.out|;
            forall t: Timer :: t in Active(OnCallbacks(m', phone, l'.p.out[n..]), phone) <==> Running(t, l'.p.out)
  {
    var before := m.sessions[phone].p.out;
    assert l'.p.out == before + l'.p.out[|before|..];
    CallbacksStatus(m.(sessions := m.sessions[phone := l']), phone, l'.p.out[|before|..], before);
  }

  /** Statuses of a phone only depend on its own entries. */
  lemma StatusFrame(m: Manager, m': Manager, phone: int, q: int)
    requires OthersSame(m, m', phone) && q != phone && StatusTrue(m, q)
    ensures StatusTrue(m', q)
  {
    if q in m'.sessions {
      assert q in m'.sessions - {phone} && m'.sessions[q] == (m.sessions - {phone})[q];
    }
  }

  lemma StatusSame(m: Manager, m': Manager, phone: int)
    requires StatusTrue(m, phone) && m'.active == m.active
    requires phone in m'.sessions ==> phone in m.sessions && m'.sessions[phone] == m.sessions[phone]
    ensures StatusTrue(m', phone)
  {}

  lemma RequestStatus(m: Manager, e: Event)
    requires Inv(m) && IsCallRequest(e) && StatusTrue(m, Subject(e).value)
    ensures StatusTrue(Act(m, e), Subject(e).value)
  {
    match e
    case StartEcall(phone, isPrivate, msd, remote, dial) => StartStatus(m, phone, isPrivate, msd, remote, dial);
    case EndEcall(phone, index) => if phone in m.sessions && m.sessions[phone].index == index { ReleasedInv(m, phone); }
    case RequestDeregistration(phone) =>
      if MayDeregister(m, phone) {
        var m1 := Publish(m, DeregistrationOk(phone));
        SettingsInv(m, m1);
        StatusSame(m, m1, phone);
        DriveStatus(m1, phone, E.Deregister);
      }
  }

  lemma StartStatus(m: Manager, phone: int, isPrivate: bool, msd: bool, remote: string, dial: string)
    requires Inv(m) && StatusTrue(m, phone)
    ensures StatusTrue(OnStartEcall(m, phone, isPrivate, msd, remote, dial), phone)
  {
    if !Busy(m, phone) {
      ClearInv(m, phone);
      var m1, m' := ReplaceCompleted(m, phone), OnStartEcall(m, phone, isPrivate, msd, remote, dial);
      assert Freed(m1, phone);
      assert m'.active == m1.active && m'.sessions[phone].p.out == [];
    }
  }

  lemma SessionEventStatus(m: Manager, e: Event)
    requires Inv(m) && Subject(e).Some? && !IsCallRequest(e) && StatusTrue(m, Subject(e).value)
    ensures StatusTrue(Act(m, e), Subject(e).value)
  {
    match e
    case SessionStart(phone) => DriveStatus(m, phone, E.Start);
    case SessionHangup(phone, fromPsap) =>
      if fromPsap { DriveStatus(m, phone, E.Hangup); } else { ReleasedInv(m, phone); }
    case SessionMsdPull(phone) => DriveStatus(m, phone, E.MsdPull);
    case HlapTimerExpiry(phone, t) =>
      PopInv(m, phone, t);
      StatusSame(m, m.(hlap := m.hlap - {(phone, t)}), phone);
      DriveStatus(m.(hlap := m.hlap - {(phone, t)}), phone, E.HlapExpiry(t, phone in m.settings.ecallOnly));
    case RedialTimerExpiry(phone) =>
      InvFromOthers(m, m.(redial := m.redial - {phone}), phone);
      StatusSame(m, m.(redial := m.redial - {phone}), phone);
      DriveStatus(m.(redial := m.redial - {phone}), phone, E.RedialExpiry);
  }

  lemma StepStatus(m: Manager, e: Event, q: int)
    requires Inv(m) && StatusTrue(m, q)
    ensures StatusTrue(Step(m, e), q)
  {
    if Subject(e).None? {
      OtherStep(m, e);
      StatusSame(m, Step(m, e), q);
    } else {
      StepIsAct(m, e);
      SubjectInv(m, e);
      if Subject(e).value != q {
        StatusFrame(m, Act(m, e), Subject(e).value, q);
      } else if IsCallRequest(e) {
        RequestStatus(m, e);
      } else {
        SessionEventStatus(m, e);
      }
    }
  }

  /**
    After any run the timers reported ACTIVE for a live call are exactly those its session last said were
    started, and no others; every other phone reports none.
   */
  lemma {:induction false} StatusFollowsCallbacks(ngDevice: bool, es: seq<Event>, phone: int)
    ensures Inv(Initial(ngDevice))
    ensures var m := Run(Initial(ngDevice), es);
            && StatusTrue(m, phone)
            && Step(m, QueryTimers(phone)) == m.(log := m.log + [TimerStatus(phone, Active(m, phone))])
            && (phone !in m.sessions ==> Active(m, phone) == {})
    decreases |es|
  {
    InitialInv(ngDevice);
    if es != [] {
      StatusFollowsCallbacks(ngDevice, es[..|es| - 1], phone);
      StepStatus(Run(Initial(ngDevice), es[..|es| - 1]), es[|es| - 1], phone);
    }
    assert phone !in Run(Initial(ngDevice), es).sessions ==> Freed(Run(Initial(ngDevice), es), phone);
  }

  // ---------------------------------------------------------------------------------------------
  // Scheduled expiries
  // ---------------------------------------------------------------------------------------------

  /**
    Starting a timer schedules its expiry after its length: five seconds for T5 and T6, T10's per phone
    and fifteen seconds unless changed, the configured ones otherwise. A length of nothing is posted at once.
   */
  lemma StartTimerSchedules(m: Manager, phone: int, t: Timer)
    ensures var m' := OnCallback(m, phone, E.StartTimer(t));
            var g := m.settings;
            var length := if t == E.T5 || t == E.T6 then 5000
                          else if t == E.T10 then (if phone in g.t10 then g.t10[phone] else 15000)
                          else if t == E.T2 then g.t2
                          else if t == E.T7 then g.t7 else g.t9;
            && t in Active(m', phone)
            && if length <= 0 then (phone, t) !in m'.hlap && m'.posted == m.posted + [HlapTimerExpiry(phone, t)]
               else (phone, t) in m'.hlap && m'.hlap[(phone, t)] == length && m'.posted == m.posted
  {}

  /** A redial delay likewise. */
  lemma StartRedialSchedules(m: Manager, phone: int, delay: int)
    ensures var m' := OnCallback(m, phone, E.StartRedialTimer(delay));
            if delay <= 0 then phone !in m'.redial && m'.posted == m.posted + [RedialTimerExpiry(phone)]
            else phone in m'.redial && m'.redial[phone] == delay && m'.posted == m.posted
  {}

  /**
    The end of the callback window of a regulatory call: with the phone in eCall-only mode the call stays,
    T10 running; otherwise everything held for the phone is released. T9 is reported expired either way.
   */
  lemma CallbackWindowEnds(m: Manager, phone: int)
    requires Inv(m) && phone in m.sessions && m.sessions[phone].s.state == E.PSAPCallback && !m.sessions[phone].c.custom
    ensures var m' := Step(m, HlapTimerExpiry(phone, E.T9));
            if phone in m.settings.ecallOnly then
              && phone in m'.sessions && m'.sessions[phone].s == m.sessions[phone].s
              && m'.log == m.log + [TimerEvent(phone, E.T9, EXPIRED), TimerEvent(phone, E.T10, STARTED)]
            else Freed(m', phone) && m'.log == m.log + [TimerEvent(phone, E.T9, EXPIRED)]
  {
    var m1 := m.(hlap := m.hlap - {(phone, E.T9)});
    PopInv(m, phone, E.T9);
    ExpiryIsDrive(m, phone, E.T9);
    DriveHandles(m1, phone, E.HlapExpiry(E.T9, phone in m.settings.ecallOnly));
    WindowHandled(m1, phone, phone in m.settings.ecallOnly, Step(m, HlapTimerExpiry(phone, E.T9)));
  }

  lemma WindowHandled(m: Manager, phone: int, on: bool, m': Manager)
    requires Inv(m) && phone in m.sessions && m.sessions[phone].s.state == E.PSAPCallback && !m.sessions[phone].c.custom
    requires Handled(m, phone, E.HlapExpiry(E.T9, on), m')
    ensures if on then
              && phone in m'.sessions && m'.sessions[phone].s == m.sessions[phone].s
              && m'.log == m.log + [TimerEvent(phone, E.T9, EXPIRED), TimerEvent(phone, E.T10, STARTED)]
            else Freed(m', phone) && m'.log == m.log + [TimerEvent(phone, E.T9, EXPIRED)]
  {
    WireTwo(phone, m.sessions[phone].index, E.ExpiryTimer(E.T9), if on then E.StartTimer(E.T10) else E.OnTerminal);
  }

  lemma WireTwo(phone: int, index: nat, a: E.Callback, b: E.Callback)
    ensures Wire(phone, index, [a, b]) == Indication(phone, index, a) + Indication(phone, index, b)
  {
    assert [a, b][..1] == [a] && [a][..0] == [];
    assert Wire(phone, index, []) == [];
    assert Wire(phone, index, [a]) == Indication(phone, index, a);
  }

  /** The session event that a manager event delivers, to whose session. */
  function Delivery(m: Manager, e: Event): Option<(int, E.Event)> {
    match e
    case SessionStart(phone) => Some((phone, E.Start))
    case SessionHangup(phone, _) => Some((phone, E.Hangup))
    case SessionMsdPull(phone) => Some((phone, E.MsdPull))
    case HlapTimerExpiry(phone, t) => Some((phone, E.HlapExpiry(t, phone in m.settings.ecallOnly)))
    case RedialTimerExpiry(phone) => Some((phone, E.RedialExpiry))
    case _ => None
  }

  /** The manager as a delivered event finds it: a fired timer's handle is gone. */
  function Popped(m: Manager, e: Event): Manager {
    match e
    case HlapTimerExpiry(phone, t) => m.(hlap := m.hlap - {(phone, t)})
    case RedialTimerExpiry(phone) => m.(redial := m.redial - {phone})
    case _ => m
  }

  lemma PoppedInv(m: Manager, e: Event)
    requires Inv(m) && Delivery(m, e).Some?
    ensures Inv(Popped(m, e))
  {
    if e.HlapTimerExpiry? { PopInv(m, e.phone, e.timer); }
    if e.RedialTimerExpiry? { InvFromOthers(m, Popped(m, e), e.phone); }
  }

  lemma DeliveryIsDrive(m: Manager, e: Event)
    requires Inv(m) && Delivery(m, e).Some? && !(e.SessionHangup? && !e.fromPsap)
    ensures Inv(Popped(m, e))
    ensures var (phone, se) := Delivery(m, e).value; Step(m, e) == Drive(Popped(m, e), phone, se)
  {
    PoppedInv(m, e);
  }

  /**
    Posted starts and pulls, the PSAP's hang-up and timer expiries are handled by the phone's session as
    its tables prescribe; without a session nothing happens but the handle of the timer going.
   */
  lemma DeliveredEventsHandled(m: Manager, e: Event)
    requires Inv(m) && Delivery(m, e).Some? && !(e.SessionHangup? && !e.fromPsap)
    ensures var (phone, se) := Delivery(m, e).value;
            if phone in m.sessions then Handled(m, phone, se, Step(m, e)) else Step(m, e) == Popped(m, e)
  {
    var (phone, se) := Delivery(m, e).value;
    DeliveryIsDrive(m, e);
    if phone in m.sessions { DriveHandles(Popped(m, e), phone, se); }
  }

  /** A hang-up by the user is shown like the PSAP's, and releases the phone. */
  lemma UserHangupReleases(m: Manager, phone: int)
    requires Inv(m)
    ensures var m' := Step(m, SessionHangup(phone, false));
            Freed(m', phone) && m'.log == Step(m, SessionHangup(phone, true)).log
  {
    ReleasedInv(m, phone);
  }

  /**
    end_ecall: unknown without a call of that index on the phone, changing nothing; otherwise the hang-up
    is shown, the phone released and the request answered last.
   */
  lemma EndAnswered(m: Manager, phone: int, index: nat)
    requires Inv(m)
    ensures var m' := Step(m, EndEcall(phone, index));
            if phone !in m.sessions || m.sessions[phone].index != index then m' == m.(log := m.log + [UnknownCall(phone)])
            else
              && Freed(m', phone)
              && m'.log == m.log + Wire(phone, index, Script(m.sessions[phone].c, m.sessions[phone].s, E.Hangup)) + [EndOk(phone)]
  {
    ReleasedInv(m, phone);
    if phone in m.sessions { DriveHandles(m, phone, E.Hangup); }
  }

  /** A pull is posted iff the phone has a call. */
  lemma PullPosted(m: Manager, phone: int)
    requires Inv(m)
    ensures Step(m, SendMsd(phone))
            == if phone in m.sessions then m.(posted := m.posted + [SessionMsdPull(phone)], log := m.log + [SendMsdOk(phone)])
               else m.(log := m.log + [NoActiveCall(phone)])
  {}

  /** A deregistration is refused unless T9 is over and T10 runs; it stops T10 of a call waiting in its window. */
  lemma DeregistrationStopsT10(m: Manager, phone: int)
    requires Inv(m)
    ensures var m' := Step(m, RequestDeregistration(phone));
            if E.T9 in Active(m, phone) || E.T10 !in Active(m, phone) then m' == m.(log := m.log + [DeregistrationRefused(phone)])
            else
              && phone in m.sessions
              && m'.log == m.log + [DeregistrationOk(phone)]
                           + (if m.sessions[phone].s.state == E.PSAPCallback && !m.sessions[phone].c.custom
                              then [TimerEvent(phone, E.T10, STOPPED)] else [])
  {
    if MayDeregister(m, phone) {
      DeregistrationFindsSession(m, phone);
      var m1, l := Publish(m, DeregistrationOk(phone)), m.sessions[phone];
      SettingsInv(m, m1);
      DriveHandles(m1, phone, E.Deregister);
      DeregisterWire(phone, l);
    }
  }

  lemma DeregisterWire(phone: int, l: Live)
    requires E.WellFormed(l.c) && E.Sound(l.c, l.s)
    ensures Wire(phone, l.index, Script(l.c, l.s, E.Deregister))
            == if l.s.state == E.PSAPCallback && !l.c.custom then [TimerEvent(phone, E.T10, STOPPED)] else []
  {
    assert [E.SendEvent(E.T10, false)][..0] == [];
    assert Wire(phone, l.index, []) == [];
  }

  // ---------------------------------------------------------------------------------------------
  // Settings
  // ---------------------------------------------------------------------------------------------

  function Given<T>(o: Option<T>, otherwise: T): T {
    match o
    case Some(x) => x
    case None => otherwise
  }

  /** The settings after an event, field by field. */
  ghost predicate SettingsAfter(g: Settings, g': Settings, e: Event) {
    && g'.ngDevice == g.ngDevice
    && g'.t2 == (if e.SetConfig? then Given(e.t2, g.t2) else g.t2)
    && g'.t7 == (if e.SetConfig? then Given(e.t7, g.t7) else g.t7)
    && g'.t9 == (if e.SetConfig? then Given(e.t9, g.t9) else g.t9)
    && g'.overridden == (if e.SetConfig? then Given(e.overridden, g.overridden) else g.overridden)
    && g'.overriddenNum == (if e.SetConfig? then Given(e.number, g.overriddenNum) else g.overriddenNum)
    && (forall q :: q in g'.ecallOnly <==>
          if e.SetOperatingMode? && e.phone == q then e.ecallOnly else q in g.ecallOnly)
    && (forall q :: (if q in g'.t10 then g'.t10[q] else 15000)
          == if e.UpdateTimer? && e.timer == E.T10 && e.phone == q then e.duration
             else if q in g.t10 then g.t10[q] else 15000)
    && (forall t: Timer :: t in g'.failed <==>
          t in g.failed || (e.ForceTimerFailure? && e.timer == t && (t == E.T5 || t == E.T6 || t == E.T7)))
    && g'.redial == (if !e.ForceRedialMode? then g.redial
                     else if e.forced.None? then None else Some((e.forced.value, e.succeedAt)))
    && g'.origGaps == (if e.ConfigureRedial? && e.mode == E.CALLORIG && 1 <= |e.timeGap| <= 10 then e.timeGap else g.origGaps)
    && g'.dropGaps == (if e.ConfigureRedial? && e.mode == E.CALLDROP && 1 <= |e.timeGap| <= 2 then e.timeGap else g.dropGaps)
  }

  /** Each event changes its own setting only, and exactly as it says. */
  lemma SettingEffects(m: Manager, e: Event)
    requires Inv(m)
    ensures SettingsAfter(m.settings, Step(m, e).settings, e)
  {
    if Subject(e).Some? {
      SubjectKeepsSettings(m, e);
    } else if IsSetting(e) {
      ConfiguredFields(m.settings, e);
    } else {
      OtherKeepsSettings(m, e);
    }
  }

  lemma ConfiguredFields(g: Settings, e: Event)
    requires IsSetting(e)
    ensures SettingsAfter(g, Configured(g, e), e)
  {}

  lemma OtherKeepsSettings(m: Manager, e: Event)
    requires Inv(m) && Subject(e).None? && !IsSetting(e)
    ensures SettingsAfter(m.settings, Step(m, e).settings, e)
  {
    if e.ConfigureRedial? {
      assert Step(m, e) == OnConfigureRedial(m, e.mode, e.timeGap);
      ConfiguredTables(m, e);
    } else {
      assert Step(m, e).settings == m.settings;
    }
  }

  lemma ConfiguredTables(m: Manager, e: Event)
    requires e.ConfigureRedial?
    ensures SettingsAfter(m.settings, OnConfigureRedial(m, e.mode, e.timeGap).settings, e)
  {
    var g, g' := m.settings, OnConfigureRedial(m, e.mode, e.timeGap).settings;
    assert g' == g.(origGaps := g'.origGaps, dropGaps := g'.dropGaps);
    SameButTables(g, g', e);
  }

  lemma SameButTables(g: Settings, g': Settings, e: Event)
    requires e.ConfigureRedial? && g' == g.(origGaps := g'.origGaps, dropGaps := g'.dropGaps)
    requires g'.origGaps == (if e.mode == E.CALLORIG && 1 <= |e.timeGap| <= 10 then e.timeGap else g.origGaps)
    requires g'.dropGaps == (if e.mode == E.CALLDROP && 1 <= |e.timeGap| <= 2 then e.timeGap else g.dropGaps)
    ensures SettingsAfter(g, g', e)
  {}

  lemma SubjectKeepsSettings(m: Manager, e: Event)
    requires Inv(m) && Subject(e).Some?
    ensures Step(m, e).settings == m.settings
  {
    StepIsAct(m, e);
    if IsCallRequest(e) { RequestKeepsSettings(m, e); } else { SessionEventKeepsSettings(m, e); }
  }

  lemma RequestKeepsSettings(m: Manager, e: Event)
    requires Inv(m) && IsCallRequest(e)
    ensures Act(m, e).settings == m.settings
  {
    match e
    case StartEcall(_, _, _, _, _) =>
    case EndEcall(phone, _) => DriveInv(m, phone, E.Hangup);
    case RequestDeregistration(phone) =>
      SettingsInv(m, Publish(m, DeregistrationOk(phone)));
      DriveInv(Publish(m, DeregistrationOk(phone)), phone, E.Deregister);
  }

  lemma SessionEventKeepsSettings(m: Manager, e: Event)
    requires Inv(m) && Subject(e).Some? && !IsCallRequest(e)
    ensures Act(m, e).settings == m.settings
  {
    match e
    case SessionStart(phone) => DriveInv(m, phone, E.Start);
    case SessionHangup(phone, _) => DriveInv(m, phone, E.Hangup);
    case SessionMsdPull(phone) => DriveInv(m, phone, E.MsdPull);
    case HlapTimerExpiry(phone, t) =>
      PopInv(m, phone, t);
      DriveInv(m.(hlap := m.hlap - {(phone, t)}), phone, E.HlapExpiry(t, phone in m.settings.ecallOnly));
    case RedialTimerExpiry(phone) =>
      InvFromOthers(m, m.(redial := m.redial - {phone}), phone);
      DriveInv(m.(redial := m.redial - {phone}), phone, E.RedialExpiry);
  }

  /** What requests that only read or set are answered with. */
  lemma RequestsAnswered(m: Manager, e: Event)
    requires Inv(m) && (IsQuery(e) || IsSetting(e) || e.ConfigureRedial?)
    ensures var m', g := Step(m, e), m.settings;
            m'.log == m.log +
              match e
              case AnswerEcall(phone, index) =>
                if phone in m.sessions && m.sessions[phone].index == index then [AnswerInvalidState(phone)]
                else [AnswerUnknownCall(phone)]
              case GetConfig => [ConfigIs(g.t2, g.t7, g.t9, g.overridden, g.overriddenNum)]
              case GetOperatingMode(phone) => [OperatingModeIs(phone, phone in g.ecallOnly)]
              case RequestTimer(phone, t) =>
                if t != E.T10 then [TimerNotSupported(phone, t)]
                else [TimerDuration(phone, if phone in g.t10 then g.t10[phone] else 15000)]
              case QueryTimers(phone) => [TimerStatus(phone, Active(m, phone))]
              case GetRedialConfig => [RedialTables(g.origGaps, g.dropGaps)]
              case Resubscribe => [SubsystemReady]
              case SetConfig(_, _, _, _, _) => [ConfigOk]
              case SetOperatingMode(phone, on) => [OperatingModeOk(phone), OperatingModeInd(phone, on)]
              case UpdateTimer(phone, t, _) => if t != E.T10 then [TimerNotSupported(phone, t)] else [UpdateTimerOk(phone)]
              case ConfigureRedial(mode, gaps) =>
                if 1 <= |gaps| <= (if mode == E.CALLORIG then 10 else 2) then [RedialConfigured] else [RedialRefused]
              case _ => []
  {}
}
