/**
  The eCall manager as a transition function: the session table, the recorded timers, the timer
  statuses and what each request or timer event does to them.
 */
module EcallManagerModel {
  import opened Common
  import E = EcallModel
  import opened EcallTheorems
  import opened EcallScript

  type Timer = E.Timer

  /** An eCall in the session table: its index, number, configuration, state and callback history. */
  datatype Live = Live(index: nat, number: string, c: E.Config, s: E.Session, p: E.Port)

  datatype TimerAction = STARTED | STOPPED | EXPIRED

  datatype Message =
    | CallState(phone: int, index: nat, phase: E.Phase)
    | TimerEvent(phone: int, timer: Timer, action: TimerAction)
    | MsdEvent(phone: int, status: E.MsdStatus)
    | RedialEvent(phone: int, willRedial: bool, reason: E.RedialReason)
    | StartOk(phone: int, index: nat)
    | DeviceInUse(phone: int)
    | EndOk(phone: int)
    | UnknownCall(phone: int)
    | SendMsdOk(phone: int)
    | NoActiveCall(phone: int)
    | TimerStatus(phone: int, active: set<Timer>)
    | DeregistrationOk(phone: int)
    | DeregistrationRefused(phone: int)
    | RedialConfigured
    | RedialRefused
    | AnswerUnknownCall(phone: int)
    | AnswerInvalidState(phone: int)
    | ConfigOk
    | ConfigIs(t2: int, t7: int, t9: int, overridden: bool, number: string)
    | OperatingModeOk(phone: int)
    | OperatingModeInd(phone: int, ecallOnly: bool)
    | OperatingModeIs(phone: int, ecallOnly: bool)
    | UpdateTimerOk(phone: int)
    | TimerNotSupported(phone: int, timer: Timer)
    | TimerDuration(phone: int, duration: int)
    | RedialTables(orig: seq<int>, drop: seq<int>)
    | SubsystemReady

  datatype Event =
    | StartEcall(phone: int, isPrivate: bool, msd: bool, remote: string, dial: string)
    | EndEcall(phone: int, index: nat)
    | SendMsd(phone: int)
    | AnswerEcall(phone: int, index: nat)
    | SetConfig(t2: Option<int>, t7: Option<int>, t9: Option<int>, overridden: Option<bool>, number: Option<string>)
    | GetConfig
    | SetOperatingMode(phone: int, ecallOnly: bool)
    | GetOperatingMode(phone: int)
    | UpdateTimer(phone: int, timer: Timer, duration: int)
    | RequestTimer(phone: int, timer: Timer)
    | QueryTimers(phone: int)
    | RequestDeregistration(phone: int)
    | ConfigureRedial(mode: E.RedialMode, timeGap: seq<int>)
    | GetRedialConfig
    | ForceTimerFailure(timer: Timer)
    | ForceRedialMode(forced: Option<E.RedialMode>, succeedAt: Option<int>)
    | SessionStart(phone: int)
    | SessionHangup(phone: int, fromPsap: bool)
    | SessionMsdPull(phone: int)
    | HlapTimerExpiry(phone: int, timer: Timer)
    | RedialTimerExpiry(phone: int)
    | Resubscribe

  datatype Settings = Settings(
    ngDevice: bool, t2: int, t7: int, t9: int, t10: map<int, int>,
    overridden: bool, overriddenNum: string, ecallOnly: set<int>,
    failed: set<Timer>, origGaps: seq<int>, dropGaps: seq<int>,
    redial: Option<(E.RedialMode, Option<int>)>)

  datatype Manager = Manager(
    sessions: map<int, Live>,
    hlap: map<(int, Timer), int>,    // the scheduled HLAP expiries, with their delays in ms
    redial: map<int, int>,           // the scheduled redial expiries, with their delays
    active: map<int, set<Timer>>,    // timers reported ACTIVE; a missing phone has none
    nextIndex: nat,
    settings: Settings,
    posted: seq<Event>,              // events posted to the manager itself
    log: seq<Message>)

  const DefaultSettings := Settings(
    false, 10000, 5000, 15000, map[], false, "", {}, {},
    [5000, 60000, 60000, 60000, 180000, 180000, 180000, 180000, 180000, 180000], [5000, 60000], None)

  function Initial(ngDevice: bool): Manager {
    Manager(map[], map[], map[], map[], 1, DefaultSettings.(ngDevice := ngDevice), [], [])
  }

  // ---------------------------------------------------------------------------------------------
  // Timers and callbacks
  // ---------------------------------------------------------------------------------------------

  /** T5 and T6 are fixed; the others are configurable, T10 per phone. */
  function Duration(g: Settings, phone: int, t: Timer): int {
    match t
    case T5 => 5000
    case T6 => 5000
    case T10 => if phone in g.t10 then g.t10[phone] else 15000
    case T2 => g.t2
    case T7 => g.t7
    case T9 => g.t9
  }

  function Active(m: Manager, phone: int): set<Timer> {
    if phone in m.active then m.active[phone] else {}
  }

  function Publish(m: Manager, msg: Message): Manager { m.(log := m.log + [msg]) }

  function SetActive(m: Manager, phone: int, t: Timer, on: bool): Manager {
    m.(active := m.active[phone := if on then Active(m, phone) + {t} else Active(m, phone) - {t}])
  }

  function ScheduleHlap(m: Manager, phone: int, t: Timer): Manager {
    if Duration(m.settings, phone, t) <= 0 then
      m.(hlap := m.hlap - {(phone, t)}, posted := m.posted + [HlapTimerExpiry(phone, t)])
    else m.(hlap := m.hlap[(phone, t) := Duration(m.settings, phone, t)])
  }

  function ScheduleRedial(m: Manager, phone: int, delay: int): Manager {
    if delay <= 0 then m.(redial := m.redial - {phone}, posted := m.posted + [RedialTimerExpiry(phone)])
    else m.(redial := m.redial[phone := delay])
  }

  /** The scheduled expiries of the other phones. */
  function Others(hlap: map<(int, Timer), int>, phone: int): map<(int, Timer), int> {
    map k | k in hlap && k.0 != phone :: hlap[k]
  }

  /** Releases everything the manager holds for a phone. */
  function ClearCallSlot(m: Manager, phone: int): Manager {
    m.(sessions := m.sessions - {phone},
       hlap := Others(m.hlap, phone),
       redial := m.redial - {phone},
       active := m.active[phone := {}])
  }

  /** The manager's side of one session callback. */
  function OnCallback(m: Manager, phone: int, cb: E.Callback): Manager {
    match cb
    case ChangeCallState(phase) =>
      if phone in m.sessions then Publish(m, CallState(phone, m.sessions[phone].index, phase)) else m
    case StartTimer(t) =>
      ScheduleHlap(Publish(SetActive(m, phone, t, true), TimerEvent(phone, t, STARTED)), phone, t)
    case SendEvent(t, start) =>
      Publish(SetActive(m, phone, t, start), TimerEvent(phone, t, if start then STARTED else STOPPED))
    case ExpiryTimer(t) => Publish(SetActive(m, phone, t, false), TimerEvent(phone, t, EXPIRED))
    case Msd(status) => Publish(m, MsdEvent(phone, status))
    case OnTerminal => ClearCallSlot(m, phone)
    case StartRedialTimer(delay) => ScheduleRedial(m, phone, delay)
    case OnRedial(willRedial, reason) => Publish(m, RedialEvent(phone, willRedial, reason))
  }

  function OnCallbacks(m: Manager, phone: int, cbs: seq<E.Callback>): Manager {
    if cbs == [] then m
    else OnCallback(OnCallbacks(m, phone, cbs[..|cbs| - 1]), phone, cbs[|cbs| - 1])
  }

  /** What handling an event needs: redial tables with an entry, and sessions inside theirs. */
  predicate Ready(m: Manager) {
    && m.settings.origGaps != [] && m.settings.dropGaps != []
    && forall phone :: phone in m.sessions ==> E.WellFormed(m.sessions[phone].c) && E.Sound(m.sessions[phone].c, m.sessions[phone].s)
  }

  /** Delivers an event to the session of a phone, if any, and acts on the callbacks it makes. */
  function Drive(m: Manager, phone: int, e: E.Event): Manager
    requires Ready(m)
  {
    if phone !in m.sessions then m
    else
      var l := m.sessions[phone];
      StepAppends(l.c, l.s, l.p, e);
      var mv := E.Step(l.c, l.s, l.p, e);
      OnCallbacks(m.(sessions := m.sessions[phone := l.(s := mv.s, p := mv.p)]), phone, mv.p.out[|l.p.out|..])
  }

  // ---------------------------------------------------------------------------------------------
  // Requests
  // ---------------------------------------------------------------------------------------------

  /** Number, custom-number flag and NG flag of a new call. */
  function CallTarget(g: Settings, isPrivate: bool, remote: string, dial: string): (string, bool, bool) {
    if isPrivate then (dial, false, true)
    else if remote != "" then (remote, true, g.ngDevice)
    else if g.overridden && g.overriddenNum != "" then (g.overriddenNum, true, g.ngDevice)
    else ("", false, g.ngDevice)
  }

  function NewConfig(g: Settings, custom: bool, ng: bool, msd: bool): E.Config {
    match g.redial
    case None => E.Config(msd, ng, custom, g.failed, None, None, [])
    case Some((mode, succeedAt)) =>
      E.Config(msd, ng, custom, g.failed, Some(mode), succeedAt,
               if mode == E.CALLORIG then g.origGaps else g.dropGaps)
  }

  predicate Replaceable(l: Live) { l.s.state == E.PSAPCallback || l.s.state == E.Terminal }

  predicate Busy(m: Manager, phone: int) {
    phone in m.sessions && !Replaceable(m.sessions[phone])
  }

  /** Tables a fresh session under the next call index and posts its start to itself. */
  function AddSession(m: Manager, phone: int, number: string, c: E.Config): Manager {
    m.(sessions := m.sessions[phone := Live(m.nextIndex, number, c, E.Fresh, E.Silent)],
       nextIndex := m.nextIndex + 1,
       posted := m.posted + [SessionStart(phone)],
       log := m.log + [StartOk(phone, m.nextIndex)])
  }

  function ReplaceCompleted(m: Manager, phone: int): Manager {
    if phone in m.sessions then ClearCallSlot(m, phone) else m
  }

  function OnStartEcall(m: Manager, phone: int, isPrivate: bool, msd: bool, remote: string, dial: string): Manager {
    if Busy(m, phone) then Publish(m, DeviceInUse(phone))
    else
      var (number, custom, ng) := CallTarget(m.settings, isPrivate, remote, dial);
      AddSession(ReplaceCompleted(m, phone), phone, number, NewConfig(m.settings, custom, ng, msd))
  }

  /** The slot is released once the hang-up has left the session in PSAPCallback. */
  function Released(m: Manager, phone: int): Manager {
    if phone in m.sessions && m.sessions[phone].s.state == E.PSAPCallback then ClearCallSlot(m, phone) else m
  }

  function OnEndEcall(m: Manager, phone: int, index: nat): Manager
    requires Ready(m)
  {
    if phone !in m.sessions || m.sessions[phone].index != index then Publish(m, UnknownCall(phone))
    else Publish(Released(Drive(m, phone, E.Hangup), phone), EndOk(phone))
  }

  predicate MayDeregister(m: Manager, phone: int) {
    E.T9 !in Active(m, phone) && E.T10 in Active(m, phone)
  }

  predicate GapsInBounds(mode: E.RedialMode, timeGap: seq<int>) {
    1 <= |timeGap| <= if mode == E.CALLORIG then 10 else 2
  }

  function Or<T>(o: Option<T>, d: T): T { if o.Some? then o.value else d }

  /** set_config, set_operating_mode, update_hlap_timer and the two force_* control actions. */
  predicate IsSetting(e: Event) {
    e.SetConfig? || e.SetOperatingMode? || e.UpdateTimer? || e.ForceTimerFailure? || e.ForceRedialMode?
  }

  function Configured(g: Settings, e: Event): Settings {
    match e
    case SetConfig(t2, t7, t9, overridden, number) =>
      g.(t2 := Or(t2, g.t2), t7 := Or(t7, g.t7), t9 := Or(t9, g.t9),
         overridden := Or(overridden, g.overridden), overriddenNum := Or(number, g.overriddenNum))
    case SetOperatingMode(phone, on) =>
      g.(ecallOnly := if on then g.ecallOnly + {phone} else g.ecallOnly - {phone})
    case UpdateTimer(phone, t, duration) => if t == E.T10 then g.(t10 := g.t10[phone := duration]) else g
    case ForceTimerFailure(t) => if t in {E.T5, E.T6, E.T7} then g.(failed := g.failed + {t}) else g
    case ForceRedialMode(mode, succeedAt) =>
      g.(redial := if mode.None? then None else Some((mode.value, succeedAt)))
    case _ => g
  }

  /** What a change of settings is answered with; control actions are not answered. */
  function Acknowledgement(e: Event): seq<Message> {
    match e
    case SetConfig(_, _, _, _, _) => [ConfigOk]
    case SetOperatingMode(phone, on) => [OperatingModeOk(phone), OperatingModeInd(phone, on)]
    case UpdateTimer(phone, t, _) => [if t == E.T10 then UpdateTimerOk(phone) else TimerNotSupported(phone, t)]
    case _ => []
  }

  /** Requests that only read, and the republishing of readiness after a reconnect. */
  predicate IsQuery(e: Event) {
    e.AnswerEcall? || e.GetConfig? || e.GetOperatingMode? || e.RequestTimer? || e.QueryTimers? || e.GetRedialConfig? || e.Resubscribe?
  }

  /** No session is ever in an answerable state, so answer_ecall is always refused. */
  function Answer(m: Manager, e: Event): Message
    requires IsQuery(e)
  {
    var g := m.settings;
    match e
    case AnswerEcall(phone, index) =>
      if phone !in m.sessions || m.sessions[phone].index != index then AnswerUnknownCall(phone)
      else AnswerInvalidState(phone)
    case GetConfig => ConfigIs(g.t2, g.t7, g.t9, g.overridden, g.overriddenNum)
    case GetOperatingMode(phone) => OperatingModeIs(phone, phone in g.ecallOnly)
    case RequestTimer(phone, t) =>
      if t == E.T10 then TimerDuration(phone, Duration(g, phone, E.T10)) else TimerNotSupported(phone, t)
    case QueryTimers(phone) => TimerStatus(phone, Active(m, phone))
    case GetRedialConfig => RedialTables(g.origGaps, g.dropGaps)
    case Resubscribe => SubsystemReady
  }

  function Step(m: Manager, e: Event): Manager
    requires Ready(m)
  {
    if IsQuery(e) then Publish(m, Answer(m, e))
    else if IsSetting(e) then m.(settings := Configured(m.settings, e), log := m.log + Acknowledgement(e))
    else Act(m, e)
  }

  function OnSendMsd(m: Manager, phone: int): Manager {
    if phone !in m.sessions then Publish(m, NoActiveCall(phone))
    else Publish(m.(posted := m.posted + [SessionMsdPull(phone)]), SendMsdOk(phone))
  }

  function OnRequestDeregistration(m: Manager, phone: int): Manager
    requires Ready(m)
  {
    if !MayDeregister(m, phone) then Publish(m, DeregistrationRefused(phone))
    else Drive(Publish(m, DeregistrationOk(phone)), phone, E.Deregister)
  }

  function OnConfigureRedial(m: Manager, mode: E.RedialMode, timeGap: seq<int>): Manager {
    if !GapsInBounds(mode, timeGap) then Publish(m, RedialRefused)
    else
      var g := m.settings;
      Publish(m.(settings := if mode == E.CALLORIG then g.(origGaps := timeGap) else g.(dropGaps := timeGap)),
              RedialConfigured)
  }

  /** A user's hang-up releases the slot, the PSAP's does not. */
  function OnSessionHangup(m: Manager, phone: int, fromPsap: bool): Manager
    requires Ready(m)
  {
    if fromPsap then Drive(m, phone, E.Hangup) else Released(Drive(m, phone, E.Hangup), phone)
  }

  /** A fired timer's handle is gone before its expiry is delivered. */
  function OnHlapTimer(m: Manager, phone: int, t: Timer): Manager
    requires Ready(m)
  {
    Drive(m.(hlap := m.hlap - {(phone, t)}), phone, E.HlapExpiry(t, phone in m.settings.ecallOnly))
  }

  function OnRedialTimer(m: Manager, phone: int): Manager
    requires Ready(m)
  {
    Drive(m.(redial := m.redial - {phone}), phone, E.RedialExpiry)
  }

  /** The events that concern calls, timers or the redial tables. */
  function Act(m: Manager, e: Event): Manager
    requires Ready(m) && !IsQuery(e) && !IsSetting(e)
  {
    match e
    case StartEcall(phone, isPrivate, msd, remote, dial) => OnStartEcall(m, phone, isPrivate, msd, remote, dial)
    case EndEcall(phone, index) => OnEndEcall(m, phone, index)
    case SendMsd(phone) => OnSendMsd(m, phone)
    case RequestDeregistration(phone) => OnRequestDeregistration(m, phone)
    case ConfigureRedial(mode, timeGap) => OnConfigureRedial(m, mode, timeGap)
    case SessionStart(phone) => Drive(m, phone, E.Start)
    case SessionHangup(phone, fromPsap) => OnSessionHangup(m, phone, fromPsap)
    case SessionMsdPull(phone) => Drive(m, phone, E.MsdPull)
    case HlapTimerExpiry(phone, t) => OnHlapTimer(m, phone, t)
    case RedialTimerExpiry(phone) => OnRedialTimer(m, phone)
  }

  // ---------------------------------------------------------------------------------------------
  // The invariant
  // ---------------------------------------------------------------------------------------------

  /** The session got where it is by some event sequence from a fresh one. */
  ghost predicate Traced(l: Live) {
    && E.WellFormed(l.c) && E.Sound(l.c, l.s)
    && exists es: seq<E.Event> :: E.Run(l.c, E.Fresh, E.Silent, es) == E.Move(l.s, l.p)
  }

  /** Nothing is held for the phone and all six of its timers are INACTIVE. */
  ghost predicate Freed(m: Manager, phone: int) {
    && phone !in m.sessions
    && phone !in m.redial
    && (forall t: Timer :: (phone, t) !in m.hlap)
    && Active(m, phone) == {}
  }

  ghost predicate Inv(m: Manager) {
    && m.settings.origGaps != [] && m.settings.dropGaps != []
    && (forall phone :: phone in m.sessions ==>
          Traced(m.sessions[phone]) && m.sessions[phone].s.state != E.Terminal)
    && (forall phone :: phone !in m.sessions ==> Freed(m, phone))
  }

  /** New callbacks go after the old ones, and on_terminal only comes from the terminating event. */
  ghost predicate Appended(base: seq<E.Callback>, q: E.Port) {
    base <= q.out && E.OnTerminal !in q.out[|base|..]
  }

  lemma StepAppends(c: E.Config, s: E.Session, p: E.Port, e: E.Event)
    requires E.WellFormed(c) && E.Sound(c, s)
    ensures p.out <= E.Step(c, s, p, e).p.out
    ensures !E.Terminates(c, s, e) ==> Appended(p.out, E.Step(c, s, p, e).p)
  {
    if E.Terminates(c, s, e) {
    } else {
      var I := q => Appended(p.out, q);
      forall q: E.Port, cb | I(q) && cb != E.OnTerminal ensures I(E.Emit(q, cb)) {
        assert (q.out + [cb])[|p.out|..] == q.out[|p.out|..] + [cb];
      }
      E.StepPreserves(I, c, s, p, e);
    }
  }

  /** Between two states, everything held for phones other than `phone` is the same; events were only posted. */
  ghost predicate OthersSame(m: Manager, m': Manager, phone: int) {
    && m.posted <= m'.posted
    && m.sessions - {phone} == m'.sessions - {phone}
    && (forall q :: q != phone ==> (q in m.redial <==> q in m'.redial) && Active(m, q) == Active(m', q))
    && (forall q, t: Timer :: q != phone ==> ((q, t) in m.hlap <==> (q, t) in m'.hlap))
  }

  lemma CallbackFrame(m: Manager, phone: int, cb: E.Callback)
    ensures OthersSame(m, OnCallback(m, phone, cb), phone) && OnCallback(m, phone, cb).settings == m.settings
    ensures cb != E.OnTerminal ==> OnCallback(m, phone, cb).sessions == m.sessions
    ensures cb == E.OnTerminal ==> Freed(OnCallback(m, phone, cb), phone)
  {}

  lemma {:induction false} CallbacksFrame(m: Manager, phone: int, cbs: seq<E.Callback>)
    ensures OthersSame(m, OnCallbacks(m, phone, cbs), phone) && OnCallbacks(m, phone, cbs).settings == m.settings
    ensures E.OnTerminal !in cbs ==> OnCallbacks(m, phone, cbs).sessions == m.sessions
    ensures cbs != [] && cbs[|cbs| - 1] == E.OnTerminal ==> Freed(OnCallbacks(m, phone, cbs), phone)
    decreases |cbs|
  {
    if cbs != [] {
      var front := cbs[..|cbs| - 1];
      CallbacksFrame(m, phone, front);
      CallbackFrame(OnCallbacks(m, phone, front), phone, cbs[|cbs| - 1]);
    }
  }

  /** Inv survives a change confined to one phone that leaves it freed or with a sound live session. */
  lemma InvFromOthers(m: Manager, m': Manager, phone: int)
    requires Inv(m) && OthersSame(m, m', phone) && m'.settings == m.settings
    requires phone in m'.sessions ==> Traced(m'.sessions[phone]) && m'.sessions[phone].s.state != E.Terminal
    requires phone !in m'.sessions ==> Freed(m', phone)
    ensures Inv(m')
  {
    forall q | q in m'.sessions ensures Traced(m'.sessions[q]) && m'.sessions[q].s.state != E.Terminal {
      if q != phone { assert q in m'.sessions - {phone}; assert m'.sessions[q] == (m'.sessions - {phone})[q]; }
    }
    forall q | q !in m'.sessions ensures Freed(m', q) {
      if q != phone { assert q !in m.sessions - {phone}; assert Freed(m, q); }
    }
  }

  lemma TracedStep(l: Live, e: E.Event)
    requires Traced(l)
    ensures var mv := E.Step(l.c, l.s, l.p, e); Traced(l.(s := mv.s, p := mv.p))
  {
    var es :| E.Run(l.c, E.Fresh, E.Silent, es) == E.Move(l.s, l.p);
    RunConcat(l.c, E.Fresh, E.Silent, es, [e]);
    RunOne(l.c, l.s, l.p, e);
    E.StepSound(l.c, l.s, l.p, e);
  }

  /** The terminating event ends with on_terminal; every other one keeps a live session alive. */
  lemma TerminalShape(c: E.Config, s: E.Session, p: E.Port, e: E.Event)
    requires E.WellFormed(c) && E.Sound(c, s) && s.state != E.Terminal
    ensures var mv := E.Step(c, s, p, e);
            && (mv.s.state == E.Terminal <==> E.Terminates(c, s, e))
            && (E.Terminates(c, s, e) ==> mv.p.out[|p.out|..] == [E.ExpiryTimer(E.T9), E.OnTerminal])
  {
    if !E.Terminates(c, s, e) { NotTerminal(c, s, p, e); }
  }

  lemma NotTerminal(c: E.Config, s: E.Session, p: E.Port, e: E.Event)
    requires E.WellFormed(c) && E.Sound(c, s) && s.state != E.Terminal && !E.Terminates(c, s, e)
    ensures E.Step(c, s, p, e).s.state != E.Terminal
  {
    forall s', q ensures E.InCall(E.EnterDecodeSendMsd(c, s', q).s.state) { DecodeSendKeepsRedial(c, s', q); }
    match e
    case Start =>
    case Hangup =>
    case MsdPull =>
    case Deregister =>
    case HlapExpiry(_, _) =>
    case RedialExpiry =>
  }

  // ---------------------------------------------------------------------------------------------
  // Every event keeps the invariant
  // ---------------------------------------------------------------------------------------------

  /** Where a driven session stands before its callbacks reach the manager. */
  function Stepped(m: Manager, phone: int, e: E.Event): Live
    requires Ready(m) && phone in m.sessions
  {
    var l := m.sessions[phone];
    var mv := E.Step(l.c, l.s, l.p, e);
    l.(s := mv.s, p := mv.p)
  }

  /** Driving a session concerns its own phone only; the session stays tabled unless it terminates. */
  lemma DriveInv(m: Manager, phone: int, e: E.Event)
    requires Inv(m)
    ensures Inv(Drive(m, phone, e)) && OthersSame(m, Drive(m, phone, e), phone)
    ensures Drive(m, phone, e).settings == m.settings
    ensures phone in m.sessions ==>
              var l := m.sessions[phone];
              if E.Terminates(l.c, l.s, e) then Freed(Drive(m, phone, e), phone)
              else Drive(m, phone, e).sessions == m.sessions[phone := Stepped(m, phone, e)]
  {
    if phone in m.sessions {
      var l, l' := m.sessions[phone], Stepped(m, phone, e);
      TracedStep(l, e);
      StepAppends(l.c, l.s, l.p, e);
      TerminalShape(l.c, l.s, l.p, e);
      var m1, cbs := m.(sessions := m.sessions[phone := l']), l'.p.out[|l.p.out|..];
      CallbacksFrame(m1, phone, cbs);
      assert m1.sessions - {phone} == m.sessions - {phone};
      InvFromOthers(m, Drive(m, phone, e), phone);
    }
  }

  lemma ClearInv(m: Manager, phone: int)
    requires Inv(m)
    ensures Inv(ClearCallSlot(m, phone)) && OthersSame(m, ClearCallSlot(m, phone), phone)
    ensures Freed(ClearCallSlot(m, phone), phone)
  {
    InvFromOthers(m, ClearCallSlot(m, phone), phone);
  }

  lemma FreshTraced(index: nat, number: string, c: E.Config)
    requires E.WellFormed(c)
    ensures Traced(Live(index, number, c, E.Fresh, E.Silent))
  {
    assert E.Run(c, E.Fresh, E.Silent, []) == E.Move(E.Fresh, E.Silent);
  }

  lemma StartInv(m: Manager, phone: int, isPrivate: bool, msd: bool, remote: string, dial: string)
    requires Inv(m)
    ensures Inv(OnStartEcall(m, phone, isPrivate, msd, remote, dial))
    ensures OthersSame(m, OnStartEcall(m, phone, isPrivate, msd, remote, dial), phone)
  {
    if !Busy(m, phone) {
      ClearInv(m, phone);
      var (number, custom, ng) := CallTarget(m.settings, isPrivate, remote, dial);
      FreshTraced(m.nextIndex, number, NewConfig(m.settings, custom, ng, msd));
      var m' := OnStartEcall(m, phone, isPrivate, msd, remote, dial);
      assert m'.sessions - {phone} == m.sessions - {phone};
      InvFromOthers(m, m', phone);
    }
  }

  /** A hang-up leaves any tabled session in PSAPCallback. */
  lemma HangupEnds(m: Manager, phone: int)
    requires Inv(m) && phone in m.sessions
    ensures var m' := Drive(m, phone, E.Hangup);
            && phone in m'.sessions && m'.sessions[phone].s.state == E.PSAPCallback
            && m'.sessions[phone].index == m.sessions[phone].index
  {
    DriveInv(m, phone, E.Hangup);
  }

  lemma ReleasedInv(m: Manager, phone: int)
    requires Inv(m)
    ensures Inv(Released(Drive(m, phone, E.Hangup), phone))
    ensures OthersSame(m, Released(Drive(m, phone, E.Hangup), phone), phone)
    ensures Freed(Released(Drive(m, phone, E.Hangup), phone), phone)
  {
    DriveInv(m, phone, E.Hangup);
    if phone in m.sessions {
      HangupEnds(m, phone);
      ClearInv(Drive(m, phone, E.Hangup), phone);
    }
  }

  lemma ExpiryInv(m: Manager, phone: int, t: Timer)
    requires Inv(m)
    ensures var m' := OnHlapTimer(m, phone, t); Inv(m') && OthersSame(m, m', phone)
  {
    var m1 := m.(hlap := m.hlap - {(phone, t)});
    InvFromOthers(m, m1, phone);
    DriveInv(m1, phone, E.HlapExpiry(t, phone in m.settings.ecallOnly));
  }

  lemma RedialExpiryInv(m: Manager, phone: int)
    requires Inv(m)
    ensures var m' := OnRedialTimer(m, phone); Inv(m') && OthersSame(m, m', phone)
  {
    var m1 := m.(redial := m.redial - {phone});
    InvFromOthers(m, m1, phone);
    DriveInv(m1, phone, E.RedialExpiry);
  }

  lemma EndInv(m: Manager, phone: int, index: nat)
    requires Inv(m)
    ensures var m' := OnEndEcall(m, phone, index); Inv(m') && OthersSame(m, m', phone)
  {
    ReleasedInv(m, phone);
    var m1 := Released(Drive(m, phone, E.Hangup), phone);
    SettingsInv(m1, Publish(m1, EndOk(phone)));
    SettingsInv(m, Publish(m, UnknownCall(phone)));
  }

  lemma DeregisterInv(m: Manager, phone: int)
    requires Inv(m)
    ensures var m' := OnRequestDeregistration(m, phone); Inv(m') && OthersSame(m, m', phone)
  {
    SettingsInv(m, Publish(m, DeregistrationOk(phone)));
    SettingsInv(m, Publish(m, DeregistrationRefused(phone)));
    DriveInv(Publish(m, DeregistrationOk(phone)), phone, E.Deregister);
  }

  lemma HangupInv(m: Manager, phone: int, fromPsap: bool)
    requires Inv(m)
    ensures var m' := OnSessionHangup(m, phone, fromPsap); Inv(m') && OthersSame(m, m', phone)
  {
    ReleasedInv(m, phone);
    DriveInv(m, phone, E.Hangup);
  }

  /** The table, the timers and the statuses are untouched, so the invariant is about the same things. */
  lemma SettingsInv(m: Manager, m': Manager)
    requires Inv(m) && m'.settings.origGaps != [] && m'.settings.dropGaps != []
    requires m'.sessions == m.sessions && m'.hlap == m.hlap && m'.redial == m.redial && m'.active == m.active
    ensures Inv(m')
  {
    forall q | q !in m'.sessions ensures Freed(m', q) { assert Freed(m, q); }
  }

  /** The events that can touch a session or a timer, and the phone they are about. */
  function Subject(e: Event): Option<int> {
    match e
    case StartEcall(phone, _, _, _, _) => Some(phone)
    case EndEcall(phone, _) => Some(phone)
    case RequestDeregistration(phone) => Some(phone)
    case SessionStart(phone) => Some(phone)
    case SessionHangup(phone, _) => Some(phone)
    case SessionMsdPull(phone) => Some(phone)
    case HlapTimerExpiry(phone, _) => Some(phone)
    case RedialTimerExpiry(phone) => Some(phone)
    case _ => None
  }

  /** The requests among them; the others come from sessions and timers. */
  predicate IsCallRequest(e: Event) { e.StartEcall? || e.EndEcall? || e.RequestDeregistration? }

  lemma StepIsAct(m: Manager, e: Event)
    requires Ready(m) && Subject(e).Some?
    ensures Step(m, e) == Act(m, e)
  {}

  lemma RequestInv(m: Manager, e: Event)
    requires Inv(m) && IsCallRequest(e)
    ensures Inv(Act(m, e)) && OthersSame(m, Act(m, e), Subject(e).value)
  {
    match e
    case StartEcall(phone, isPrivate, msd, remote, dial) => StartInv(m, phone, isPrivate, msd, remote, dial);
    case EndEcall(phone, index) => EndInv(m, phone, index);
    case RequestDeregistration(phone) => DeregisterInv(m, phone);
  }

  lemma SessionEventInv(m: Manager, e: Event)
    requires Inv(m) && Subject(e).Some? && !IsCallRequest(e)
    ensures Inv(Act(m, e)) && OthersSame(m, Act(m, e), Subject(e).value)
  {
    match e
    case SessionStart(phone) => DriveInv(m, phone, E.Start);
    case SessionHangup(phone, fromPsap) => HangupInv(m, phone, fromPsap);
    case SessionMsdPull(phone) => DriveInv(m, phone, E.MsdPull);
    case HlapTimerExpiry(phone, t) => ExpiryInv(m, phone, t);
    case RedialTimerExpiry(phone) => RedialExpiryInv(m, phone);
  }

  lemma SubjectInv(m: Manager, e: Event)
    requires Inv(m) && Subject(e).Some?
    ensures Inv(Step(m, e)) && OthersSame(m, Step(m, e), Subject(e).value)
  {
    StepIsAct(m, e);
    if IsCallRequest(e) { RequestInv(m, e); } else { SessionEventInv(m, e); }
  }

  lemma StepInv(m: Manager, e: Event)
    requires Inv(m)
    ensures Inv(Step(m, e))
  {
    if Subject(e).Some? { SubjectInv(m, e); } else { OtherStep(m, e); SettingsInv(m, Step(m, e)); }
  }

  ghost function Run(m: Manager, es: seq<Event>): (r: Manager)
    requires Inv(m)
    ensures Inv(r)
  {
    if es == [] then m
    else
      var before := Run(m, es[..|es| - 1]);
      StepInv(before, es[|es| - 1]);
      Step(before, es[|es| - 1])
  }

  lemma InitialInv(ngDevice: bool)
    ensures Inv(Initial(ngDevice))
  {}

  // ---------------------------------------------------------------------------------------------
  // What the invariant gives
  // ---------------------------------------------------------------------------------------------

  /** A phone without a session has no timer recorded and reports all six INACTIVE, after any run. */
  lemma NoSessionNoTimers(ngDevice: bool, es: seq<Event>, phone: int)
    ensures Inv(Initial(ngDevice))
    ensures var m := Run(Initial(ngDevice), es);
            phone !in m.sessions ==> Freed(m, phone) && Step(m, QueryTimers(phone)).log == m.log + [TimerStatus(phone, {})]
  {
    InitialInv(ngDevice);
  }

  /** A deregistration that is not refused finds a live session. */
  lemma DeregistrationFindsSession(m: Manager, phone: int)
    requires Inv(m) && MayDeregister(m, phone)
    ensures phone in m.sessions
  {
    assert phone !in m.sessions ==> Freed(m, phone);
  }

  /** An accepted end_ecall frees the phone, whatever state the session was in. */
  lemma EndFrees(m: Manager, phone: int, index: nat)
    requires Inv(m) && phone in m.sessions && m.sessions[phone].index == index
    ensures var m' := Step(m, EndEcall(phone, index));
            Freed(m', phone) && |m'.log| > 0 && m'.log[|m'.log| - 1] == EndOk(phone)
  {
    ReleasedInv(m, phone);
  }

  predicate Starts(e: Event, phone: int) { e.StartEcall? && e.phone == phone }

  lemma FrameFreed(m: Manager, m': Manager, phone: int, q: int)
    requires OthersSame(m, m', phone) && q != phone && Freed(m, q)
    ensures Freed(m', q)
  {
    assert q !in m.sessions - {phone};
  }

  /** An event about a phone without a session at most takes away a stale handle. */
  lemma OwnEventsFreed(m: Manager, e: Event)
    requires Inv(m) && Subject(e).Some? && Freed(m, Subject(e).value) && !e.StartEcall?
    ensures var m', phone := Step(m, e), Subject(e).value;
            && m'.sessions == m.sessions && m'.active == m.active
            && m'.hlap.Keys <= m.hlap.Keys && m'.redial.Keys <= m.redial.Keys
  {
    var phone := Subject(e).value;
    match e
    case EndEcall(_, _) =>
    case RequestDeregistration(_) =>
    case SessionStart(_) =>
    case SessionHangup(_, _) =>
    case SessionMsdPull(_) =>
    case HlapTimerExpiry(_, t) => ExpiryIsDrive(m, phone, t);
    case RedialTimerExpiry(_) =>
  }

  /** A freed phone stays freed under every event but its own next start, stale timers included. */
  lemma StaysFreed(m: Manager, phone: int, e: Event)
    requires Inv(m) && Freed(m, phone) && !Starts(e, phone)
    ensures Freed(Step(m, e), phone)
  {
    var m' := Step(m, e);
    if Subject(e).None? {
      OtherStep(m, e);
    } else if Subject(e).value != phone {
      SubjectInv(m, e);
      FrameFreed(m, m', Subject(e).value, phone);
    } else {
      OwnEventsFreed(m, e);
      assert Freed(m', phone) by { assert forall t: Timer :: (phone, t) !in m'.hlap; }
    }
  }

  lemma {:induction false} RunStaysFreed(m: Manager, phone: int, es: seq<Event>)
    requires Inv(m) && Freed(m, phone) && forall e :: e in es ==> !Starts(e, phone)
    ensures Freed(Run(m, es), phone)
    decreases |es|
  {
    if es != [] {
      RunStaysFreed(m, phone, es[..|es| - 1]);
      StaysFreed(Run(m, es[..|es| - 1]), phone, es[|es| - 1]);
    }
  }

  /**
    After an accepted end_ecall, and whatever else happens short of a start on that phone, the next
    start_ecall on it is accepted: never DEVICE_IN_USE.
   */
  lemma NextStartAccepted(m: Manager, phone: int, index: nat, es: seq<Event>, start: Event)
    requires Inv(m) && phone in m.sessions && m.sessions[phone].index == index
    requires (forall e :: e in es ==> !Starts(e, phone)) && Starts(start, phone)
    ensures Inv(Step(m, EndEcall(phone, index)))
    ensures var m' := Run(Step(m, EndEcall(phone, index)), es);
            && Step(m', start).log == m'.log + [StartOk(phone, m'.nextIndex)]
            && phone in Step(m', start).sessions
  {
    EndFrees(m, phone, index);
    StepInv(m, EndEcall(phone, index));
    RunStaysFreed(Step(m, EndEcall(phone, index)), phone, es);
  }

  // ---------------------------------------------------------------------------------------------
  // The session's outstanding expiries are the manager's recorded timers
  // ---------------------------------------------------------------------------------------------

  function StartedIn(cbs: seq<E.Callback>): set<Timer> {
    set cb | cb in cbs && cb.StartTimer? :: cb.timer
  }

  lemma StartedInLast(cbs: seq<E.Callback>, cb: E.Callback)
    ensures StartedIn(cbs + [cb]) == StartedIn(cbs) + (if cb.StartTimer? then {cb.timer} else {})
  {
    forall t | t in StartedIn(cbs) + (if cb.StartTimer? then {cb.timer} else {}) ensures t in StartedIn(cbs + [cb]) {
      if t in StartedIn(cbs) {
        var cb' :| cb' in cbs && cb'.StartTimer? && cb'.timer == t;
        assert cb' in cbs + [cb];
      } else {
        assert cb in cbs + [cb];
      }
    }
  }

  /** An event arms exactly the timers that its callbacks start. */
  ghost predicate ArmedBy(p: E.Port, armed: set<Timer>, q: E.Port) {
    p.out <= q.out && q.armed == armed + StartedIn(q.out[|p.out|..])
  }

  lemma StepArmed(c: E.Config, s: E.Session, p: E.Port, e: E.Event)
    requires E.WellFormed(c) && E.Sound(c, s)
    ensures ArmedBy(p, E.Before(p, e).armed, E.Step(c, s, p, e).p)
  {
    var armed := E.Before(p, e).armed;
    var I := q => ArmedBy(p, armed, q);
    forall q: E.Port, cb | I(q) ensures I(E.Emit(q, cb)) {
      assert (q.out + [cb])[|p.out|..] == q.out[|p.out|..] + [cb];
      StartedInLast(q.out[|p.out|..], cb);
    }
    assert E.Before(p, e).out[|p.out|..] == [];
    E.StepPreserves(I, c, s, p, e);
  }

  /**
    Recorded timers are outstanding, and every outstanding expiry is recorded or, its duration being
    nothing, was posted at once; the two fixed-length timers are always recorded.
   */
  predicate Records(m: Manager, phone: int, armed: set<Timer>) {
    && (forall t: Timer :: (phone, t) in m.hlap ==> t in armed)
    && (forall t: Timer :: t in armed ==> (phone, t) in m.hlap || HlapTimerExpiry(phone, t) in m.posted)
    && (E.T5 in armed ==> (phone, E.T5) in m.hlap)
    && (E.T6 in armed ==> (phone, E.T6) in m.hlap)
  }

  lemma {:induction false} CallbacksRecord(m: Manager, phone: int, cbs: seq<E.Callback>, armed: set<Timer>)
    requires Records(m, phone, armed) && E.OnTerminal !in cbs
    ensures Records(OnCallbacks(m, phone, cbs), phone, armed + StartedIn(cbs))
    decreases |cbs|
  {
    if cbs != [] {
      var front, last := cbs[..|cbs| - 1], cbs[|cbs| - 1];
      CallbacksRecord(m, phone, front, armed);
      assert cbs == front + [last] && last in cbs;
      StartedInLast(front, last);
      CallbackRecords(OnCallbacks(m, phone, front), phone, last, armed + StartedIn(front));
      assert armed + StartedIn(cbs) == armed + StartedIn(front) + (if last.StartTimer? then {last.timer} else {});
    }
  }

  lemma CallbackRecords(m: Manager, phone: int, cb: E.Callback, armed: set<Timer>)
    requires Records(m, phone, armed) && cb != E.OnTerminal
    ensures Records(OnCallback(m, phone, cb), phone, armed + (if cb.StartTimer? then {cb.timer} else {}))
  {}

  predicate Recorded(m: Manager, phone: int) {
    phone in m.sessions ==> Records(m, phone, m.sessions[phone].p.armed)
  }

  ghost predicate AllRecorded(m: Manager) { forall phone :: Recorded(m, phone) }

  lemma DriveRecords(m: Manager, phone: int, e: E.Event)
    requires Inv(m) && phone in m.sessions && Records(m, phone, E.Before(m.sessions[phone].p, e).armed)
    ensures Recorded(Drive(m, phone, e), phone)
  {
    var l, l' := m.sessions[phone], Stepped(m, phone, e);
    DriveInv(m, phone, e);
    StepArmed(l.c, l.s, l.p, e);
    StepAppends(l.c, l.s, l.p, e);
    if !E.Terminates(l.c, l.s, e) {
      CallbacksRecord(m.(sessions := m.sessions[phone := l']), phone, l'.p.out[|l.p.out|..], E.Before(l.p, e).armed);
    }
  }

  lemma FreshRecorded(m: Manager, m': Manager, phone: int)
    requires Freed(m, phone) && m'.hlap == m.hlap && phone in m'.sessions && m'.sessions[phone].p == E.Silent
    ensures Recorded(m', phone)
  {}

  lemma StartRecords(m: Manager, phone: int, isPrivate: bool, msd: bool, remote: string, dial: string)
    requires Inv(m) && Recorded(m, phone)
    ensures Recorded(OnStartEcall(m, phone, isPrivate, msd, remote, dial), phone)
  {
    if !Busy(m, phone) {
      ClearInv(m, phone);
      FreshRecorded(ReplaceCompleted(m, phone), OnStartEcall(m, phone, isPrivate, msd, remote, dial), phone);
    }
  }

  lemma EndRecords(m: Manager, phone: int, index: nat)
    requires Inv(m) && Recorded(m, phone)
    ensures Recorded(OnEndEcall(m, phone, index), phone)
  {
    if phone in m.sessions && m.sessions[phone].index == index { ReleasedInv(m, phone); }
  }

  lemma DeregisterRecords(m: Manager, phone: int)
    requires Inv(m) && Recorded(m, phone)
    ensures Recorded(OnRequestDeregistration(m, phone), phone)
  {
    var m1 := Publish(m, DeregistrationOk(phone));
    SettingsInv(m, m1);
    if phone in m1.sessions { DriveRecords(m1, phone, E.Deregister); }
  }

  lemma HangupRecords(m: Manager, phone: int, fromPsap: bool)
    requires Inv(m) && Recorded(m, phone)
    ensures Recorded(OnSessionHangup(m, phone, fromPsap), phone)
  {
    if fromPsap {
      if phone in m.sessions { DriveRecords(m, phone, E.Hangup); }
    } else {
      ReleasedInv(m, phone);
    }
  }

  lemma RedialRecords(m: Manager, phone: int)
    requires Inv(m) && Recorded(m, phone)
    ensures Recorded(OnRedialTimer(m, phone), phone)
  {
    var m1 := m.(redial := m.redial - {phone});
    InvFromOthers(m, m1, phone);
    if phone in m1.sessions { DriveRecords(m1, phone, E.RedialExpiry); }
  }

  lemma RequestRecords(m: Manager, e: Event)
    requires Inv(m) && IsCallRequest(e) && Recorded(m, Subject(e).value)
    ensures Recorded(Act(m, e), Subject(e).value)
  {
    match e
    case StartEcall(phone, isPrivate, msd, remote, dial) => StartRecords(m, phone, isPrivate, msd, remote, dial);
    case EndEcall(phone, index) => EndRecords(m, phone, index);
    case RequestDeregistration(phone) => DeregisterRecords(m, phone);
  }

  lemma SessionEventRecords(m: Manager, e: Event)
    requires Inv(m) && Subject(e).Some? && !IsCallRequest(e) && Recorded(m, Subject(e).value)
    ensures Recorded(Act(m, e), Subject(e).value)
  {
    var phone := Subject(e).value;
    match e
    case SessionHangup(_, fromPsap) => HangupRecords(m, phone, fromPsap);
    case RedialTimerExpiry(_) => RedialRecords(m, phone);
    case SessionStart(_) => if phone in m.sessions { DriveRecords(m, phone, E.Start); }
    case SessionMsdPull(_) => if phone in m.sessions { DriveRecords(m, phone, E.MsdPull); }
    case HlapTimerExpiry(_, t) =>
      if phone in m.sessions { HlapRecords(m, phone, E.HlapExpiry(t, phone in m.settings.ecallOnly)); }
  }

  lemma SubjectRecords(m: Manager, e: Event)
    requires Inv(m) && Subject(e).Some? && Recorded(m, Subject(e).value)
    ensures Recorded(Step(m, e), Subject(e).value)
  {
    if IsCallRequest(e) { RequestRecords(m, e); } else { SessionEventRecords(m, e); }
  }

  /** Popping a timer's handle keeps the invariant for every phone. */
  lemma PopInv(m: Manager, phone: int, t: Timer)
    requires Inv(m)
    ensures Inv(m.(hlap := m.hlap - {(phone, t)}))
  {
    InvFromOthers(m, m.(hlap := m.hlap - {(phone, t)}), phone);
  }

  lemma HlapRecords(m: Manager, phone: int, e: E.Event)
    requires Inv(m) && phone in m.sessions && Records(m, phone, m.sessions[phone].p.armed) && e.HlapExpiry?
    ensures Inv(m.(hlap := m.hlap - {(phone, e.timer)}))
    ensures Recorded(Drive(m.(hlap := m.hlap - {(phone, e.timer)}), phone, e), phone)
  {
    PopInv(m, phone, e.timer);
    PoppedRecords(m, phone, e.timer, m.sessions[phone].p.armed);
    DriveRecords(m.(hlap := m.hlap - {(phone, e.timer)}), phone, e);
  }

  lemma PoppedRecords(m: Manager, phone: int, t: Timer, armed: set<Timer>)
    requires Records(m, phone, armed)
    ensures Records(m.(hlap := m.hlap - {(phone, t)}), phone, armed - {t})
  {}

  lemma OtherRecorded(m: Manager, m': Manager, phone: int, q: int)
    requires OthersSame(m, m', phone) && q != phone && Recorded(m, q)
    ensures Recorded(m', q)
  {
    assert m'.posted[..|m.posted|] == m.posted;
    if q in m'.sessions {
      assert q in m'.sessions - {phone} && m'.sessions[q] == (m.sessions - {phone})[q];
    }
  }

  /** An event about no particular session touches settings at most, and posts at most an MSD pull. */
  lemma OtherStep(m: Manager, e: Event)
    requires Inv(m) && Subject(e).None?
    ensures var m' := Step(m, e);
            && m'.sessions == m.sessions && m'.hlap == m.hlap && m'.redial == m.redial && m'.active == m.active
            && m'.nextIndex == m.nextIndex && m.posted <= m'.posted
            && m'.settings.origGaps != [] && m'.settings.dropGaps != []
  {
    if IsQuery(e) {
    } else if IsSetting(e) {
      SettingKeepsGaps(m.settings, e);
    } else {
      ActedOther(m, e);
    }
  }

  lemma SettingKeepsGaps(g: Settings, e: Event)
    ensures Configured(g, e).origGaps == g.origGaps && Configured(g, e).dropGaps == g.dropGaps
  {}

  lemma ActedOther(m: Manager, e: Event)
    requires Ready(m) && (e.SendMsd? || e.ConfigureRedial?)
    ensures var m' := Act(m, e);
            && m'.sessions == m.sessions && m'.hlap == m.hlap && m'.redial == m.redial && m'.active == m.active
            && m'.nextIndex == m.nextIndex && m.posted <= m'.posted
            && m'.settings.origGaps != [] && m'.settings.dropGaps != []
  {
    if e.SendMsd? { PullOther(m, e.phone); } else { ConfigureOther(m, e.mode, e.timeGap); }
  }

  lemma PullOther(m: Manager, phone: int)
    ensures var m' := OnSendMsd(m, phone); m.posted <= m'.posted && m' == m.(posted := m'.posted, log := m'.log)
  {}

  lemma ConfigureOther(m: Manager, mode: E.RedialMode, timeGap: seq<int>)
    requires m.settings.origGaps != [] && m.settings.dropGaps != []
    ensures var m' := OnConfigureRedial(m, mode, timeGap);
            && m' == m.(settings := m'.settings, log := m'.log)
            && m'.settings.origGaps != [] && m'.settings.dropGaps != []
  {}

  lemma StepRecords(m: Manager, e: Event)
    requires Inv(m) && AllRecorded(m)
    ensures AllRecorded(Step(m, e))
  {
    var m' := Step(m, e);
    if Subject(e).Some? {
      SubjectInv(m, e);
      SubjectRecords(m, e);
      var phone := Subject(e).value;
      forall q | q != phone ensures Recorded(m', q) { OtherRecorded(m, m', phone, q); }
    } else {
      OtherStep(m, e);
      forall q ensures Recorded(m', q) { OtherRecorded(m, m', q + 1, q); }
    }
  }

  lemma {:induction false} RunRecords(ngDevice: bool, es: seq<Event>)
    ensures Inv(Initial(ngDevice)) && AllRecorded(Run(Initial(ngDevice), es))
    decreases |es|
  {
    InitialInv(ngDevice);
    if es != [] {
      RunRecords(ngDevice, es[..|es| - 1]);
      StepRecords(Run(Initial(ngDevice), es[..|es| - 1]), es[|es| - 1]);
    }
  }

  /** What a traced session inherits from the theorems about single sessions. */
  lemma TracedSessions(l: Live, ecallOnly: bool)
    requires Traced(l)
    ensures E.Disciplined(l.p.out)
    ensures !Strands(l.c) && AwaitedTimer(l.s.state).Some? ==>
              && E.Sound(l.c, l.s)
              && AwaitedTimer(l.s.state).value in l.p.armed
              && E.Step(l.c, l.s, l.p, E.HlapExpiry(AwaitedTimer(l.s.state).value, ecallOnly)).s.state == E.CallConversation
  {
    var trace :| E.Run(l.c, E.Fresh, E.Silent, trace) == E.Move(l.s, l.p);
    E.NeverActiveAfterEnded(l.c, trace);
    if !Strands(l.c) && AwaitedTimer(l.s.state).Some? { AwaitedExpiryResumes(l.c, trace, ecallOnly); }
  }

  lemma ExpiryReachesSession(m: Manager, phone: int, e: E.Event)
    requires Inv(m) && phone in m.sessions && e.HlapExpiry? && m.sessions[phone].s.state != E.PSAPCallback
    ensures Inv(m.(hlap := m.hlap - {(phone, e.timer)})) && E.Sound(m.sessions[phone].c, m.sessions[phone].s)
    ensures var l, m' := m.sessions[phone], Drive(m.(hlap := m.hlap - {(phone, e.timer)}), phone, e);
            phone in m'.sessions && m'.sessions[phone].s == E.Step(l.c, l.s, l.p, e).s
  {
    PopInv(m, phone, e.timer);
    DriveInv(m.(hlap := m.hlap - {(phone, e.timer)}), phone, e);
  }

  lemma AwaitedDrive(m: Manager, phone: int, e: E.Event)
    requires Inv(m) && phone in m.sessions && !Strands(m.sessions[phone].c)
    requires e.HlapExpiry? && AwaitedTimer(m.sessions[phone].s.state) == Some(e.timer)
    ensures Ready(m.(hlap := m.hlap - {(phone, e.timer)}))
    ensures var m' := Drive(m.(hlap := m.hlap - {(phone, e.timer)}), phone, e);
            phone in m'.sessions && m'.sessions[phone].s.state == E.CallConversation
  {
    TracedSessions(m.sessions[phone], e.ecallOnly);
    ExpiryReachesSession(m, phone, e);
  }

  /** Delivering the awaited expiry through the manager puts the session into CallConversation. */
  lemma AwaitedExpiryDelivered(m: Manager, phone: int, t: Timer)
    requires Inv(m) && phone in m.sessions && !Strands(m.sessions[phone].c)
    requires AwaitedTimer(m.sessions[phone].s.state) == Some(t)
    ensures var m' := Step(m, HlapTimerExpiry(phone, t));
            phone in m'.sessions && m'.sessions[phone].s.state == E.CallConversation
  {
    ExpiryIsDrive(m, phone, t);
    AwaitedDrive(m, phone, E.HlapExpiry(t, phone in m.settings.ecallOnly));
  }

  lemma ExpiryIsDrive(m: Manager, phone: int, t: Timer)
    requires Ready(m)
    ensures Step(m, HlapTimerExpiry(phone, t))
            == Drive(m.(hlap := m.hlap - {(phone, t)}), phone, E.HlapExpiry(t, phone in m.settings.ecallOnly))
  {}

  // ---------------------------------------------------------------------------------------------
  // The published call states
  // ---------------------------------------------------------------------------------------------

  /** The call states published for one call of one phone, in order. */
  function CallStates(log: seq<Message>, phone: int, index: nat): seq<E.Phase> {
    if log == [] then []
    else
      var last := log[|log| - 1];
      CallStates(log[..|log| - 1], phone, index)
      + (if last.CallState? && last.phone == phone && last.index == index then [last.phase] else [])
  }

  /** A DIALING comes before position `i` with no ENDED in between. */
  ghost predicate DialledBefore(ps: seq<E.Phase>, i: nat)
    requires i <= |ps|
  {
    exists j :: 0 <= j < i && ps[j] == E.DIALING && forall k :: j < k < i ==> ps[k] != E.ENDED
  }

  /** ALERTING and ACTIVE come only after a DIALING with no ENDED since. */
  ghost predicate InOrder(ps: seq<E.Phase>) {
    forall i :: 0 <= i < |ps| && (ps[i] == E.ALERTING || ps[i] == E.ACTIVE) ==> DialledBefore(ps, i)
  }

  lemma DialledLonger(ps: seq<E.Phase>, x: E.Phase, i: nat)
    requires i <= |ps|
    ensures DialledBefore(ps, i) <==> DialledBefore(ps + [x], i)
  {
    var qs := ps + [x];
    assert forall k :: 0 <= k < i ==> qs[k] == ps[k];
    if DialledBefore(ps, i) {
      var j :| 0 <= j < i && ps[j] == E.DIALING && forall k :: j < k < i ==> ps[k] != E.ENDED;
      assert qs[j] == E.DIALING;
    }
    if DialledBefore(qs, i) {
      var j :| 0 <= j < i && qs[j] == E.DIALING && forall k :: j < k < i ==> qs[k] != E.ENDED;
      assert ps[j] == E.DIALING;
    }
  }

  lemma InOrderLonger(ps: seq<E.Phase>, x: E.Phase)
    requires InOrder(ps) && (x == E.ALERTING || x == E.ACTIVE ==> DialledBefore(ps, |ps|))
    ensures InOrder(ps + [x])
  {
    forall i | 0 <= i < |ps + [x]| && ((ps + [x])[i] == E.ALERTING || (ps + [x])[i] == E.ACTIVE)
      ensures DialledBefore(ps + [x], i)
    {
      DialledLonger(ps, x, i);
    }
  }

  /** The last dial or end event of a session's callbacks, seen in its call states. */
  lemma {:induction false} LastDialPhase(out: seq<E.Callback>)
    ensures E.LastDial(out) == Some(E.DIALING) ==> DialledBefore(PhasesOf(out), |PhasesOf(out)|)
  {
    if out != [] {
      var last, ps := out[|out| - 1], PhasesOf(out[..|out| - 1]);
      LastDialPhase(out[..|out| - 1]);
      if last.ChangeCallState? { PhaseKeepsDialled(ps, last.phase); } else { assert PhasesOf(out) == ps; }
    }
  }

  lemma PhaseKeepsDialled(ps: seq<E.Phase>, x: E.Phase)
    ensures x == E.DIALING || (x != E.ENDED && DialledBefore(ps, |ps|)) ==> DialledBefore(ps + [x], |ps| + 1)
  {
    var qs := ps + [x];
    if x == E.DIALING {
      assert qs[|ps|] == E.DIALING;
    } else if x != E.ENDED && DialledBefore(ps, |ps|) {
      var j :| 0 <= j < |ps| && ps[j] == E.DIALING && forall k :: j < k < |ps| ==> ps[k] != E.ENDED;
      assert qs[j] == E.DIALING && forall k :: j < k < |qs| ==> qs[k] != E.ENDED;
    }
  }

  lemma {:induction false} PhasesInOrder(out: seq<E.Callback>)
    requires E.Disciplined(out)
    ensures InOrder(PhasesOf(out))
  {
    if out != [] {
      var front, last := out[..|out| - 1], out[|out| - 1];
      assert out == front + [last];
      E.DisciplinedLast(front, last);
      PhasesInOrder(front);
      LastDialPhase(front);
      if last.ChangeCallState? { InOrderLonger(PhasesOf(front), last.phase); } else { assert PhasesOf(out) == PhasesOf(front); }
    }
  }

  /** One more message: a call state goes to its own call, anything else to none. */
  lemma CallStatesLast(log: seq<Message>, msg: Message, phone: int, index: nat)
    ensures CallStates(log + [msg], phone, index)
            == CallStates(log, phone, index)
               + (if msg.CallState? && msg.phone == phone && msg.index == index then [msg.phase] else [])
  {
    assert (log + [msg])[..|log + [msg]| - 1] == log;
  }

  /** The same calls with the same published states. */
  ghost predicate SameStates(log: seq<Message>, log': seq<Message>) {
    forall phone, index :: CallStates(log', phone, index) == CallStates(log, phone, index)
  }

  lemma {:induction false} OtherMessages(log: seq<Message>, msgs: seq<Message>)
    requires forall x :: x in msgs ==> !x.CallState?
    ensures SameStates(log, log + msgs)
    decreases |msgs|
  {
    if msgs == [] {
      assert log + msgs == log;
    } else {
      var front, last := msgs[..|msgs| - 1], msgs[|msgs| - 1];
      OtherMessages(log, front);
      assert log + msgs == log + front + [last];
      forall phone, index ensures CallStates(log + msgs, phone, index) == CallStates(log, phone, index) {
        CallStatesLast(log + front, last, phone, index);
      }
    }
  }

  /** What the callbacks of one session publish: its own call states and nobody else's. */
  ghost predicate Published(log: seq<Message>, log': seq<Message>, phone: int, index: nat, phases: seq<E.Phase>) {
    forall q, i :: CallStates(log', q, i)
                   == if q == phone && i == index then CallStates(log, q, i) + phases else CallStates(log, q, i)
  }

  lemma CallbackPublishes(m: Manager, phone: int, cb: E.Callback)
    requires cb.ChangeCallState? ==> phone in m.sessions
    ensures if cb.ChangeCallState? then OnCallback(m, phone, cb).log == m.log + [CallState(phone, m.sessions[phone].index, cb.phase)]
            else SameStates(m.log, OnCallback(m, phone, cb).log)
  {
    match cb
    case StartTimer(t) => OtherMessages(m.log, [TimerEvent(phone, t, STARTED)]);
    case SendEvent(t, start) => OtherMessages(m.log, [TimerEvent(phone, t, if start then STARTED else STOPPED)]);
    case ExpiryTimer(t) => OtherMessages(m.log, [TimerEvent(phone, t, EXPIRED)]);
    case Msd(status) => OtherMessages(m.log, [MsdEvent(phone, status)]);
    case OnRedial(willRedial, reason) => OtherMessages(m.log, [RedialEvent(phone, willRedial, reason)]);
    case _ =>
  }

  lemma PublishedLonger(log: seq<Message>, log1: seq<Message>, log2: seq<Message>, phone: int, index: nat,
                        phases: seq<E.Phase>, cb: E.Callback)
    requires Published(log, log1, phone, index, phases)
    requires if cb.ChangeCallState? then log2 == log1 + [CallState(phone, index, cb.phase)] else SameStates(log1, log2)
    ensures Published(log, log2, phone, index, phases + (if cb.ChangeCallState? then [cb.phase] else []))
  {
    forall q, i
      ensures CallStates(log2, q, i)
              == if q == phone && i == index
                 then CallStates(log, q, i) + (phases + (if cb.ChangeCallState? then [cb.phase] else []))
                 else CallStates(log, q, i)
    {
      if cb.ChangeCallState? { CallStatesLast(log1, log2[|log1|], q, i); }
    }
  }

  lemma {:induction false} CallbacksPublish(m: Manager, phone: int, cbs: seq<E.Callback>)
    requires phone in m.sessions && E.OnTerminal !in cbs
    ensures Published(m.log, OnCallbacks(m, phone, cbs).log, phone, m.sessions[phone].index, PhasesOf(cbs))
    ensures OnCallbacks(m, phone, cbs).nextIndex == m.nextIndex
    decreases |cbs|
  {
    if cbs != [] {
      var front, last := cbs[..|cbs| - 1], cbs[|cbs| - 1];
      CallbacksPublish(m, phone, front);
      CallbacksFrame(m, phone, front);
      var m1, index := OnCallbacks(m, phone, front), m.sessions[phone].index;
      CallbackPublishes(m1, phone, last);
      PublishedLonger(m.log, m1.log, OnCallback(m1, phone, last).log, phone, index, PhasesOf(front), last);
    }
  }

  /**
    The log shows of every live call exactly the states its session reported, of every call ever made
    states in order, and nothing of calls not made yet.
   */
  ghost predicate Reported(m: Manager) {
    && (forall q :: q in m.sessions ==>
          && m.sessions[q].index < m.nextIndex
          && CallStates(m.log, q, m.sessions[q].index) == PhasesOf(m.sessions[q].p.out))
    && (forall q, i: nat :: i >= m.nextIndex ==> CallStates(m.log, q, i) == [])
    && (forall q, i: nat :: InOrder(CallStates(m.log, q, i)))
  }

  /** Sessions may leave and other messages be published. */
  lemma ReportedStill(m: Manager, m': Manager)
    requires Reported(m) && m'.nextIndex >= m.nextIndex && SameStates(m.log, m'.log)
    requires forall q :: q in m'.sessions ==> q in m.sessions && m'.sessions[q] == m.sessions[q]
    ensures Reported(m')
  {}

  lemma ReportedAfter(m: Manager, m': Manager, phone: int, l': Live, phases: seq<E.Phase>)
    requires Reported(m) && phone in m.sessions && l'.index == m.sessions[phone].index && m'.nextIndex == m.nextIndex
    requires m'.sessions == m.sessions[phone := l'] && Published(m.log, m'.log, phone, l'.index, phases)
    requires PhasesOf(l'.p.out) == PhasesOf(m.sessions[phone].p.out) + phases && InOrder(PhasesOf(l'.p.out))
    ensures Reported(m')
  {
    forall q, i: nat ensures InOrder(CallStates(m'.log, q, i)) && (i >= m'.nextIndex ==> CallStates(m'.log, q, i) == []) {
      assert InOrder(CallStates(m.log, q, i));
    }
  }

  /** What a session's next event adds to its call states leaves them in order. */
  lemma LongerInOrder(l: Live, l': Live, e: E.Event)
    requires Traced(l)
    requires var mv := E.Step(l.c, l.s, l.p, e); l' == l.(s := mv.s, p := mv.p) && l.p.out <= l'.p.out
    ensures PhasesOf(l'.p.out) == PhasesOf(l.p.out) + PhasesOf(l'.p.out[|l.p.out|..]) && InOrder(PhasesOf(l'.p.out))
  {
    TracedStep(l, e);
    TracedInOrder(l');
    SplitPhases(l.p.out, l'.p.out);
  }

  lemma TracedInOrder(l: Live)
    requires Traced(l)
    ensures InOrder(PhasesOf(l.p.out))
  {
    TracedSessions(l, true);
    PhasesInOrder(l.p.out);
  }

  lemma SplitPhases(a: seq<E.Callback>, b: seq<E.Callback>)
    requires a <= b
    ensures PhasesOf(b) == PhasesOf(a) + PhasesOf(b[|a|..])
  {
    assert b == a + b[|a|..];
    PhasesConcat(a, b[|a|..]);
  }

  lemma DriveReports(m: Manager, phone: int, e: E.Event)
    requires Inv(m) && Reported(m)
    ensures Reported(Drive(m, phone, e))
  {
    if phone in m.sessions {
      var l, l' := m.sessions[phone], Stepped(m, phone, e);
      DriveInv(m, phone, e);
      TerminalShape(l.c, l.s, l.p, e);
      StepAppends(l.c, l.s, l.p, e);
      var m1, cbs := m.(sessions := m.sessions[phone := l']), l'.p.out[|l.p.out|..];
      if E.Terminates(l.c, l.s, e) {
        TerminationPublishes(m1, phone);
        ReportedStill(m, Drive(m, phone, e));
      } else {
        CallbacksPublish(m1, phone, cbs);
        LongerInOrder(l, l', e);
        ReportedAfter(m, Drive(m, phone, e), phone, l', PhasesOf(cbs));
      }
    }
  }

  lemma TerminationPublishes(m: Manager, phone: int)
    ensures var m' := OnCallbacks(m, phone, [E.ExpiryTimer(E.T9), E.OnTerminal]);
            SameStates(m.log, m'.log) && m'.nextIndex == m.nextIndex && m'.sessions == m.sessions - {phone}
  {
    var cbs := [E.ExpiryTimer(E.T9), E.OnTerminal];
    assert cbs[..1] == [cbs[0]] && [cbs[0]][..0] == [];
    assert OnCallbacks(m, phone, []) == m;
    assert OnCallbacks(m, phone, [cbs[0]]) == OnCallback(m, phone, cbs[0]);
    OtherMessages(m.log, [TimerEvent(phone, E.T9, EXPIRED)]);
  }

  lemma StartReports(m: Manager, phone: int, isPrivate: bool, msd: bool, remote: string, dial: string)
    requires Inv(m) && Reported(m)
    ensures Reported(OnStartEcall(m, phone, isPrivate, msd, remote, dial))
  {
    if Busy(m, phone) {
      PublishReports(m, DeviceInUse(phone));
    } else {
      var m' := OnStartEcall(m, phone, isPrivate, msd, remote, dial);
      OtherMessages(m.log, [StartOk(phone, m.nextIndex)]);
      assert PhasesOf(E.Silent.out) == [] && m'.sessions[phone].index == m.nextIndex;
      ReportedFresh(m, m', phone);
    }
  }

  /** A fresh call joins under an index that nothing was published for. */
  lemma ReportedFresh(m: Manager, m': Manager, phone: int)
    requires Reported(m) && m'.nextIndex == m.nextIndex + 1 && SameStates(m.log, m'.log)
    requires phone in m'.sessions && m'.sessions[phone].index == m.nextIndex && PhasesOf(m'.sessions[phone].p.out) == []
    requires forall q :: q in m'.sessions && q != phone ==> q in m.sessions && m'.sessions[q] == m.sessions[q]
    ensures Reported(m')
  {}

  lemma PublishReports(m: Manager, msg: Message)
    requires Reported(m) && !msg.CallState?
    ensures Reported(Publish(m, msg))
  {
    OtherMessages(m.log, [msg]);
    ReportedStill(m, Publish(m, msg));
  }

  lemma ReleaseReports(m: Manager, phone: int)
    requires Inv(m) && Reported(m)
    ensures Reported(Released(Drive(m, phone, E.Hangup), phone))
  {
    DriveReports(m, phone, E.Hangup);
    ReportedStill(Drive(m, phone, E.Hangup), Released(Drive(m, phone, E.Hangup), phone));
  }

  lemma EndReports(m: Manager, phone: int, index: nat)
    requires Inv(m) && Reported(m)
    ensures Reported(OnEndEcall(m, phone, index))
  {
    if phone !in m.sessions || m.sessions[phone].index != index {
      PublishReports(m, UnknownCall(phone));
    } else {
      ReleaseReports(m, phone);
      PublishReports(Released(Drive(m, phone, E.Hangup), phone), EndOk(phone));
    }
  }

  lemma DeregisterReports(m: Manager, phone: int)
    requires Inv(m) && Reported(m)
    ensures Reported(OnRequestDeregistration(m, phone))
  {
    if MayDeregister(m, phone) {
      var m1 := Publish(m, DeregistrationOk(phone));
      PublishReports(m, DeregistrationOk(phone));
      SettingsInv(m, m1);
      DriveReports(m1, phone, E.Deregister);
    } else {
      PublishReports(m, DeregistrationRefused(phone));
    }
  }

  lemma ExpiryReports(m: Manager, phone: int, t: Timer)
    requires Inv(m) && Reported(m)
    ensures Reported(OnHlapTimer(m, phone, t))
  {
    PopInv(m, phone, t);
    DriveReports(m.(hlap := m.hlap - {(phone, t)}), phone, E.HlapExpiry(t, phone in m.settings.ecallOnly));
  }

  lemma RedialReports(m: Manager, phone: int)
    requires Inv(m) && Reported(m)
    ensures Reported(OnRedialTimer(m, phone))
  {
    InvFromOthers(m, m.(redial := m.redial - {phone}), phone);
    DriveReports(m.(redial := m.redial - {phone}), phone, E.RedialExpiry);
  }

  lemma RequestReports(m: Manager, e: Event)
    requires Inv(m) && Reported(m) && IsCallRequest(e)
    ensures Reported(Act(m, e))
  {
    match e
    case StartEcall(phone, isPrivate, msd, remote, dial) => StartReports(m, phone, isPrivate, msd, remote, dial);
    case EndEcall(phone, index) => EndReports(m, phone, index);
    case RequestDeregistration(phone) => DeregisterReports(m, phone);
  }

  lemma SessionEventReports(m: Manager, e: Event)
    requires Inv(m) && Reported(m) && Subject(e).Some? && !IsCallRequest(e)
    ensures Reported(Act(m, e))
  {
    match e
    case SessionStart(phone) => DriveReports(m, phone, E.Start);
    case SessionHangup(phone, _) => DriveReports(m, phone, E.Hangup); ReleaseReports(m, phone);
    case SessionMsdPull(phone) => DriveReports(m, phone, E.MsdPull);
    case HlapTimerExpiry(phone, t) => ExpiryReports(m, phone, t);
    case RedialTimerExpiry(phone) => RedialReports(m, phone);
  }

  lemma SubjectReports(m: Manager, e: Event)
    requires Inv(m) && Reported(m) && Subject(e).Some?
    ensures Reported(Step(m, e))
  {
    StepIsAct(m, e);
    if IsCallRequest(e) { RequestReports(m, e); } else { SessionEventReports(m, e); }
  }

  /** What an event about no particular session publishes. */
  ghost function Responses(m: Manager, e: Event): (msgs: seq<Message>)
    requires Inv(m) && Subject(e).None?
    ensures Step(m, e).log == m.log + msgs && forall x :: x in msgs ==> !x.CallState?
  {
    if IsQuery(e) then [Answer(m, e)]
    else if IsSetting(e) then Acknowledgement(e)
    else if e.SendMsd? then [if e.phone in m.sessions then SendMsdOk(e.phone) else NoActiveCall(e.phone)]
    else [if GapsInBounds(e.mode, e.timeGap) then RedialConfigured else RedialRefused]
  }

  lemma OtherReports(m: Manager, e: Event)
    requires Inv(m) && Reported(m) && Subject(e).None?
    ensures Reported(Step(m, e))
  {
    OtherStep(m, e);
    var msgs := Responses(m, e);
    OtherMessages(m.log, msgs);
    ReportedStill(m, Step(m, e));
  }

  lemma {:induction false} RunReports(ngDevice: bool, es: seq<Event>)
    ensures Inv(Initial(ngDevice)) && Reported(Run(Initial(ngDevice), es))
    decreases |es|
  {
    InitialInv(ngDevice);
    if es != [] {
      var m, e := Run(Initial(ngDevice), es[..|es| - 1]), es[|es| - 1];
      RunReports(ngDevice, es[..|es| - 1]);
      if Subject(e).Some? { SubjectReports(m, e); } else { OtherReports(m, e); }
    }
  }

  /**
    After any run, for every call ever made on any phone, live or gone, the published call states have
    ALERTING and ACTIVE only after a DIALING with no ENDED since.
   */
  lemma PublishedInOrder(ngDevice: bool, es: seq<Event>, phone: int, index: nat)
    ensures Inv(Initial(ngDevice))
    ensures InOrder(CallStates(Run(Initial(ngDevice), es).log, phone, index))
  {
    RunReports(ngDevice, es);
  }

  lemma AwaitedIsRecorded(m: Manager, phone: int)
    requires phone in m.sessions && Traced(m.sessions[phone]) && Recorded(m, phone)
    requires !Strands(m.sessions[phone].c) && AwaitedTimer(m.sessions[phone].s.state).Some?
    ensures var l := m.sessions[phone];
            var t := AwaitedTimer(l.s.state).value;
            && t in l.p.armed
            && ((phone, t) in m.hlap || (t == E.T7 && HlapTimerExpiry(phone, t) in m.posted))
  {
    TracedSessions(m.sessions[phone], true);
  }

  /**
    After any run, the log shows of every live call exactly the states its session reported and, unless
    its configuration is a stranding one, the session waits only for an expiry that is outstanding and
    either recorded with the manager or, with a duration of nothing, posted at once; T5 and T6, whose
    length is fixed, are recorded.
   */
  lemma LiveSessionsMakeProgress(ngDevice: bool, es: seq<Event>, phone: int)
    ensures Inv(Initial(ngDevice))
    ensures var m := Run(Initial(ngDevice), es);
            phone in m.sessions ==>
              var l := m.sessions[phone];
              && CallStates(m.log, phone, l.index) == PhasesOf(l.p.out)
              && (!Strands(l.c) && AwaitedTimer(l.s.state).Some? ==>
                    var t := AwaitedTimer(l.s.state).value;
                    && t in l.p.armed
                    && ((phone, t) in m.hlap || (t == E.T7 && HlapTimerExpiry(phone, t) in m.posted)))
  {
    RunRecords(ngDevice, es);
    RunReports(ngDevice, es);
    var m := Run(Initial(ngDevice), es);
    if phone in m.sessions {
      var l := m.sessions[phone];
      assert Recorded(m, phone);
      if !Strands(l.c) && AwaitedTimer(l.s.state).Some? { AwaitedIsRecorded(m, phone); }
    }
  }
}
