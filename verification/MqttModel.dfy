/** The MQTT connection state machine: subsystem lifecycle, timers and reconnect backoff. */
module MqttModel {
  datatype Phase = Off | Connecting | Operational | Reconnecting | Stopping

  datatype Action = SubStart | SubResubscribe | SubStop

  datatype Message =
    | Connack                       // a clean CONNACK: the backoff starts over
    | Entered                       // Operational entered
    | Sub(action: Action, i: nat)   // one call on subsystem `i`
    | Reconnect(delay: int)         // a reconnect timer scheduled, in ms

  /** `silent` are the subsystems that have no resubscribe operation and are passed over. */
  datatype Config = Config(
    initial: int, max: int, multiplier: real, connectTimeout: int, subsystems: nat, silent: set<nat>)

  datatype Client = Client(
    phase: Phase, failures: nat, started: bool,
    reconnectTimer: bool, connectTimer: bool, log: seq<Message>)

  datatype Event =
    | Start | Stop | LinkUp(rc: int) | LinkDown | ConnectTimeout | ReconnectTimer | DisconnectedAck

  const Initial := Client(Off, 0, false, false, false, [])

  // ---------------------------------------------------------------------------------------------
  // Backoff
  // ---------------------------------------------------------------------------------------------

  function Pow(b: real, e: nat): real { if e == 0 then 1.0 else b * Pow(b, e - 1) }

  /** `int(x)`: truncation toward zero. */
  function Truncate(x: real): int { if x >= 0.0 then x.Floor else -((-x).Floor) }

  function Min(a: int, b: int): int { if a <= b then a else b }

  function Scaled(c: Config, factor: real): real { c.initial as real * factor }

  /** The delay scheduled with `failures` failures on record. */
  function Delay(c: Config, failures: nat): int {
    var exponent := if failures == 0 then 0 else failures - 1;
    Min(Truncate(Scaled(c, Pow(c.multiplier, exponent))), c.max)
  }

  // ---------------------------------------------------------------------------------------------
  // Transitions
  // ---------------------------------------------------------------------------------------------

  /** One call on each subsystem but the skipped ones, in registration order. */
  function Fanout(a: Action, n: nat, skipped: set<nat>): seq<Message> {
    if n == 0 then []
    else Fanout(a, n - 1, skipped) + (if n - 1 in skipped then [] else [Sub(a, n - 1)])
  }

  /** What entering Operational calls: start the first time, resubscribe afterwards. */
  function EntryCalls(c: Config, started: bool): seq<Message> {
    if started then Fanout(SubResubscribe, c.subsystems, c.silent) else Fanout(SubStart, c.subsystems, {})
  }

  /** One call on each subsystem, last registered first. */
  function FanoutReversed(a: Action, n: nat): seq<Message> {
    if n == 0 then [] else [Sub(a, n - 1)] + FanoutReversed(a, n - 1)
  }

  function EnterConnecting(c: Config, s: Client): Client {
    s.(phase := Connecting, reconnectTimer := false, connectTimer := c.connectTimeout > 0)
  }

  function EnterOperational(c: Config, s: Client): Client {
    s.(phase := Operational, connectTimer := false, started := true,
       log := s.log + [Entered] + EntryCalls(c, s.started))
  }

  /** Records a failure and schedules the next attempt. */
  function Fail(c: Config, s: Client): Client {
    s.(phase := Reconnecting, failures := s.failures + 1, connectTimer := false, reconnectTimer := true,
       log := s.log + [Reconnect(Delay(c, s.failures + 1))])
  }

  function EnterStopping(c: Config, s: Client): Client {
    s.(phase := Stopping, connectTimer := false, reconnectTimer := false, started := false,
       log := if s.started then s.log + FanoutReversed(SubStop, c.subsystems) else s.log)
  }

  function Step(c: Config, s: Client, e: Event): Client {
    match s.phase
    case Off => if e.Start? then EnterConnecting(c, s) else s
    case Connecting =>
      if e.LinkUp? && e.rc == 0 then EnterOperational(c, s.(failures := 0, log := s.log + [Connack]))
      else if e.LinkUp? || e.LinkDown? || e.ConnectTimeout? then Fail(c, s)
      else if e.Stop? then EnterStopping(c, s) else s
    case Operational =>
      if e.LinkDown? then Fail(c, s) else if e.Stop? then EnterStopping(c, s) else s
    case Reconnecting =>
      if e.ReconnectTimer? then EnterConnecting(c, s) else if e.Stop? then EnterStopping(c, s) else s
    case Stopping => s
  }

  function Run(c: Config, es: seq<Event>): Client {
    if es == [] then Initial else Step(c, Run(c, es[..|es| - 1]), es[|es| - 1])
  }

  // ---------------------------------------------------------------------------------------------
  // Counting
  // ---------------------------------------------------------------------------------------------

  function Count(m: Message, log: seq<Message>): nat {
    if log == [] then 0 else Count(m, log[..|log| - 1]) + (if log[|log| - 1] == m then 1 else 0)
  }

  lemma {:induction false} CountConcat(m: Message, a: seq<Message>, b: seq<Message>)
    ensures Count(m, a + b) == Count(m, a) + Count(m, b)
    decreases |b|
  {
    if b == [] {
      assert a + b == a;
    } else {
      assert (a + b)[..|a + b| - 1] == a + b[..|b| - 1];
      CountConcat(m, a, b[..|b| - 1]);
    }
  }

  lemma CountOne(m: Message, x: Message)
    ensures Count(m, [x]) == if x == m then 1 else 0
  {
    assert [x][..0] == [];
  }

  lemma {:induction false} CountFanout(m: Message, a: Action, n: nat, skipped: set<nat>)
    ensures Count(m, Fanout(a, n, skipped)) == if m.Sub? && m.action == a && m.i < n && m.i !in skipped then 1 else 0
    ensures Count(m, FanoutReversed(a, n)) == if m.Sub? && m.action == a && m.i < n then 1 else 0
  {
    if n > 0 {
      CountFanout(m, a, n - 1, skipped);
      CountConcat(m, Fanout(a, n - 1, skipped), if n - 1 in skipped then [] else [Sub(a, n - 1)]);
      CountConcat(m, [Sub(a, n - 1)], FanoutReversed(a, n - 1));
      CountOne(m, Sub(a, n - 1));
    }
  }

  lemma {:induction false} CountMember(m: Message, log: seq<Message>)
    ensures Count(m, log) > 0 <==> m in log
    decreases |log|
  {
    if log != [] {
      CountMember(m, log[..|log| - 1]);
      assert log == log[..|log| - 1] + [log[|log| - 1]];
    }
  }

  // ---------------------------------------------------------------------------------------------
  // Lifecycle
  // ---------------------------------------------------------------------------------------------

  /** How often Operational was entered. */
  function Entries(s: Client): nat { Count(Entered, s.log) }

  function Calls(s: Client, a: Action, i: nat): nat { Count(Sub(a, i), s.log) }

  /** Started on the first entry, resubscribed on every later one, stopped on the way out. */
  predicate SubOk(c: Config, s: Client, i: nat) {
    && Calls(s, SubStart, i) == (if Entries(s) > 0 then 1 else 0)
    && Calls(s, SubResubscribe, i) == (if Entries(s) > 0 && i !in c.silent then Entries(s) - 1 else 0)
    && Calls(s, SubStop, i) == (if Entries(s) > 0 && s.phase == Stopping then 1 else 0)
  }

  ghost predicate Lifecycle(c: Config, s: Client) {
    && (s.started <==> Entries(s) > 0 && s.phase != Stopping)
    && (s.phase == Operational ==> Entries(s) > 0)
    && forall i: nat :: i < c.subsystems ==> SubOk(c, s, i)
  }

  /** Each timer handle is set exactly in its own state. */
  predicate Timers(c: Config, s: Client) {
    && (s.reconnectTimer <==> s.phase == Reconnecting)
    && (s.connectTimer <==> s.phase == Connecting && c.connectTimeout > 0)
  }

  lemma OperationalCounts(c: Config, s: Client, m: Message)
    ensures Count(m, EnterOperational(c, s.(failures := 0, log := s.log + [Connack])).log)
            == Count(m, s.log) + (if m == Connack then 1 else 0) + (if m == Entered then 1 else 0)
               + (if m.Sub? && m.i < c.subsystems
                     && m.action == (if s.started then SubResubscribe else SubStart) && !(s.started && m.i in c.silent)
                  then 1 else 0)
  {
    CountConcat(m, s.log, [Connack]);
    CountConcat(m, s.log + [Connack], [Entered]);
    CountConcat(m, s.log + [Connack] + [Entered], EntryCalls(c, s.started));
    CountOne(m, Connack);
    CountOne(m, Entered);
    CountFanout(m, SubStart, c.subsystems, {});
    CountFanout(m, SubResubscribe, c.subsystems, c.silent);
  }

  lemma OperationalLifecycle(c: Config, s: Client)
    requires Lifecycle(c, s) && s.phase == Connecting
    ensures Lifecycle(c, EnterOperational(c, s.(failures := 0, log := s.log + [Connack])))
  {
    var s' := EnterOperational(c, s.(failures := 0, log := s.log + [Connack]));
    OperationalCounts(c, s, Entered);
    forall i: nat | i < c.subsystems ensures SubOk(c, s', i) {
      assert SubOk(c, s, i);
      OperationalCounts(c, s, Sub(SubStart, i));
      OperationalCounts(c, s, Sub(SubResubscribe, i));
      OperationalCounts(c, s, Sub(SubStop, i));
    }
  }

  lemma StoppingCounts(c: Config, s: Client, m: Message)
    ensures Count(m, s.log + FanoutReversed(SubStop, c.subsystems))
            == Count(m, s.log) + (if m.Sub? && m.action == SubStop && m.i < c.subsystems then 1 else 0)
  {
    CountConcat(m, s.log, FanoutReversed(SubStop, c.subsystems));
    CountFanout(m, SubStop, c.subsystems, {});
  }

  lemma StoppingLifecycle(c: Config, s: Client)
    requires Lifecycle(c, s) && s.phase != Stopping
    ensures Lifecycle(c, EnterStopping(c, s))
  {
    StoppingCounts(c, s, Entered);
    forall i: nat | i < c.subsystems ensures SubOk(c, EnterStopping(c, s), i) {
      assert SubOk(c, s, i);
      StoppingCounts(c, s, Sub(SubStart, i));
      StoppingCounts(c, s, Sub(SubResubscribe, i));
      StoppingCounts(c, s, Sub(SubStop, i));
    }
  }

  lemma FailCounts(c: Config, s: Client, m: Message)
    requires !m.Reconnect?
    ensures Count(m, Fail(c, s).log) == Count(m, s.log)
  {
    CountConcat(m, s.log, [Reconnect(Delay(c, s.failures + 1))]);
    CountOne(m, Reconnect(Delay(c, s.failures + 1)));
  }

  lemma FailLifecycle(c: Config, s: Client)
    requires Lifecycle(c, s) && s.phase in {Connecting, Operational}
    ensures Lifecycle(c, Fail(c, s))
  {
    FailCounts(c, s, Entered);
    forall i: nat | i < c.subsystems ensures SubOk(c, Fail(c, s), i) {
      assert SubOk(c, s, i);
      FailCounts(c, s, Sub(SubStart, i));
      FailCounts(c, s, Sub(SubResubscribe, i));
      FailCounts(c, s, Sub(SubStop, i));
    }
  }

  lemma ConnectingLifecycle(c: Config, s: Client)
    requires Lifecycle(c, s) && s.phase in {Off, Reconnecting}
    ensures Lifecycle(c, EnterConnecting(c, s))
  {
    forall i: nat | i < c.subsystems ensures SubOk(c, EnterConnecting(c, s), i) { assert SubOk(c, s, i); }
  }

  lemma StepLifecycle(c: Config, s: Client, e: Event)
    requires Lifecycle(c, s) && Timers(c, s)
    ensures Lifecycle(c, Step(c, s, e)) && Timers(c, Step(c, s, e))
  {
    match s.phase
    case Off => ConnectingLifecycle(c, s);
    case Connecting => OperationalLifecycle(c, s); FailLifecycle(c, s); StoppingLifecycle(c, s);
    case Operational => FailLifecycle(c, s); StoppingLifecycle(c, s);
    case Reconnecting => ConnectingLifecycle(c, s); StoppingLifecycle(c, s);
    case Stopping =>
  }

  /**
    In every run each subsystem is started at most once, on the first entry to Operational, resubscribed
    on every later entry unless it cannot be, stopped at most once, on the way out and only if it was started; the two timer
    handles are set exactly in their own states; and Stopping is never left.
   */
  lemma {:induction false} LifecycleHolds(c: Config, es: seq<Event>)
    ensures Lifecycle(c, Run(c, es)) && Timers(c, Run(c, es))
    decreases |es|
  {
    if es != [] {
      LifecycleHolds(c, es[..|es| - 1]);
      StepLifecycle(c, Run(c, es[..|es| - 1]), es[|es| - 1]);
    }
  }

  lemma {:induction false} StoppingIsFinal(c: Config, a: seq<Event>, b: seq<Event>)
    requires Run(c, a).phase == Stopping
    ensures Run(c, a + b) == Run(c, a)
    decreases |b|
  {
    if b == [] {
      assert a + b == a;
    } else {
      StoppingIsFinal(c, a, b[..|b| - 1]);
      assert (a + b)[..|a + b| - 1] == a + b[..|b| - 1];
    }
  }

  /** A subsystem is stopped only after it was started. */
  ghost predicate StopsFollowStarts(log: seq<Message>) {
    forall j, i: nat :: 0 <= j < |log| && log[j] == Sub(SubStop, i) ==> Sub(SubStart, i) in log[..j]
  }

  lemma {:induction false} FanoutMembers(a: Action, n: nat, skipped: set<nat>)
    ensures forall m :: m in FanoutReversed(a, n) ==> m.Sub? && m.action == a && m.i < n
    ensures forall m :: m in Fanout(a, n, skipped) ==> m.Sub? && m.action == a && m.i < n
  {
    if n > 0 { FanoutMembers(a, n - 1, skipped); }
  }

  /** Appending entries keeps the order if every stop among them was started before. */
  lemma AppendKeepsOrder(log: seq<Message>, more: seq<Message>)
    requires StopsFollowStarts(log)
    requires forall i: nat :: Sub(SubStop, i) in more ==> Sub(SubStart, i) in log
    ensures StopsFollowStarts(log + more)
  {
    var all := log + more;
    forall j, i: nat | 0 <= j < |all| && all[j] == Sub(SubStop, i) ensures Sub(SubStart, i) in all[..j] {
      if j < |log| {
        assert all[..j] == log[..j];
      } else {
        assert more[j - |log|] in more;
        assert log <= all[..j];
      }
    }
  }

  lemma StoppingFollowsStarts(c: Config, s: Client)
    requires Lifecycle(c, s) && StopsFollowStarts(s.log)
    ensures StopsFollowStarts(EnterStopping(c, s).log)
  {
    if s.started {
      FanoutMembers(SubStop, c.subsystems, {});
      forall i: nat | Sub(SubStop, i) in FanoutReversed(SubStop, c.subsystems) ensures Sub(SubStart, i) in s.log {
        assert SubOk(c, s, i);
        CountMember(Sub(SubStart, i), s.log);
      }
      AppendKeepsOrder(s.log, FanoutReversed(SubStop, c.subsystems));
    }
  }

  lemma OperationalFollowsStarts(c: Config, s: Client)
    requires StopsFollowStarts(s.log)
    ensures StopsFollowStarts(EnterOperational(c, s.(failures := 0, log := s.log + [Connack])).log)
  {
    FanoutMembers(SubStart, c.subsystems, {});
    FanoutMembers(SubResubscribe, c.subsystems, c.silent);
    AppendKeepsOrder(s.log, [Connack]);
    AppendKeepsOrder(s.log + [Connack], [Entered]);
    AppendKeepsOrder(s.log + [Connack] + [Entered], EntryCalls(c, s.started));
  }

  lemma StepStopsFollowStarts(c: Config, s: Client, e: Event)
    requires Lifecycle(c, s) && StopsFollowStarts(s.log)
    ensures StopsFollowStarts(Step(c, s, e).log)
  {
    StoppingFollowsStarts(c, s);
    OperationalFollowsStarts(c, s);
    FailFollowsStarts(c, s);
  }

  lemma FailFollowsStarts(c: Config, s: Client)
    requires StopsFollowStarts(s.log)
    ensures StopsFollowStarts(Fail(c, s).log)
  {
    AppendKeepsOrder(s.log, [Reconnect(Delay(c, s.failures + 1))]);
  }

  lemma {:induction false} StopsOnlyAfterStart(c: Config, es: seq<Event>)
    ensures StopsFollowStarts(Run(c, es).log)
    decreases |es|
  {
    if es != [] {
      StopsOnlyAfterStart(c, es[..|es| - 1]);
      LifecycleHolds(c, es[..|es| - 1]);
      StepStopsFollowStarts(c, Run(c, es[..|es| - 1]), es[|es| - 1]);
    }
  }

  // ---------------------------------------------------------------------------------------------
  // The scheduled delays
  // ---------------------------------------------------------------------------------------------

  /** Reconnects scheduled since the last clean CONNACK. */
  function Streak(log: seq<Message>): nat {
    if log == [] then 0
    else
      var last := log[|log| - 1];
      if last.Connack? then 0 else Streak(log[..|log| - 1]) + (if last.Reconnect? then 1 else 0)
  }

  /** The delay of the k-th consecutive failure. */
  function Backoff(c: Config, k: nat): int
    requires k >= 1
  {
    Min(Uncapped(c, k).Floor, c.max)
  }

  function Uncapped(c: Config, k: nat): real
    requires k >= 1
  {
    c.initial as real * Pow(c.multiplier, k - 1)
  }

  /** Every scheduled delay is the one of its place in the streak. */
  ghost predicate DelaysFollowStreak(c: Config, log: seq<Message>) {
    forall j :: 0 <= j < |log| && log[j].Reconnect? ==> log[j].delay == Backoff(c, Streak(log[..j]) + 1)
  }

  lemma {:induction false} PowGrows(b: real, e: nat)
    requires b >= 1.0
    ensures 1.0 <= Pow(b, e) <= Pow(b, e + 1)
  {
    if e > 0 { PowGrows(b, e - 1); }
    var p := Pow(b, e);
    assert b * p >= 1.0 * p;
  }

  lemma ScaledGrows(c: Config, x: real, y: real)
    requires c.initial >= 0 && x <= y
    ensures c.initial as real * x <= c.initial as real * y
  {
    assert c.initial as real * (y - x) >= 0.0;
  }

  ghost predicate SaneBackoff(c: Config) { c.initial >= 0 && c.multiplier >= 1.0 }

  lemma DelayIsBackoff(c: Config, k: nat)
    requires SaneBackoff(c) && k >= 1
    ensures Delay(c, k) == Backoff(c, k)
  {
    PowGrows(c.multiplier, k - 1);
    ScaledGrows(c, 0.0, Pow(c.multiplier, k - 1));
    assert c.initial as real * 0.0 == 0.0;
  }

  lemma CappedFloor(x: real, y: real, cap: int)
    requires x <= y
    ensures Min(x.Floor, cap) <= Min(y.Floor, cap) <= cap
  {}

  lemma UncappedGrows(c: Config, k: nat)
    requires SaneBackoff(c) && k >= 1
    ensures Uncapped(c, k) <= Uncapped(c, k + 1)
  {
    PowGrows(c.multiplier, k - 1);
    ScaledGrows(c, Pow(c.multiplier, k - 1), Pow(c.multiplier, k));
  }

  lemma FirstBackoff(c: Config)
    ensures Backoff(c, 1) == Min(c.initial, c.max)
  {
    assert Pow(c.multiplier, 0) == 1.0;
    assert c.initial as real * 1.0 == c.initial as real;
  }

  lemma BackoffStep(c: Config, k: nat)
    requires SaneBackoff(c) && k >= 1
    ensures Backoff(c, k) <= Backoff(c, k + 1) <= c.max
  {
    UncappedGrows(c, k);
    CappedFloor(Uncapped(c, k), Uncapped(c, k + 1), c.max);
  }

  /** Within a streak delays never shrink and never exceed the cap; a streak starts at min(initial, max). */
  lemma {:induction false} BackoffGrowsToCap(c: Config, j: nat, k: nat)
    requires SaneBackoff(c) && 1 <= j <= k
    ensures Min(c.initial, c.max) == Backoff(c, 1) <= Backoff(c, j) <= Backoff(c, k) <= c.max
    decreases k
  {
    FirstBackoff(c);
    if 1 < k {
      BackoffStep(c, k - 1);
      BackoffGrowsToCap(c, if j < k then j else k - 1, k - 1);
    } else {
      BackoffStep(c, 1);
    }
  }

  lemma AppendDelays(c: Config, log: seq<Message>, m: Message)
    requires DelaysFollowStreak(c, log) && (m.Reconnect? ==> m.delay == Backoff(c, Streak(log) + 1))
    ensures DelaysFollowStreak(c, log + [m])
    ensures Streak(log + [m]) == if m.Connack? then 0 else Streak(log) + (if m.Reconnect? then 1 else 0)
  {
    var all := log + [m];
    assert all[..|log|] == log;
    forall j | 0 <= j < |all| && all[j].Reconnect? ensures all[j].delay == Backoff(c, Streak(all[..j]) + 1) {
      if j < |log| { assert all[..j] == log[..j]; }
    }
  }

  /** Calls on subsystems leave the streak alone. */
  lemma {:induction false} AppendCalls(c: Config, log: seq<Message>, more: seq<Message>)
    requires DelaysFollowStreak(c, log) && forall m :: m in more ==> m.Sub?
    ensures DelaysFollowStreak(c, log + more) && Streak(log + more) == Streak(log)
    decreases |more|
  {
    if more == [] {
      assert log + more == log;
    } else {
      var front, last := more[..|more| - 1], more[|more| - 1];
      assert last in more;
      AppendCalls(c, log, front);
      AppendDelays(c, log + front, last);
      assert log + more == log + front + [last];
    }
  }

  ghost predicate Paced(c: Config, s: Client) {
    DelaysFollowStreak(c, s.log) && s.failures == Streak(s.log)
  }

  lemma OperationalPaced(c: Config, s: Client)
    requires Paced(c, s)
    ensures Paced(c, EnterOperational(c, s.(failures := 0, log := s.log + [Connack])))
  {
    AppendDelays(c, s.log, Connack);
    AppendDelays(c, s.log + [Connack], Entered);
    FanoutMembers(SubStart, c.subsystems, {});
    FanoutMembers(SubResubscribe, c.subsystems, c.silent);
    AppendCalls(c, s.log + [Connack] + [Entered], EntryCalls(c, s.started));
  }

  lemma StoppingPaced(c: Config, s: Client)
    requires Paced(c, s)
    ensures Paced(c, EnterStopping(c, s))
  {
    FanoutMembers(SubStop, c.subsystems, {});
    AppendCalls(c, s.log, FanoutReversed(SubStop, c.subsystems));
  }

  lemma FailPaced(c: Config, s: Client)
    requires SaneBackoff(c) && Paced(c, s)
    ensures Paced(c, Fail(c, s))
  {
    DelayIsBackoff(c, s.failures + 1);
    AppendDelays(c, s.log, Reconnect(Delay(c, s.failures + 1)));
  }

  lemma StepPaced(c: Config, s: Client, e: Event)
    requires SaneBackoff(c) && Paced(c, s)
    ensures Paced(c, Step(c, s, e))
  {
    OperationalPaced(c, s);
    StoppingPaced(c, s);
    FailPaced(c, s);
  }

  /**
    In every run the k-th consecutive failure since the last clean CONNACK schedules
    min(floor(initial * multiplier^(k-1)), max); in particular the first failure after an established
    link drops schedules min(initial, max) again.
   */
  lemma {:induction false} DelaysFollowFailures(c: Config, es: seq<Event>)
    requires SaneBackoff(c)
    ensures Paced(c, Run(c, es))
    decreases |es|
  {
    if es != [] {
      DelaysFollowFailures(c, es[..|es| - 1]);
      StepPaced(c, Run(c, es[..|es| - 1]), es[|es| - 1]);
    }
  }

  /** An Operational link has no failures on record, so its drop restarts the backoff. */
  lemma {:induction false} DropRestartsBackoff(c: Config, es: seq<Event>)
    requires SaneBackoff(c) && Run(c, es).phase == Operational
    ensures Run(c, es + [LinkDown]).log == Run(c, es).log + [Reconnect(Min(c.initial, c.max))]
    ensures Run(c, es).failures == 0
    decreases |es|
  {
    var n := |es| - 1;
    assert (es + [LinkDown])[..|es|] == es;
    if Run(c, es[..n]).phase == Operational { DropRestartsBackoff(c, es[..n]); }
    DelayIsBackoff(c, 1);
    FirstBackoff(c);
  }

  // ---------------------------------------------------------------------------------------------
  // What each event does
  // ---------------------------------------------------------------------------------------------

  /** The events that count as a failed connection. */
  predicate Fails(s: Client, e: Event) {
    || (s.phase == Connecting && ((e.LinkUp? && e.rc != 0) || e.LinkDown? || e.ConnectTimeout?))
    || (s.phase == Operational && e.LinkDown?)
  }

  predicate Connects(s: Client, e: Event) { s.phase == Connecting && e.LinkUp? && e.rc == 0 }

  predicate Stops(s: Client, e: Event) { e.Stop? && s.phase in {Connecting, Operational, Reconnecting} }

  /** Which state each event leads to. */
  function NextPhase(s: Client, e: Event): Phase {
    if Fails(s, e) then Reconnecting
    else if Connects(s, e) then Operational
    else if Stops(s, e) then Stopping
    else if (s.phase == Off && e.Start?) || (s.phase == Reconnecting && e.ReconnectTimer?) then Connecting
    else s.phase
  }

  /** Calls of one kind on exactly the subsystems below `n` that are not skipped. */
  ghost predicate CallsAll(calls: seq<Message>, a: Action, n: nat, skipped: set<nat>) {
    && (forall m :: m in calls ==> m.Sub? && m.action == a && m.i < n && m.i !in skipped)
    && (forall i: nat :: i < n && i !in skipped ==> Sub(a, i) in calls)
  }

  /** In the order of registration, or against it; each subsystem once. */
  ghost predicate Ascending(calls: seq<Message>) {
    forall j, k :: 0 <= j < k < |calls| && calls[j].Sub? && calls[k].Sub? ==> calls[j].i < calls[k].i
  }

  ghost predicate Descending(calls: seq<Message>) {
    forall j, k :: 0 <= j < k < |calls| && calls[j].Sub? && calls[k].Sub? ==> calls[j].i > calls[k].i
  }

  lemma {:induction false} FanoutAscends(a: Action, n: nat, skipped: set<nat>)
    ensures CallsAll(Fanout(a, n, skipped), a, n, skipped) && Ascending(Fanout(a, n, skipped))
  {
    if n > 0 {
      FanoutAscends(a, n - 1, skipped);
      var front := Fanout(a, n - 1, skipped);
      if n - 1 !in skipped {
        assert Sub(a, n - 1) in Fanout(a, n, skipped);
        assert forall j :: 0 <= j < |front| ==> front[j] in front;
      }
      forall i: nat | i < n && i !in skipped ensures Sub(a, i) in Fanout(a, n, skipped) {
        if i < n - 1 { assert Sub(a, i) in front; }
      }
    }
  }

  lemma {:induction false} FanoutDescends(a: Action, n: nat)
    ensures CallsAll(FanoutReversed(a, n), a, n, {}) && Descending(FanoutReversed(a, n))
  {
    if n > 0 {
      FanoutDescends(a, n - 1);
      var rest := FanoutReversed(a, n - 1);
      assert forall j :: 0 <= j < |rest| ==> rest[j] in rest;
      forall i: nat | i < n ensures Sub(a, i) in FanoutReversed(a, n) {
        if i < n - 1 { assert Sub(a, i) in rest; }
      }
    }
  }

  /** Every state answers every event as the table says, and an event that leads nowhere changes nothing. */
  lemma PhasesFollowed(c: Config, s: Client, e: Event)
    ensures Step(c, s, e).phase == NextPhase(s, e)
    ensures NextPhase(s, e) == s.phase ==> Step(c, s, e) == s
  {
    match s.phase
    case Off =>
    case Connecting =>
    case Operational =>
    case Reconnecting =>
    case Stopping =>
  }

  /**
    A refused CONNACK, a lost link and a connection timeout count one more failure, arm the reconnect timer
    and schedule the delay of that failure; what was started stays started.
   */
  lemma FailureCounted(c: Config, s: Client, e: Event)
    requires Fails(s, e)
    ensures var s' := Step(c, s, e);
            && s'.failures == s.failures + 1 && s'.reconnectTimer && !s'.connectTimer && s'.started == s.started
            && |s'.log| == |s.log| + 1 && s.log <= s'.log && s'.log[|s.log|].Reconnect?
            && s'.log[|s.log|].delay
               == Min(Truncate(Scaled(c, Pow(c.multiplier, s.failures))), c.max)
  {}

  /**
    A clean CONNACK forgets the failures and starts every subsystem, or resubscribes those that can be if
    they run already, in the order of registration.
   */
  lemma ConnectionCalls(c: Config, s: Client, e: Event)
    requires Connects(s, e)
    ensures var s' := Step(c, s, e);
            && s'.failures == 0 && s'.started && !s'.connectTimer
            && |s'.log| >= |s.log| + 2 && s'.log[..|s.log| + 2] == s.log + [Connack, Entered]
            && var calls := s'.log[|s.log| + 2..];
            && Ascending(calls)
            && if s.started then CallsAll(calls, SubResubscribe, c.subsystems, c.silent)
               else CallsAll(calls, SubStart, c.subsystems, {})
  {
    FanoutAscends(SubStart, c.subsystems, {});
    FanoutAscends(SubResubscribe, c.subsystems, c.silent);
    var head := s.log + [Connack] + [Entered];
    assert head == s.log + [Connack, Entered];
    assert Step(c, s, e).log == head + EntryCalls(c, s.started);
  }

  /** A stop clears both timers and stops every subsystem that was started, last registered first. */
  lemma StopCalls(c: Config, s: Client, e: Event)
    requires Stops(s, e)
    ensures var s' := Step(c, s, e);
            && !s'.started && !s'.connectTimer && !s'.reconnectTimer && s.log <= s'.log
            && var calls := s'.log[|s.log|..];
            && Descending(calls)
            && if s.started then CallsAll(calls, SubStop, c.subsystems, {}) else calls == []
  {
    FanoutDescends(SubStop, c.subsystems);
  }

  /** A connection attempt arms its own timeout iff one is configured, and publishes nothing. */
  lemma AttemptArms(c: Config, s: Client, e: Event)
    requires NextPhase(s, e) == Connecting && s.phase != Connecting
    ensures Step(c, s, e) == s.(phase := Connecting, reconnectTimer := false, connectTimer := c.connectTimeout > 0)
  {}
}
