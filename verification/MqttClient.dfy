/** The MqttClient object: helpers and state handlers, proved against MqttModel. */
module MqttClient {
  import M = MqttModel

  class Client {
    const c: M.Config
    var phase: M.Phase
    var failureCount: nat
    var currentDelay: int
    var subAosStarted: bool
    var reconnectTimer: bool
    var connectTimer: bool
    var log: seq<M.Message>

    ghost function Model(): M.Client
      reads this
    {
      M.Client(phase, failureCount, subAosStarted, reconnectTimer, connectTimer, log)
    }

    constructor (config: M.Config)
      ensures Model() == M.Initial && c == config
    {
      c := config;
      phase, failureCount, currentDelay, subAosStarted := M.Off, 0, config.initial, false;
      reconnectTimer, connectTimer, log := false, false, [];
    }

    method StartSubAos()
      modifies this`subAosStarted, this`log
      ensures subAosStarted && log == old(log) + (if old(subAosStarted) then [] else M.Fanout(M.SubStart, c.subsystems, {}))
    {
      if subAosStarted {
        return;
      }
      subAosStarted := true;
      for i := 0 to c.subsystems
        invariant log == old(log) + M.Fanout(M.SubStart, i, {}) && subAosStarted
      {
        log := log + [M.Sub(M.SubStart, i)];
      }
    }

    method ResubscribeSubAos()
      modifies this`log
      ensures log == old(log) + M.Fanout(M.SubResubscribe, c.subsystems, c.silent)
    {
      for i := 0 to c.subsystems
        invariant log == old(log) + M.Fanout(M.SubResubscribe, i, c.silent)
      {
        if i !in c.silent {
          log := log + [M.Sub(M.SubResubscribe, i)];
        }
      }
    }

    method StopSubAos()
      modifies this`subAosStarted, this`log
      ensures !subAosStarted
      ensures log == old(log) + (if old(subAosStarted) then M.FanoutReversed(M.SubStop, c.subsystems) else [])
    {
      if !subAosStarted {
        return;
      }
      subAosStarted := false;
      for i := c.subsystems downto 0
        invariant !subAosStarted
        invariant log + M.FanoutReversed(M.SubStop, i) == old(log) + M.FanoutReversed(M.SubStop, c.subsystems)
      {
        log := log + [M.Sub(M.SubStop, i)];
      }
    }

    /** min(initial * multiplier^(failures-1), max), without jitter. */
    method ComputeNextDelay() returns (d: int)
      modifies this`currentDelay
      ensures d == M.Delay(c, failureCount) && currentDelay == d
    {
      var exponent := if failureCount == 0 then 0 else failureCount - 1;
      var power := 1.0;
      for i := 0 to exponent
        invariant power == M.Pow(c.multiplier, i)
      {
        power := c.multiplier * power;
      }
      var whole := M.Truncate(c.initial as real * power);
      d := if whole <= c.max then whole else c.max;
      currentDelay := d;
    }

    method EnterReconnecting()
      modifies this
      ensures Model() == M.Fail(c, old(Model()))
    {
      failureCount := failureCount + 1;
      connectTimer := false;
      phase := M.Reconnecting;
      var d := ComputeNextDelay();
      reconnectTimer := true;
      log := log + [M.Reconnect(d)];
    }

    method EnterConnecting()
      modifies this
      ensures Model() == M.EnterConnecting(c, old(Model()))
    {
      phase := M.Connecting;
      reconnectTimer := false;
      connectTimer := c.connectTimeout > 0;
    }

    method EnterOperational()
      modifies this
      ensures Model() == M.EnterOperational(c, old(Model()))
    {
      phase := M.Operational;
      connectTimer := false;
      log := log + [M.Entered];
      if subAosStarted {
        ResubscribeSubAos();
      } else {
        StartSubAos();
      }
    }

    method EnterStopping()
      modifies this
      ensures Model() == M.EnterStopping(c, old(Model()))
    {
      phase := M.Stopping;
      connectTimer, reconnectTimer := false, false;
      StopSubAos();
    }

    method Handle(e: M.Event)
      modifies this
      ensures Model() == M.Step(c, old(Model()), e)
    {
      match phase
      case Off =>
        if e.Start? { EnterConnecting(); }
      case Connecting =>
        if e.LinkUp? && e.rc == 0 {
          failureCount, currentDelay := 0, c.initial;
          log := log + [M.Connack];
          EnterOperational();
        } else if e.LinkUp? || e.LinkDown? || e.ConnectTimeout? {
          EnterReconnecting();
        } else if e.Stop? {
          EnterStopping();
        }
      case Operational =>
        if e.LinkDown? { EnterReconnecting(); } else if e.Stop? { EnterStopping(); }
      case Reconnecting =>
        if e.ReconnectTimer? { EnterConnecting(); } else if e.Stop? { EnterStopping(); }
      case Stopping =>
    }

    /** A whole run of events from start-up. */
    method RunAll(events: seq<M.Event>)
      requires Model() == M.Initial
      modifies this
      ensures Model() == M.Run(c, events)
      ensures M.Lifecycle(c, Model()) && M.Timers(c, Model())
    {
      for i := 0 to |events|
        invariant Model() == M.Run(c, events[..i])
      {
        assert events[..i + 1][..i] == events[..i];
        Handle(events[i]);
      }
      assert events[..|events|] == events;
      M.LifecycleHolds(c, events);
    }
  }
}
