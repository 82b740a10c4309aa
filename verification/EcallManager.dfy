/**
  The EcallManagerAO object: its session table and timer maps, each request handler and timer event
  proved to perform the transition of EcallManagerModel on the abstract state.
 */
module EcallManager {
  import opened Common
  import E = EcallModel
  import S = EcallSession
  import M = EcallManagerModel

  type Timer = E.Timer

  ghost function ViewOf(s: S.Session): M.Live
    reads s
  {
    M.Live(s.index, s.number, s.c, s.Model(), s.port)
  }

  class Manager {
    var sessions: map<int, S.Session>
    var hlapTimers: map<(int, Timer), int>
    var redialTimers: map<int, int>
    var activeTimers: map<int, set<Timer>>
    var nextIndex: nat
    var settings: M.Settings
    var posted: seq<M.Event>
    var published: seq<M.Message>

    ghost function Table(): map<int, M.Live>
      reads this`sessions, sessions.Values
    {
      map phone | phone in sessions :: ViewOf(sessions[phone])
    }

    ghost function Model(): M.Manager
      reads this, sessions.Values
    {
      M.Manager(Table(), hlapTimers, redialTimers, activeTimers, nextIndex, settings, posted, published)
    }

    /** Every phone has its own session object, in a valid state. */
    ghost predicate Linked()
      reads this`sessions, sessions.Values
    {
      && (forall p :: p in sessions ==> sessions[p].Valid())
      && (forall p, q :: p in sessions && q in sessions && p != q ==> sessions[p] != sessions[q])
    }

    ghost predicate Valid()
      reads this, sessions.Values
    {
      Linked() && M.Ready(Model())
    }

    constructor (isNgEcallDevice: bool)
      ensures Valid() && Model() == M.Initial(isNgEcallDevice) && M.Inv(Model())
    {
      M.InitialInv(isNgEcallDevice);
      sessions, hlapTimers, redialTimers, activeTimers := map[], map[], map[], map[];
      nextIndex := 1;
      settings := M.DefaultSettings.(ngDevice := isNgEcallDevice);
      posted, published := [], [];
    }

    // -------------------------------------------------------------------------------------------
    // Session callbacks
    // -------------------------------------------------------------------------------------------

    method SetTimerStatus(phone: int, t: Timer, on: bool)
      modifies this`activeTimers
      ensures Model() == M.SetActive(old(Model()), phone, t, on)
    {
      var current := if phone in activeTimers then activeTimers[phone] else {};
      activeTimers := activeTimers[phone := if on then current + {t} else current - {t}];
    }

    method ScheduleHlapExpiry(phone: int, t: Timer)
      modifies this`hlapTimers, this`posted
      ensures Model() == M.ScheduleHlap(old(Model()), phone, t)
    {
      hlapTimers := hlapTimers - {(phone, t)};
      if M.Duration(settings, phone, t) <= 0 {
        posted := posted + [M.HlapTimerExpiry(phone, t)];
      } else {
        hlapTimers := hlapTimers[(phone, t) := M.Duration(settings, phone, t)];
        assert hlapTimers == old(hlapTimers)[(phone, t) := M.Duration(settings, phone, t)];
      }
    }

    method ScheduleRedialExpiry(phone: int, delay: int)
      modifies this`redialTimers, this`posted
      ensures Model() == M.ScheduleRedial(old(Model()), phone, delay)
    {
      redialTimers := redialTimers - {phone};
      if delay <= 0 {
        posted := posted + [M.RedialTimerExpiry(phone)];
      } else {
        redialTimers := redialTimers[phone := delay];
        assert redialTimers == old(redialTimers)[phone := delay];
      }
    }

    method Publish(msg: M.Message)
      modifies this`published
      ensures Model() == M.Publish(old(Model()), msg)
    {
      published := published + [msg];
    }

    /** Drops the session, then the phone's six timer handles one by one, its redial handle and its statuses. */
    method ClearCallSlot(phone: int)
      requires Linked()
      modifies this`sessions, this`hlapTimers, this`redialTimers, this`activeTimers
      ensures Linked() && sessions == old(sessions) - {phone}
      ensures Model() == M.ClearCallSlot(old(Model()), phone)
    {
      DropSession(phone);
      ReleaseTimers(phone);
    }

    method ReleaseTimers(phone: int)
      modifies this`hlapTimers, this`redialTimers, this`activeTimers
      ensures hlapTimers == M.Others(old(hlapTimers), phone)
      ensures redialTimers == old(redialTimers) - {phone} && activeTimers == old(activeTimers)[phone := {}]
    {
      CancelHlapTimers(phone);
      redialTimers := redialTimers - {phone};
      activeTimers := activeTimers[phone := {}];
    }

    method DropSession(phone: int)
      requires Linked()
      modifies this`sessions
      ensures Linked() && sessions == old(sessions) - {phone} && Table() == old(Table()) - {phone}
    {
      sessions := sessions - {phone};
    }

    method CancelHlapTimers(phone: int)
      modifies this`hlapTimers
      ensures hlapTimers == M.Others(old(hlapTimers), phone)
    {
      var all := [E.T2, E.T5, E.T6, E.T7, E.T9, E.T10];
      for i := 0 to |all|
        invariant hlapTimers == map k | k in old(hlapTimers) && !(k.0 == phone && k.1 in all[..i]) :: old(hlapTimers)[k]
      {
        hlapTimers := hlapTimers - {(phone, all[i])};
      }
      assert all[..|all|] == all;
      forall t: Timer ensures t in all {
        match t
        case T2 => assert all[0] == t;
        case T5 => assert all[1] == t;
        case T6 => assert all[2] == t;
        case T7 => assert all[3] == t;
        case T9 => assert all[4] == t;
        case T10 => assert all[5] == t;
      }
    }

    method OnCallback(phone: int, cb: E.Callback)
      requires Linked()
      modifies this`sessions, this`hlapTimers, this`redialTimers, this`activeTimers, this`posted, this`published
      ensures Linked() && sessions.Values <= old(sessions.Values)
      ensures Model() == M.OnCallback(old(Model()), phone, cb)
    {
      match cb
      case ChangeCallState(phase) =>
        if phone in sessions { Publish(M.CallState(phone, sessions[phone].index, phase)); }
      case StartTimer(t) =>
        SetTimerStatus(phone, t, true);
        Publish(M.TimerEvent(phone, t, M.STARTED));
        ScheduleHlapExpiry(phone, t);
      case SendEvent(t, start) =>
        SetTimerStatus(phone, t, start);
        Publish(M.TimerEvent(phone, t, if start then M.STARTED else M.STOPPED));
      case ExpiryTimer(t) =>
        SetTimerStatus(phone, t, false);
        Publish(M.TimerEvent(phone, t, M.EXPIRED));
      case Msd(status) => Publish(M.MsdEvent(phone, status));
      case OnTerminal => ClearCallSlot(phone);
      case StartRedialTimer(delay) => ScheduleRedialExpiry(phone, delay);
      case OnRedial(willRedial, reason) => Publish(M.RedialEvent(phone, willRedial, reason));
    }

    method OnCallbacks(phone: int, cbs: seq<E.Callback>)
      requires Linked()
      modifies this`sessions, this`hlapTimers, this`redialTimers, this`activeTimers, this`posted, this`published
      ensures Linked() && sessions.Values <= old(sessions.Values)
      ensures Model() == M.OnCallbacks(old(Model()), phone, cbs)
    {
      for i := 0 to |cbs|
        invariant Linked() && sessions.Values <= old(sessions.Values)
        invariant Model() == M.OnCallbacks(old(Model()), phone, cbs[..i])
      {
        assert cbs[..i + 1][..i] == cbs[..i];
        OnCallback(phone, cbs[i]);
      }
      assert cbs[..|cbs|] == cbs;
    }

    // -------------------------------------------------------------------------------------------
    // Session events
    // -------------------------------------------------------------------------------------------

    method Notify(s: S.Session, e: E.Event)
      requires s.Valid()
      modifies s
      ensures s.Valid() && s.Now() == E.Step(s.c, old(s.Model()), old(s.port), e)
    {
      match e
      case Start => s.Start();
      case Hangup => s.Hangup();
      case MsdPull => s.MsdPullRequest();
      case Deregister => s.NetworkDeregistrationRequest();
      case HlapExpiry(t, ecallOnly) => s.OnHlapTimerExpiry(t, ecallOnly);
      case RedialExpiry => s.OnRedialTimerExpiry();
    }

    /** Lets the session of a phone handle an event and returns the callbacks it made. */
    method Advance(phone: int, e: E.Event) returns (cbs: seq<E.Callback>)
      requires Linked() && phone in sessions
      modifies sessions[phone]
      ensures Linked()
      ensures var l := old(Table())[phone];
              var mv := E.Step(l.c, l.s, l.p, e);
              && l.p.out <= mv.p.out && cbs == mv.p.out[|l.p.out|..]
              && Table() == old(Table())[phone := l.(s := mv.s, p := mv.p)]
    {
      var s := sessions[phone];
      var n := |s.sent|;
      M.StepAppends(s.c, s.Model(), s.port, e);
      Notify(s, e);
      cbs := s.sent[n..];
      forall q | q in sessions && q != phone ensures Table()[q] == old(Table())[q] {
        assert sessions[q] != s;
        assert ViewOf(sessions[q]) == old(ViewOf(sessions[q]));
      }
    }

    method Drive(phone: int, e: E.Event)
      requires Valid()
      modifies this, sessions.Values
      ensures Linked() && sessions.Values <= old(sessions.Values)
      ensures Model() == M.Drive(old(Model()), phone, e)
    {
      if phone in sessions {
        var cbs := Advance(phone, e);
        OnCallbacks(phone, cbs);
      }
    }

    // -------------------------------------------------------------------------------------------
    // Request handlers and timer events
    // -------------------------------------------------------------------------------------------

    method HandleStartEcall(phone: int, isPrivate: bool, msd: bool, remote: string, dial: string)
      requires Valid()
      modifies this
      ensures Linked() && fresh(sessions.Values - old(sessions.Values))
      ensures Model() == M.OnStartEcall(old(Model()), phone, isPrivate, msd, remote, dial)
    {
      if phone in sessions && sessions[phone].state != E.PSAPCallback && sessions[phone].state != E.Terminal {
        Publish(M.DeviceInUse(phone));
      } else {
        Accept(phone, isPrivate, msd, remote, dial);
      }
    }

    method Accept(phone: int, isPrivate: bool, msd: bool, remote: string, dial: string)
      requires Valid() && !M.Busy(Model(), phone)
      modifies this
      ensures Linked() && fresh(sessions.Values - old(sessions.Values))
      ensures Model() == M.OnStartEcall(old(Model()), phone, isPrivate, msd, remote, dial)
    {
      ReplaceCompleted(phone);
      var number, custom, ng := ResolveCallTarget(isPrivate, remote, dial);
      AddSession(phone, number, M.NewConfig(settings, custom, ng, msd));
    }

    /** A caller-supplied or configured number makes a regulatory call a custom-number one. */
    method ResolveCallTarget(isPrivate: bool, remote: string, dial: string) returns (number: string, custom: bool, ng: bool)
      ensures (number, custom, ng) == M.CallTarget(settings, isPrivate, remote, dial)
    {
      if isPrivate {
        return dial, false, true;
      }
      if remote != "" {
        return remote, true, settings.ngDevice;
      }
      if settings.overridden && settings.overriddenNum != "" {
        return settings.overriddenNum, true, settings.ngDevice;
      }
      return "", false, settings.ngDevice;
    }

    method ReplaceCompleted(phone: int)
      requires Valid()
      modifies this
      ensures Linked() && phone !in sessions && sessions.Values <= old(sessions.Values)
      ensures Model() == M.ReplaceCompleted(old(Model()), phone)
    {
      if phone in sessions {
        ClearCallSlot(phone);
      }
    }

    /** Tables a fresh session, acknowledges the request and posts the session's start. */
    method AddSession(phone: int, number: string, c: E.Config)
      requires Linked() && phone !in sessions && E.WellFormed(c)
      modifies this`sessions, this`nextIndex, this`published, this`posted
      ensures Linked() && fresh(sessions.Values - old(sessions.Values))
      ensures Model() == M.AddSession(old(Model()), phone, number, c)
    {
      TableSession(phone, number, c);
      AcknowledgeStart(phone);
    }

    method AcknowledgeStart(phone: int)
      modifies this`nextIndex, this`published, this`posted
      ensures nextIndex == old(nextIndex) + 1
      ensures published == old(published) + [M.StartOk(phone, old(nextIndex))] && posted == old(posted) + [M.SessionStart(phone)]
    {
      published := published + [M.StartOk(phone, nextIndex)];
      nextIndex := nextIndex + 1;
      posted := posted + [M.SessionStart(phone)];
    }

    method TableSession(phone: int, number: string, c: E.Config)
      requires Linked() && phone !in sessions && E.WellFormed(c)
      modifies this`sessions
      ensures Linked() && fresh(sessions.Values - old(sessions.Values))
      ensures Table() == old(Table())[phone := M.Live(nextIndex, number, c, E.Fresh, E.Silent)]
    {
      var s := new S.Session(nextIndex, number, c);
      assert Linked() && Table() == old(Table());
      InsertSession(phone, s);
    }

    method InsertSession(phone: int, s: S.Session)
      requires Linked() && phone !in sessions && s.Valid() && s !in sessions.Values
      modifies this`sessions
      ensures Linked() && sessions == old(sessions)[phone := s]
      ensures Table() == old(Table())[phone := ViewOf(s)]
    {
      sessions := sessions[phone := s];
    }

    method HandleEndEcall(phone: int, index: nat)
      requires Valid()
      modifies this, sessions.Values
      ensures Linked() && sessions.Values <= old(sessions.Values)
      ensures Model() == M.OnEndEcall(old(Model()), phone, index)
    {
      if phone !in sessions || sessions[phone].index != index {
        Publish(M.UnknownCall(phone));
        return;
      }
      Drive(phone, E.Hangup);
      Release(phone);
      Publish(M.EndOk(phone));
    }

    method Release(phone: int)
      requires Linked()
      modifies this
      ensures Linked() && sessions.Values <= old(sessions.Values)
      ensures Model() == M.Released(old(Model()), phone)
    {
      if phone in sessions && sessions[phone].state == E.PSAPCallback {
        ClearCallSlot(phone);
      }
    }

    method HandleRequestNetworkDeregistration(phone: int)
      requires Valid()
      modifies this, sessions.Values
      ensures Linked() && sessions.Values <= old(sessions.Values)
      ensures Model() == M.OnRequestDeregistration(old(Model()), phone)
    {
      var active := if phone in activeTimers then activeTimers[phone] else {};
      if E.T9 in active || E.T10 !in active {
        Publish(M.DeregistrationRefused(phone));
        return;
      }
      Publish(M.DeregistrationOk(phone));
      Drive(phone, E.Deregister);
    }

    method RunSessionHangup(phone: int, fromPsap: bool)
      requires Valid()
      modifies this, sessions.Values
      ensures Linked() && sessions.Values <= old(sessions.Values)
      ensures Model() == M.OnSessionHangup(old(Model()), phone, fromPsap)
    {
      Drive(phone, E.Hangup);
      if !fromPsap {
        Release(phone);
      }
    }

    method RunSessionStart(phone: int)
      requires Valid()
      modifies this, sessions.Values
      ensures Linked() && sessions.Values <= old(sessions.Values)
      ensures Model() == M.Drive(old(Model()), phone, E.Start)
    {
      Drive(phone, E.Start);
    }

    method RunSessionMsdPull(phone: int)
      requires Valid()
      modifies this, sessions.Values
      ensures Linked() && sessions.Values <= old(sessions.Values)
      ensures Model() == M.Drive(old(Model()), phone, E.MsdPull)
    {
      Drive(phone, E.MsdPull);
    }

    method RunHlapTimerExpiry(phone: int, t: Timer)
      requires Valid()
      modifies this, sessions.Values
      ensures Linked() && sessions.Values <= old(sessions.Values)
      ensures Model() == M.OnHlapTimer(old(Model()), phone, t)
    {
      PopHlapTimer(phone, t);
      Drive(phone, E.HlapExpiry(t, phone in settings.ecallOnly));
    }

    method PopHlapTimer(phone: int, t: Timer)
      requires Valid()
      modifies this`hlapTimers
      ensures Linked() && Model() == old(Model()).(hlap := old(hlapTimers) - {(phone, t)})
    {
      hlapTimers := hlapTimers - {(phone, t)};
    }

    method RunRedialTimerExpiry(phone: int)
      requires Valid()
      modifies this, sessions.Values
      ensures Linked() && sessions.Values <= old(sessions.Values)
      ensures Model() == M.OnRedialTimer(old(Model()), phone)
    {
      PopRedialTimer(phone);
      Drive(phone, E.RedialExpiry);
    }

    method PopRedialTimer(phone: int)
      requires Valid()
      modifies this`redialTimers
      ensures Linked() && Model() == old(Model()).(redial := old(redialTimers) - {phone})
    {
      redialTimers := redialTimers - {phone};
    }

    method HandleConfigureEcallRedial(mode: E.RedialMode, timeGap: seq<int>)
      requires Valid()
      modifies this`settings, this`published
      ensures Linked() && Model() == M.OnConfigureRedial(old(Model()), mode, timeGap)
    {
      var lo, hi := 1, if mode == E.CALLORIG then 10 else 2;
      if !(lo <= |timeGap| <= hi) {
        Publish(M.RedialRefused);
        return;
      }
      settings := if mode == E.CALLORIG then settings.(origGaps := timeGap) else settings.(dropGaps := timeGap);
      Publish(M.RedialConfigured);
    }

    /** The requests that only read, and the republishing of readiness after a reconnect. */
    method AnswerQuery(e: M.Event)
      requires Valid() && M.IsQuery(e)
      modifies this`published
      ensures Linked() && Model() == M.Step(old(Model()), e)
    {
      match e
      case AnswerEcall(phone, index) =>
        if phone !in sessions || sessions[phone].index != index {
          Publish(M.AnswerUnknownCall(phone));
        } else {
          Publish(M.AnswerInvalidState(phone));
        }
      case GetConfig =>
        Publish(M.ConfigIs(settings.t2, settings.t7, settings.t9, settings.overridden, settings.overriddenNum));
      case GetOperatingMode(phone) => Publish(M.OperatingModeIs(phone, phone in settings.ecallOnly));
      case RequestTimer(phone, t) =>
        if t != E.T10 {
          Publish(M.TimerNotSupported(phone, t));
        } else {
          Publish(M.TimerDuration(phone, M.Duration(settings, phone, E.T10)));
        }
      case QueryTimers(phone) => HandleRequestHlapTimerStatus(phone);
      case GetRedialConfig => Publish(M.RedialTables(settings.origGaps, settings.dropGaps));
      case Resubscribe => Publish(M.SubsystemReady);
    }

    method HandleRequestHlapTimerStatus(phone: int)
      modifies this`published
      ensures Model() == M.Publish(old(Model()), M.TimerStatus(phone, M.Active(old(Model()), phone)))
    {
      Publish(M.TimerStatus(phone, if phone in activeTimers then activeTimers[phone] else {}));
    }

    method HandleSendMsd(phone: int)
      requires Valid()
      modifies this`published, this`posted
      ensures Linked() && Model() == M.OnSendMsd(old(Model()), phone)
    {
      if phone !in sessions {
        Publish(M.NoActiveCall(phone));
        return;
      }
      posted := posted + [M.SessionMsdPull(phone)];
      Publish(M.SendMsdOk(phone));
    }

    /** set_config, set_operating_mode, update_hlap_timer and the two force_* control actions. */
    method ApplySetting(e: M.Event)
      requires M.IsSetting(e)
      modifies this`settings, this`published
      ensures settings == M.Configured(old(settings), e) && published == old(published) + M.Acknowledgement(e)
    {
      match e
      case SetConfig(t2, t7, t9, overridden, number) =>
        settings := settings.(t2 := M.Or(t2, settings.t2), t7 := M.Or(t7, settings.t7), t9 := M.Or(t9, settings.t9),
                              overridden := M.Or(overridden, settings.overridden),
                              overriddenNum := M.Or(number, settings.overriddenNum));
        published := published + [M.ConfigOk];
      case SetOperatingMode(phone, on) =>
        settings := settings.(ecallOnly := if on then settings.ecallOnly + {phone} else settings.ecallOnly - {phone});
        published := published + [M.OperatingModeOk(phone), M.OperatingModeInd(phone, on)];
      case UpdateTimer(phone, t, duration) =>
        if t != E.T10 {
          published := published + [M.TimerNotSupported(phone, t)];
        } else {
          settings := settings.(t10 := settings.t10[phone := duration]);
          published := published + [M.UpdateTimerOk(phone)];
        }
      case ForceTimerFailure(t) =>
        if t == E.T5 || t == E.T6 || t == E.T7 { settings := settings.(failed := settings.failed + {t}); }
      case ForceRedialMode(mode, succeedAt) =>
        settings := settings.(redial := if mode.None? then None else Some((mode.value, succeedAt)));
    }

    method Configure(e: M.Event)
      requires Valid() && M.IsSetting(e)
      modifies this`settings, this`published
      ensures Linked() && Model() == M.Step(old(Model()), e)
    {
      ApplySetting(e);
    }

    method Handle(e: M.Event)
      requires Valid()
      modifies this, sessions.Values
      ensures Linked() && fresh(sessions.Values - old(sessions.Values))
      ensures Model() == M.Step(old(Model()), e)
    {
      if M.IsQuery(e) {
        AnswerQuery(e);
      } else if M.IsSetting(e) {
        Configure(e);
      } else {
        Act(e);
      }
    }

    method Act(e: M.Event)
      requires Valid() && !M.IsQuery(e) && !M.IsSetting(e)
      modifies this, sessions.Values
      ensures Linked() && fresh(sessions.Values - old(sessions.Values))
      ensures Model() == M.Act(old(Model()), e)
    {
      match e
      case StartEcall(phone, isPrivate, msd, remote, dial) => HandleStartEcall(phone, isPrivate, msd, remote, dial);
      case EndEcall(phone, index) => HandleEndEcall(phone, index);
      case SendMsd(phone) => HandleSendMsd(phone);
      case RequestDeregistration(phone) => HandleRequestNetworkDeregistration(phone);
      case ConfigureRedial(mode, timeGap) => HandleConfigureEcallRedial(mode, timeGap);
      case SessionStart(phone) => RunSessionStart(phone);
      case SessionHangup(phone, fromPsap) => RunSessionHangup(phone, fromPsap);
      case SessionMsdPull(phone) => RunSessionMsdPull(phone);
      case HlapTimerExpiry(phone, t) => RunHlapTimerExpiry(phone, t);
      case RedialTimerExpiry(phone) => RunRedialTimerExpiry(phone);
    }

    /** Handles a whole run of events in the Ready state. */
    method RunToCompletion(events: seq<M.Event>)
      requires Valid() && M.Inv(Model())
      modifies this, sessions.Values
      ensures Valid() && M.Inv(Model()) && Model() == M.Run(old(Model()), events)
    {
      for i := 0 to |events|
        invariant Linked() && fresh(sessions.Values - old(sessions.Values))
        invariant Model() == M.Run(old(Model()), events[..i])
      {
        assert events[..i + 1][..i] == events[..i];
        Handle(events[i]);
      }
      assert events[..|events|] == events;
    }
  }
}
