/**
  IfnamePool, CallSession and DataConnectionAO: the implementation's objects, each handler proved to
  perform the transition of DataCallModel.
 */
module DataConnection {
  import opened Common
  import opened Addressing
  import M = DataCallModel

  class IfnamePool {
    const prefix: string
    const size: nat
    var inUse: set<string>

    constructor (prefix: string, size: nat)
      ensures this.prefix == prefix && this.size == size && inUse == {}
    {
      this.prefix, this.size := prefix, size;
      inUse := {};
    }

    /** A requested name if it is free; otherwise the lowest-numbered free pool name. */
    method Allocate(requested: string) returns (r: Option<string>)
      modifies this
      ensures r == if requested != "" then (if requested in old(inUse) then None else Some(requested))
                   else M.FirstFree(prefix, size, old(inUse), 0)
      ensures inUse == old(inUse) + (if r.Some? then {r.value} else {})
    {
      if requested != "" {
        if requested in inUse {
          return None;
        }
        inUse := inUse + {requested};
        return Some(requested);
      }
      var i := 0;
      while i < size
        invariant 0 <= i <= size && inUse == old(inUse)
        invariant M.FirstFree(prefix, size, inUse, 0) == M.FirstFree(prefix, size, inUse, i)
      {
        var name := PoolName(prefix, i);
        if name !in inUse {
          inUse := inUse + {name};
          return Some(name);
        }
        i := i + 1;
      }
      return None;
    }

    method Release(ifname: string)
      modifies this
      ensures inUse == old(inUse) - {ifname}
    {
      inUse := inUse - {ifname};
    }
  }

  class CallSession {
    const ifname: string
    const ipFamily: M.IpFamily
    var status: M.Status
    var ipv4: Option<M.Block>
    var ipv6: Option<M.Block>
    var bearerTech: Option<string>
    var endReason: Option<M.EndReason>

    function View(): M.Call
      reads this
    {
      M.Call(ifname, ipFamily, status, ipv4, ipv6, bearerTech, endReason)
    }

    constructor (ifname: string, ipFamily: M.IpFamily)
      ensures View() == M.NewCall(ifname, ipFamily).(status := M.IDLE)
    {
      this.ifname, this.ipFamily := ifname, ipFamily;
      status, ipv4, ipv6, bearerTech, endReason := M.IDLE, None, None, None, None;
    }

    method BeginConnecting()
      modifies this`status
      ensures status == if old(status) == M.IDLE then M.CONNECTING else old(status)
    {
      if status == M.IDLE { status := M.CONNECTING; }
    }

    method OnConnected(v4: Option<M.Block>, v6: Option<M.Block>, tech: string)
      modifies this
      ensures View() == old(View()).(ipv4 := v4, ipv6 := v6, bearerTech := Some(tech),
                                     status := if old(status) == M.CONNECTING then M.CONNECTED else old(status))
    {
      ipv4, ipv6, bearerTech := v4, v6, Some(tech);
      if status == M.CONNECTING { status := M.CONNECTED; }
    }

    method BeginDisconnecting()
      modifies this
      ensures View() == old(View()).(endReason := Some(M.CleanStop), status := M.OnDisconnect(old(status)))
    {
      endReason := Some(M.CleanStop);
      if status == M.CONNECTED { status := M.DISCONNECTING; }
    }

    method Disconnected()
      modifies this
      ensures View() == M.Disconnected(old(View()))
    {
      bearerTech := None;
      if status == M.DISCONNECTING { status := M.NO_NET; }
    }

    method ForceDrop()
      modifies this
      ensures View() == M.Dropped(old(View()))
    {
      endReason, bearerTech := Some(M.NetworkDrop), None;
      if status == M.CONNECTING || status == M.CONNECTED || status == M.DISCONNECTING { status := M.NO_NET; }
    }
  }

  class Connections {
    const seed: M.Seed
    const pool: IfnamePool
    var sessions: map<int, CallSession>
    var published: seq<M.Message>

    ghost function Table(): map<int, M.Call>
      reads this, sessions.Values
    {
      map p | p in sessions :: sessions[p].View()
    }

    ghost function Model(): M.Connections
      reads this, pool, sessions.Values
    {
      M.Connections(seed, pool.inUse, Table(), published)
    }

    /** Every profile has its own session object and the pool is the configured one. */
    ghost predicate Linked()
      reads this
    {
      && pool.prefix == seed.prefix && pool.size == seed.poolSize
      && (forall p, q :: p in sessions && q in sessions && p != q ==> sessions[p] != sessions[q])
    }

    ghost predicate Valid()
      reads this, pool, sessions.Values
    {
      Linked() && M.Inv(Model())
    }

    constructor (seed: M.Seed)
      ensures Valid() && Model() == M.Initial(seed) && fresh(pool)
    {
      this.seed := seed;
      pool := new IfnamePool(seed.prefix, seed.poolSize);
      sessions, published := map[], [];
    }

    method Publish(msgs: seq<M.Message>)
      modifies this`published
      ensures Model() == M.Publish(old(Model()), msgs)
    {
      published := published + msgs;
    }

    // Steps on one session, as seen in the table.

    method AddSession(profile: int, ifname: string, ipFamily: M.IpFamily)
      requires Linked() && profile !in sessions
      modifies this`sessions
      ensures Linked() && fresh(sessions.Values - old(sessions.Values))
      ensures var call := M.NewCall(ifname, ipFamily);
              profile in sessions && sessions[profile].View() == call && Table() == old(Table())[profile := call]
    {
      var session := new CallSession(ifname, ipFamily);
      session.BeginConnecting();
      sessions := sessions[profile := session];
      forall q | q in sessions && q != profile ensures Table()[q] == old(Table())[q] {
        assert sessions[q].View() == old(sessions[q].View());
      }
    }

    method Disconnect(profile: int)
      requires Linked() && profile in sessions
      modifies sessions[profile]
      ensures var call := old(Table())[profile];
              Table() == old(Table())[profile := call.(endReason := Some(M.CleanStop), status := M.OnDisconnect(call.status))]
    {
      sessions[profile].BeginDisconnecting();
      forall q | q in sessions && q != profile ensures Table()[q] == old(Table())[q] {
        assert sessions[q].View() == old(sessions[q].View());
      }
    }

    method Connect(profile: int, rat: string)
      requires Linked() && profile in sessions && sessions[profile].status == M.CONNECTING
      modifies sessions[profile]
      ensures Table() == old(Table())[profile := M.Connected(seed, old(Table())[profile], rat)]
    {
      var session := sessions[profile];
      var ipv4 := if session.ipFamily != M.V6Only then Some(M.BlockFor(seed, IPv4, session.ifname)) else None;
      var ipv6 := if session.ipFamily != M.V4Only then Some(M.BlockFor(seed, IPv6, session.ifname)) else None;
      session.OnConnected(ipv4, ipv6, M.BearerTech(rat));
      forall q | q in sessions && q != profile ensures Table()[q] == old(Table())[q] {
        assert sessions[q].View() == old(sessions[q].View());
      }
    }

    /** Ends a session by a network drop or a disconnect, takes it out of the table and frees its name. */
    method Discard(profile: int, dropped: bool)
      requires Linked() && profile in sessions
      modifies this`sessions, this`published, pool, sessions[profile]
      ensures Linked() && sessions.Values <= old(sessions.Values)
      ensures var call := old(Table())[profile];
              Model() == M.Remove(old(Model()), profile, if dropped then M.Dropped(call) else M.Disconnected(call))
    {
      var session := sessions[profile];
      sessions := sessions - {profile};
      if dropped {
        session.ForceDrop();
      } else {
        session.Disconnected();
      }
      pool.Release(session.ifname);
      published := published + [M.CallState(profile, session.View())];
      forall q | q in sessions ensures Table()[q] == old(Table())[q] {
        assert sessions[q].View() == old(sessions[q].View());
      }
      assert Table() == old(Table()) - {profile};
    }

    // Handlers.

    method HandleStart(profile: int, requested: string, ipFamily: M.IpFamily)
      requires Valid()
      modifies this, pool
      ensures Valid() && fresh(sessions.Values - old(sessions.Values))
      ensures Model() == M.Step(old(Model()), M.StartCall(profile, requested, ipFamily))
    {
      M.StepInv(Model(), M.StartCall(profile, requested, ipFamily));
      if profile in sessions {
        RefuseOrRepeat(profile, requested, ipFamily);
      } else if requested != "" && requested in pool.inUse {
        Publish([M.InvalidOperation(profile)]);
      } else {
        StartNew(profile, requested, ipFamily);
      }
    }

    method StartNew(profile: int, requested: string, ipFamily: M.IpFamily)
      requires Linked() && profile !in sessions && (requested != "" ==> requested !in pool.inUse)
      modifies this, pool
      ensures Linked() && fresh(sessions.Values - old(sessions.Values))
      ensures Model() == M.OnStart(old(Model()), profile, requested, ipFamily)
    {
      var granted := pool.Allocate(requested);
      assert granted == M.Allocate(seed, old(pool.inUse), requested);
      assert Table() == old(Table());
      if granted.None? {
        Publish([M.NoResources(profile)]);
      } else {
        AddSession(profile, granted.value, ipFamily);
        Publish([M.StartOk(profile, granted.value), M.CallState(profile, sessions[profile].View())]);
      }
    }

    /** A profile that already has a call: busy, mismatched, or the same call reported again. */
    method RefuseOrRepeat(profile: int, requested: string, ipFamily: M.IpFamily)
      requires Valid() && profile in sessions
      modifies this`published
      ensures Model() == M.OnStart(old(Model()), profile, requested, ipFamily)
    {
      assert M.CallOk(seed, Model().calls[profile]);
      var s := sessions[profile].status;
      if s == M.CONNECTING || s == M.DISCONNECTING {
        Publish([M.OpInProgress(profile)]);
      } else if requested != "" && requested != sessions[profile].ifname {
        Publish([M.DeviceInUse(profile)]);
      } else {
        Publish([M.StartOk(profile, sessions[profile].ifname)]);
      }
    }

    method HandleStop(profile: int)
      requires Valid()
      modifies this`published, sessions.Values
      ensures Valid() && Model() == M.Step(old(Model()), M.StopCall(profile))
    {
      M.StepInv(Model(), M.StopCall(profile));
      if profile !in sessions || sessions[profile].status == M.NO_NET {
        Publish([M.InvalidArguments(profile)]);
      } else {
        Disconnect(profile);
        Publish([M.StopOk(profile), M.CallState(profile, sessions[profile].View())]);
      }
    }

    method ApplyForceCallDrop(profile: int)
      requires Valid()
      modifies this, pool, sessions.Values
      ensures Valid() && sessions.Values <= old(sessions.Values)
      ensures Model() == M.Step(old(Model()), M.ForceDrop(profile))
    {
      M.StepInv(Model(), M.ForceDrop(profile));
      if profile in sessions {
        assert M.CallOk(seed, Model().calls[profile]);
        Discard(profile, true);
      }
    }

    method OnConnectTimer(profile: int, rat: string)
      requires Valid()
      modifies this`published, sessions.Values
      ensures Valid() && Model() == M.Step(old(Model()), M.ConnectTimer(profile, rat))
    {
      M.StepInv(Model(), M.ConnectTimer(profile, rat));
      if profile in sessions && sessions[profile].status == M.CONNECTING {
        Connect(profile, rat);
        Publish([M.CallState(profile, sessions[profile].View())]);
      }
    }

    method OnDisconnectTimer(profile: int)
      requires Valid()
      modifies this, pool, sessions.Values
      ensures Valid() && sessions.Values <= old(sessions.Values)
      ensures Model() == M.Step(old(Model()), M.DisconnectTimer(profile))
    {
      M.StepInv(Model(), M.DisconnectTimer(profile));
      if profile in sessions {
        Discard(profile, false);
      }
    }

    /** A reconnect republishes readiness and leaves calls, timers and pool alone. */
    method DoResubscribe()
      requires Valid()
      modifies this`published
      ensures Valid() && Model() == M.Step(old(Model()), M.Resubscribe)
    {
      M.StepInv(Model(), M.Resubscribe);
      Publish([M.SubsystemReady]);
    }

    method Handle(e: M.Event)
      requires Valid()
      modifies this, pool, sessions.Values
      ensures Valid() && fresh(sessions.Values - old(sessions.Values))
      ensures Model() == M.Step(old(Model()), e)
    {
      match e
      case StartCall(profile, requested, ipFamily) => HandleStart(profile, requested, ipFamily);
      case StopCall(profile) => HandleStop(profile);
      case ForceDrop(profile) => ApplyForceCallDrop(profile);
      case ConnectTimer(profile, rat) => OnConnectTimer(profile, rat);
      case DisconnectTimer(profile) => OnDisconnectTimer(profile);
      case Resubscribe => DoResubscribe();
    }

    /** Handles a whole run of events in the Ready state. */
    method RunToCompletion(events: seq<M.Event>)
      requires Valid()
      modifies this, pool, sessions.Values
      ensures Valid() && Model() == M.Run(old(Model()), events)
    {
      for i := 0 to |events|
        invariant Valid() && fresh(sessions.Values - old(sessions.Values))
        invariant Model() == M.Run(old(Model()), events[..i])
      {
        assert events[..i + 1][..i] == events[..i];
        Handle(events[i]);
      }
      assert events[..|events|] == events;
    }
  }
}
