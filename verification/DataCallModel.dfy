/**
  The data-call manager as a transition function: the call table, the interface-name pool and the
  addresses handed to connected bearers.
 */
module DataCallModel {
  import opened Common
  import opened Addressing

  datatype Status = IDLE | CONNECTING | CONNECTED | DISCONNECTING | NO_NET

  datatype EndReason = CleanStop | NetworkDrop

  datatype IpFamily = V4Only | V6Only | V4V6

  /** Address and gateway of one family. */
  datatype Block = Block(address: Address, gateway: Address)

  datatype Call = Call(
    ifname: string, ipFamily: IpFamily, status: Status,
    ipv4: Option<Block>, ipv6: Option<Block>, bearerTech: Option<string>, endReason: Option<EndReason>)

  datatype Message =
    | StartOk(profile: int, ifname: string)
    | StopOk(profile: int)
    | OpInProgress(profile: int)
    | DeviceInUse(profile: int)
    | InvalidOperation(profile: int)
    | NoResources(profile: int)
    | InvalidArguments(profile: int)
    | CallState(profile: int, call: Call)
    | SubsystemReady

  datatype Seed = Seed(prefix: string, poolSize: nat, ipv4: Block, ipv6: Block)

  datatype Connections = Connections(seed: Seed, inUse: set<string>, calls: map<int, Call>, log: seq<Message>)

  datatype Event =
    | StartCall(profile: int, requested: string, ipFamily: IpFamily)
    | StopCall(profile: int)
    | ForceDrop(profile: int)
    | ConnectTimer(profile: int, rat: string)   // with the network's technology at that time
    | DisconnectTimer(profile: int)
    | Resubscribe

  function Initial(seed: Seed): Connections { Connections(seed, {}, map[], []) }

  // ---------------------------------------------------------------------------------------------
  // The call's sub-chart: unhandled signals leave the status alone
  // ---------------------------------------------------------------------------------------------

  function OnDisconnect(s: Status): Status { if s == CONNECTED then DISCONNECTING else s }

  function OnTerminate(s: Status): Status { if s == DISCONNECTING then NO_NET else s }

  function OnForceDrop(s: Status): Status {
    if s in {CONNECTING, CONNECTED, DISCONNECTING} then NO_NET else s
  }

  // ---------------------------------------------------------------------------------------------
  // Interface names
  // ---------------------------------------------------------------------------------------------

  /** The lowest-numbered free pool name from index `i` on. */
  function FirstFree(prefix: string, size: nat, inUse: set<string>, i: nat): Option<string>
    decreases size - i
  {
    if i >= size then None
    else if PoolName(prefix, i) !in inUse then Some(PoolName(prefix, i))
    else FirstFree(prefix, size, inUse, i + 1)
  }

  function Allocate(seed: Seed, inUse: set<string>, requested: string): Option<string> {
    if requested != "" then (if requested in inUse then None else Some(requested))
    else FirstFree(seed.prefix, seed.poolSize, inUse, 0)
  }

  ghost predicate PoolExhausted(seed: Seed, inUse: set<string>) {
    forall i: nat :: i < seed.poolSize ==> PoolName(seed.prefix, i) in inUse
  }

  lemma {:induction false} FirstFreeSpec(prefix: string, size: nat, inUse: set<string>, i: nat)
    ensures var r := FirstFree(prefix, size, inUse, i);
            if r.None? then forall k: nat :: i <= k < size ==> PoolName(prefix, k) in inUse
            else exists k: nat :: && i <= k < size && r.value == PoolName(prefix, k) && r.value !in inUse
                                  && forall j: nat :: i <= j < k ==> PoolName(prefix, j) in inUse
    decreases size - i
  {
    if i < size && PoolName(prefix, i) in inUse {
      FirstFreeSpec(prefix, size, inUse, i + 1);
      var r := FirstFree(prefix, size, inUse, i + 1);
      if r.Some? {
        var k: nat :| i + 1 <= k < size && r.value == PoolName(prefix, k) && r.value !in inUse
                      && forall j: nat :: i + 1 <= j < k ==> PoolName(prefix, j) in inUse;
        assert forall j: nat :: i <= j < k ==> PoolName(prefix, j) in inUse;
      }
    }
  }

  lemma AllocateFree(seed: Seed, inUse: set<string>, requested: string)
    ensures var r := Allocate(seed, inUse, requested);
            && (r.Some? ==> r.value !in inUse && r.value != "")
            && (requested != "" ==> r == if requested in inUse then None else Some(requested))
            && (requested == "" ==> (r.None? <==> PoolExhausted(seed, inUse)))
  {
    FirstFreeSpec(seed.prefix, seed.poolSize, inUse, 0);
  }

  // ---------------------------------------------------------------------------------------------
  // Events
  // ---------------------------------------------------------------------------------------------

  function BlockFor(seed: Seed, f: Family, ifname: string): Block {
    var base, idx := if f.IPv4? then seed.ipv4 else seed.ipv6, BearerIndex(seed.prefix, ifname);
    Block(ForBearer(base.address, f, idx), ForBearer(base.gateway, f, idx))
  }

  function BearerTech(rat: string): string {
    if rat in {"GSM", "WCDMA", "LTE", "CDMA_1X"} then rat
    else if rat == "NR5G" then "BEARER_TECH_5G"
    else if rat == "CDMA_EVDO" then "EVDO_REV0"
    else "UNKNOWN"
  }

  function Connected(seed: Seed, call: Call, rat: string): Call {
    call.(status := CONNECTED, bearerTech := Some(BearerTech(rat)),
          ipv4 := if call.ipFamily != V6Only then Some(BlockFor(seed, IPv4, call.ifname)) else None,
          ipv6 := if call.ipFamily != V4Only then Some(BlockFor(seed, IPv6, call.ifname)) else None)
  }

  function Publish(m: Connections, msgs: seq<Message>): Connections { m.(log := m.log + msgs) }

  /** Out of the table, name back to the pool, final state published. */
  function Remove(m: Connections, profile: int, final: Call): Connections
    requires profile in m.calls
  {
    m.(calls := m.calls - {profile}, inUse := m.inUse - {m.calls[profile].ifname},
       log := m.log + [CallState(profile, final)])
  }

  function NewCall(name: string, ipFamily: IpFamily): Call { Call(name, ipFamily, CONNECTING, None, None, None, None) }

  /** A call as its last indication shows it: dropped by the network, or disconnected. */
  function Dropped(call: Call): Call {
    call.(endReason := Some(NetworkDrop), bearerTech := None, status := OnForceDrop(call.status))
  }

  function Disconnected(call: Call): Call { call.(bearerTech := None, status := OnTerminate(call.status)) }

  function OnStart(m: Connections, profile: int, requested: string, ipFamily: IpFamily): Connections {
    if profile in m.calls && m.calls[profile].status in {CONNECTING, DISCONNECTING} then
      Publish(m, [OpInProgress(profile)])
    else if profile in m.calls && m.calls[profile].status == CONNECTED then
      if requested != "" && requested != m.calls[profile].ifname then Publish(m, [DeviceInUse(profile)])
      else Publish(m, [StartOk(profile, m.calls[profile].ifname)])
    else if requested != "" && requested in m.inUse then Publish(m, [InvalidOperation(profile)])
    else
      match Allocate(m.seed, m.inUse, requested)
      case None => Publish(m, [NoResources(profile)])
      case Some(name) =>
        var call := NewCall(name, ipFamily);
        Publish(m.(inUse := m.inUse + {name}, calls := m.calls[profile := call]),
                [StartOk(profile, name), CallState(profile, call)])
  }

  function Step(m: Connections, e: Event): Connections {
    match e
    case StartCall(profile, requested, ipFamily) => OnStart(m, profile, requested, ipFamily)
    case StopCall(profile) =>
      if profile !in m.calls || m.calls[profile].status == NO_NET then Publish(m, [InvalidArguments(profile)])
      else
        var call := m.calls[profile].(endReason := Some(CleanStop), status := OnDisconnect(m.calls[profile].status));
        Publish(m.(calls := m.calls[profile := call]), [StopOk(profile), CallState(profile, call)])
    case ForceDrop(profile) =>
      if profile !in m.calls then m
      else if m.calls[profile].status == NO_NET then m.(calls := m.calls - {profile})
      else Remove(m, profile, Dropped(m.calls[profile]))
    case ConnectTimer(profile, rat) =>
      if profile !in m.calls || m.calls[profile].status != CONNECTING then m
      else
        var call := Connected(m.seed, m.calls[profile], rat);
        Publish(m.(calls := m.calls[profile := call]), [CallState(profile, call)])
    case DisconnectTimer(profile) =>
      if profile !in m.calls then m
      else Remove(m, profile, Disconnected(m.calls[profile]))
    case Resubscribe => Publish(m, [SubsystemReady])
  }

  function Run(m: Connections, es: seq<Event>): Connections {
    if es == [] then m else Step(Run(m, es[..|es| - 1]), es[|es| - 1])
  }

  // ---------------------------------------------------------------------------------------------
  // The invariant of every reachable state
  // ---------------------------------------------------------------------------------------------

  /** A tabled call is live, and once connected has a technology and its interface's addresses. */
  predicate CallOk(seed: Seed, call: Call) {
    && call.status in {CONNECTING, CONNECTED, DISCONNECTING}
    && (call.status == CONNECTING ==> call.ipv4.None? && call.ipv6.None?)
    && (call.bearerTech.Some? <==> call.status != CONNECTING)
    && (call.status != CONNECTING && call.ipFamily != V6Only ==> call.ipv4 == Some(BlockFor(seed, IPv4, call.ifname)))
    && (call.status != CONNECTING && call.ipFamily != V4Only ==> call.ipv6 == Some(BlockFor(seed, IPv6, call.ifname)))
  }

  /** The pool's in-use set is exactly the set of names in the table, one call to a name. */
  ghost predicate Inv(m: Connections) {
    && (forall p :: p in m.calls ==> CallOk(m.seed, m.calls[p]))
    && (forall name :: name in m.inUse <==> exists p :: p in m.calls && m.calls[p].ifname == name)
    && (forall p, q :: p in m.calls && q in m.calls && p != q ==> m.calls[p].ifname != m.calls[q].ifname)
  }

  /** Replacing a call by one on the same interface. */
  lemma UpdateInv(m: Connections, profile: int, call: Call, log: seq<Message>)
    requires Inv(m) && profile in m.calls && call.ifname == m.calls[profile].ifname && CallOk(m.seed, call)
    ensures Inv(m.(calls := m.calls[profile := call], log := log))
  {
    var calls := m.calls[profile := call];
    forall name | name in m.inUse ensures exists p :: p in calls && calls[p].ifname == name {
      var p :| p in m.calls && m.calls[p].ifname == name;
      assert p in calls;
    }
    forall p | p in calls ensures calls[p].ifname in m.inUse { assert p in m.calls; }
  }

  lemma AddInv(m: Connections, profile: int, call: Call, log: seq<Message>)
    requires Inv(m) && profile !in m.calls && call.ifname !in m.inUse && CallOk(m.seed, call)
    ensures Inv(m.(inUse := m.inUse + {call.ifname}, calls := m.calls[profile := call], log := log))
  {
    var calls := m.calls[profile := call];
    forall name | name in m.inUse + {call.ifname} ensures exists p :: p in calls && calls[p].ifname == name {
      if name in m.inUse {
        var p :| p in m.calls && m.calls[p].ifname == name;
        assert p in calls && calls[p].ifname == name;
      } else {
        assert profile in calls && calls[profile].ifname == name;
      }
    }
    forall p | p in m.calls ensures m.calls[p].ifname in m.inUse {}
  }

  lemma RemoveInv(m: Connections, profile: int, final: Call)
    requires Inv(m) && profile in m.calls
    ensures Inv(Remove(m, profile, final))
  {
    var m' := Remove(m, profile, final);
    forall name | name in m'.inUse ensures exists p :: p in m'.calls && m'.calls[p].ifname == name {
      var p :| p in m.calls && m.calls[p].ifname == name;
      assert p in m'.calls && m'.calls[p].ifname == name;
    }
    forall p | p in m'.calls ensures m'.calls[p].ifname in m'.inUse { assert p in m.calls; }
  }

  lemma StepInv(m: Connections, e: Event)
    requires Inv(m)
    ensures Inv(Step(m, e)) && Step(m, e).seed == m.seed
  {
    var m' := Step(m, e);
    match e
    case StartCall(profile, requested, ipFamily) =>
      AllocateFree(m.seed, m.inUse, requested);
      var name := Allocate(m.seed, m.inUse, requested);
      if profile !in m.calls && name.Some? {
        AddInv(m, profile, NewCall(name.value, ipFamily), m'.log);
      }
    case StopCall(profile) => if profile in m.calls { UpdateInv(m, profile, m'.calls[profile], m'.log); }
    case ForceDrop(profile) =>
      if profile in m.calls { RemoveInv(m, profile, Dropped(m.calls[profile])); }
    case ConnectTimer(profile, _) =>
      if profile in m.calls && m.calls[profile].status == CONNECTING {
        UpdateInv(m, profile, m'.calls[profile], m'.log);
      }
    case DisconnectTimer(profile) =>
      if profile in m.calls { RemoveInv(m, profile, Disconnected(m.calls[profile])); }
    case Resubscribe =>
  }

  /** In every reachable state, stale and spurious timers included, pool and call table agree. */
  lemma {:induction false} PoolMatchesTable(seed: Seed, es: seq<Event>)
    ensures Inv(Run(Initial(seed), es)) && Run(Initial(seed), es).seed == seed
    decreases |es|
  {
    if es != [] {
      PoolMatchesTable(seed, es[..|es| - 1]);
      StepInv(Run(Initial(seed), es[..|es| - 1]), es[|es| - 1]);
    }
  }

  /** An unnamed start of a new call fails, with NO_RESOURCES, exactly when every pool name is held by some call. */
  lemma NoResourcesIffPoolTaken(m: Connections, profile: int, ipFamily: IpFamily)
    requires Inv(m) && profile !in m.calls
    ensures Step(m, StartCall(profile, "", ipFamily)).log == m.log + [NoResources(profile)]
            <==> forall i: nat :: i < m.seed.poolSize ==>
                   exists p :: p in m.calls && m.calls[p].ifname == PoolName(m.seed.prefix, i)
    ensures (profile in Step(m, StartCall(profile, "", ipFamily)).calls)
            <==> !PoolExhausted(m.seed, m.inUse)
  {
    AllocateFree(m.seed, m.inUse, "");
    assert PoolExhausted(m.seed, m.inUse) <==>
      forall i: nat :: i < m.seed.poolSize ==> exists p :: p in m.calls && m.calls[p].ifname == PoolName(m.seed.prefix, i);
    var m' := Step(m, StartCall(profile, "", ipFamily));
    if Allocate(m.seed, m.inUse, "").Some? { assert |m'.log| == |m.log| + 2; }
  }

  /** Stopping publishes DISCONNECTING only for a call that had connected; a CONNECTING one stays so. */
  lemma StopPublishes(m: Connections, profile: int)
    requires Inv(m) && profile in m.calls
    ensures var m' := Step(m, StopCall(profile));
            && m'.calls[profile].endReason == Some(CleanStop)
            && m'.log == m.log + [StopOk(profile), CallState(profile, m'.calls[profile])]
            && (m'.calls[profile].status == DISCONNECTING <==> m.calls[profile].status != CONNECTING)
            && (m'.calls[profile].status == CONNECTING <==> m.calls[profile].status == CONNECTING)
  {}

  /**
    A call leaves the table only by its own forced drop or disconnect timer, and its last indication is
    NO_NET exactly when it was dropped or was DISCONNECTING; otherwise, stopped while CONNECTING or hit
    by a stale timer, it is last seen with the status it had.
   */
  lemma RemovalPublishes(m: Connections, e: Event, profile: int)
    requires Inv(m) && profile in m.calls && profile !in Step(m, e).calls
    ensures e == ForceDrop(profile) || e == DisconnectTimer(profile)
    ensures var was, m' := m.calls[profile], Step(m, e);
            var final := was.(bearerTech := None,
                              status := if e.ForceDrop? || was.status == DISCONNECTING then NO_NET else was.status,
                              endReason := if e.ForceDrop? then Some(NetworkDrop) else was.endReason);
            m'.log == m.log + [CallState(profile, final)]
  {
    assert CallOk(m.seed, m.calls[profile]);
    match e
    case StartCall(_, _, _) => assert false;
    case StopCall(_) => assert false;
    case ForceDrop(_) =>
    case ConnectTimer(_, _) => assert false;
    case DisconnectTimer(_) =>
    case Resubscribe => assert false;
  }

  /** A call started, stopped before it connected and then disconnected: last seen CONNECTING. */
  lemma StoppedWhileConnecting(seed: Seed, profile: int, name: string, ipFamily: IpFamily)
    requires name != ""
    ensures var r := Run(Initial(seed), [StartCall(profile, name, ipFamily), StopCall(profile), DisconnectTimer(profile)]);
            var final := NewCall(name, ipFamily).(endReason := Some(CleanStop));
            profile !in r.calls && r.log != [] && r.log[|r.log| - 1] == CallState(profile, final)
  {
    var e0, e1, e2 := StartCall(profile, name, ipFamily), StopCall(profile), DisconnectTimer(profile);
    assert [e0, e1, e2][..2] == [e0, e1] && [e0, e1][..1] == [e0] && [e0][..0] == [];
    var m0 := Run(Initial(seed), [e0]);
    assert m0 == Step(Run(Initial(seed), []), e0);
    var m1 := Step(m0, e1);
    assert Run(Initial(seed), [e0, e1]) == m1;
  }

  // ---------------------------------------------------------------------------------------------
  // Distinct subnets
  // ---------------------------------------------------------------------------------------------

  predicate Up(call: Call, f: Family) {
    call.status in {CONNECTED, DISCONNECTING} && call.ipFamily != (if f.IPv4? then V6Only else V4Only)
  }

  function BlockOf(call: Call, f: Family): Option<Block> { if f.IPv4? then call.ipv4 else call.ipv6 }

  function SeedBlock(seed: Seed, f: Family): Block { if f.IPv4? then seed.ipv4 else seed.ipv6 }

  /**
    After any run, two live bearers on pool-generated names are in different /24 (IPv4) or /64 (IPv6)
    blocks, unless an address overflows its family.
   */
  lemma LiveBearersDistinct(seed: Seed, es: seq<Event>, p: int, q: int, i: nat, j: nat, f: Family)
    requires var m := Run(Initial(seed), es);
             && p in m.calls && q in m.calls && p != q
             && m.calls[p].ifname == PoolName(seed.prefix, i) && m.calls[q].ifname == PoolName(seed.prefix, j)
             && Up(m.calls[p], f) && Up(m.calls[q], f)
    requires NoOverflow(SeedBlock(seed, f).address, f, i) && NoOverflow(SeedBlock(seed, f).address, f, j)
    ensures var m := Run(Initial(seed), es);
            var a, b := BlockOf(m.calls[p], f), BlockOf(m.calls[q], f);
            && a.Some? && b.Some? && a.value.address.Address? && b.value.address.Address?
            && Network(f, StridePrefix(f), a.value.address.value) != Network(f, StridePrefix(f), b.value.address.value)
  {
    PoolMatchesTable(seed, es);
    PoolNamesDistinct(seed.prefix, i, j);
    PoolNameIndex(seed.prefix, i);
    PoolNameIndex(seed.prefix, j);
    BearersInDifferentBlocks(f, SeedBlock(seed, f).address, i, j);
  }

  /** The prefixes for which shifting a bearer keeps its gateway's on-link status. */
  predicate KeepsLinks(f: Family, prefixLen: nat) {
    prefixLen <= f.Width() && (prefixLen == 0 || StridePrefix(f) <= prefixLen)
  }

  lemma BlockOnLink(base: Block, f: Family, idx: int, prefixLen: nat)
    requires KeepsLinks(f, prefixLen)
    requires base.address.Address? && base.gateway.Address? && Fits(f, base.address.value) && Fits(f, base.gateway.value)
    requires NoOverflow(base.address, f, idx) && NoOverflow(base.gateway, f, idx)
    ensures OnLink(f, prefixLen, ForBearer(base.address, f, idx).value, ForBearer(base.gateway, f, idx).value)
            <==> OnLink(f, prefixLen, base.address.value, base.gateway.value)
  {
    if prefixLen == 0 {
      EmptyPrefixKeepsOnLink(f, base.address.value, base.gateway.value, idx);
    } else {
      LongPrefixKeepsOnLink(f, prefixLen, base.address.value, base.gateway.value, idx);
    }
  }

  /** And each live bearer's gateway is on-link for it exactly when the seed's was, from /24 (/64) up and for /0. */
  lemma LiveGatewayOnLink(seed: Seed, es: seq<Event>, p: int, f: Family, prefixLen: nat)
    requires KeepsLinks(f, prefixLen)
    requires p in Run(Initial(seed), es).calls && Up(Run(Initial(seed), es).calls[p], f)
    requires var base := SeedBlock(seed, f);
             base.address.Address? && base.gateway.Address? && Fits(f, base.address.value) && Fits(f, base.gateway.value)
    requires var idx, base := BearerIndex(seed.prefix, Run(Initial(seed), es).calls[p].ifname), SeedBlock(seed, f);
             NoOverflow(base.address, f, idx) && NoOverflow(base.gateway, f, idx)
    ensures var b, base := BlockOf(Run(Initial(seed), es).calls[p], f), SeedBlock(seed, f);
            && b.Some? && b.value.address.Address? && b.value.gateway.Address?
            && (OnLink(f, prefixLen, b.value.address.value, b.value.gateway.value)
                <==> OnLink(f, prefixLen, base.address.value, base.gateway.value))
  {
    PoolMatchesTable(seed, es);
    var call := Run(Initial(seed), es).calls[p];
    assert BlockOf(call, f) == Some(BlockFor(seed, f, call.ifname));
    BlockOnLink(SeedBlock(seed, f), f, BearerIndex(seed.prefix, call.ifname), prefixLen);
  }

  // ---------------------------------------------------------------------------------------------
  // What each event does to an ordinary call
  // ---------------------------------------------------------------------------------------------

  /** One bearer's distance from the next: 256 IPv4 addresses, 2^64 IPv6 ones. */
  function Spacing(f: Family): int { if f.IPv4? then 256 else 0x1_0000_0000_0000_0000 }

  lemma StrideIsSpacing(f: Family)
    ensures f.Stride() == Spacing(f)
  {
    assert Pow2(8) == 256;
    if f.IPv6? {
      Pow2Divides(8, 16);
      Pow2Divides(16, 32);
      Pow2Divides(32, 64);
    }
  }

  /** An address of the seed, `i` bearers further on. */
  predicate ShiftedBy(a: Address, base: Address, f: Family, i: nat) {
    a.Address? && base.Address? && a.family == f && a.value == base.value + i * Spacing(f)
  }

  lemma BlockShifted(seed: Seed, f: Family, name: string, i: nat)
    requires name == PoolName(seed.prefix, i)
    requires NoOverflow(SeedBlock(seed, f).address, f, i) && NoOverflow(SeedBlock(seed, f).gateway, f, i)
    ensures ShiftedBy(BlockFor(seed, f, name).address, SeedBlock(seed, f).address, f, i)
    ensures ShiftedBy(BlockFor(seed, f, name).gateway, SeedBlock(seed, f).gateway, f, i)
  {
    PoolNameIndex(seed.prefix, i);
    StrideIsSpacing(f);
  }

  /**
    The connect timer turns a CONNECTING call into a CONNECTED one with addresses of exactly the families
    it asked for and the network's technology, publishes it and touches no other call; in any other status,
    or without a call, it does nothing.
   */
  lemma ConnectConnects(m: Connections, p: int, rat: string)
    requires Inv(m)
    ensures var m' := Step(m, ConnectTimer(p, rat));
            if p !in m.calls || m.calls[p].status != CONNECTING then m' == m
            else
              && p in m'.calls && m'.calls == m.calls[p := m'.calls[p]] && m'.inUse == m.inUse && m'.seed == m.seed
              && m'.log == m.log + [CallState(p, m'.calls[p])]
              && var was, call := m.calls[p], m'.calls[p];
              && call.status == CONNECTED && call.bearerTech.Some?
              && call.ifname == was.ifname && call.ipFamily == was.ipFamily && call.endReason == was.endReason
              && (call.ipv4.Some? <==> call.ipFamily != V6Only)
              && (call.ipv6.Some? <==> call.ipFamily != V4Only)
  {}

  /** And a bearer on a pool name gets the seed's address and gateway moved by its index, unless they overflow. */
  lemma ConnectAddresses(m: Connections, p: int, rat: string, f: Family, i: nat)
    requires Inv(m) && p in m.calls && m.calls[p].status == CONNECTING
    requires m.calls[p].ifname == PoolName(m.seed.prefix, i)
    requires m.calls[p].ipFamily != (if f.IPv4? then V6Only else V4Only)
    requires NoOverflow(SeedBlock(m.seed, f).address, f, i) && NoOverflow(SeedBlock(m.seed, f).gateway, f, i)
    ensures var m' := Step(m, ConnectTimer(p, rat));
            && p in m'.calls && BlockOf(m'.calls[p], f).Some?
            && ShiftedBy(BlockOf(m'.calls[p], f).value.address, SeedBlock(m.seed, f).address, f, i)
            && ShiftedBy(BlockOf(m'.calls[p], f).value.gateway, SeedBlock(m.seed, f).gateway, f, i)
  {
    BlockShifted(m.seed, f, m.calls[p].ifname, i);
  }

  /** The technology shown for each network technology. */
  lemma BearerTechs(m: Connections, p: int, rat: string)
    requires Inv(m) && p in m.calls && m.calls[p].status == CONNECTING
    ensures Step(m, ConnectTimer(p, rat)).calls[p].bearerTech
            == Some(match rat
                    case "GSM" => "GSM"
                    case "WCDMA" => "WCDMA"
                    case "LTE" => "LTE"
                    case "NR5G" => "BEARER_TECH_5G"
                    case "CDMA_1X" => "CDMA_1X"
                    case "CDMA_EVDO" => "EVDO_REV0"
                    case _ => "UNKNOWN")
  {}

  /** A start of a profile that already has a call changes nothing and says why, or repeats the answer. */
  lemma StartAgain(m: Connections, p: int, requested: string, ipFamily: IpFamily)
    requires Inv(m) && p in m.calls
    ensures Step(m, StartCall(p, requested, ipFamily))
            == m.(log := m.log + [if m.calls[p].status != CONNECTED then OpInProgress(p)
                                  else if requested != "" && requested != m.calls[p].ifname then DeviceInUse(p)
                                  else StartOk(p, m.calls[p].ifname)])
  {
    assert CallOk(m.seed, m.calls[p]);
  }

  /**
    A start of another profile: refused while another call holds the requested name, or when no pool name
    is left; otherwise a CONNECTING call without addresses on the requested name, or on the lowest pool name
    that no call holds, answered and published.
   */
  lemma StartNewCall(m: Connections, p: int, requested: string, ipFamily: IpFamily)
    requires Inv(m) && p !in m.calls
    ensures var m' := Step(m, StartCall(p, requested, ipFamily));
            if p !in m'.calls then
              && m' == m.(log := m.log + [if requested != "" then InvalidOperation(p) else NoResources(p)])
              && (requested != "" ==> exists q :: q in m.calls && m.calls[q].ifname == requested)
            else
              var call := m'.calls[p];
              && m'.calls == m.calls[p := call] && m'.inUse == m.inUse + {call.ifname}
              && m'.log == m.log + [StartOk(p, call.ifname), CallState(p, call)]
              && call.status == CONNECTING && call.ipFamily == ipFamily
              && call.ipv4.None? && call.ipv6.None? && call.bearerTech.None? && call.endReason.None?
              && (forall q :: q in m.calls ==> m.calls[q].ifname != call.ifname)
              && if requested != "" then call.ifname == requested
                 else exists i: nat :: && i < m.seed.poolSize && call.ifname == PoolName(m.seed.prefix, i)
                                       && forall j: nat :: j < i ==> PoolName(m.seed.prefix, j) in m.inUse
  {
    AllocateFree(m.seed, m.inUse, requested);
    FirstFreeSpec(m.seed.prefix, m.seed.poolSize, m.inUse, 0);
  }

  /** A forced drop and a disconnect timer take the call out and free its name; without a call nothing happens. */
  lemma RemovesCall(m: Connections, p: int, e: Event)
    requires Inv(m) && (e == ForceDrop(p) || e == DisconnectTimer(p))
    ensures var m' := Step(m, e);
            if p !in m.calls then m' == m
            else m'.calls == m.calls - {p} && m'.inUse == m.inUse - {m.calls[p].ifname}
  {
    if p in m.calls { assert CallOk(m.seed, m.calls[p]); }
  }

  /** A reconnect republishes readiness and tears nothing down. */
  lemma ResubscribeTearsNothingDown(m: Connections)
    ensures Step(m, Resubscribe) == m.(log := m.log + [SubsystemReady])
  {}

  /** A stop without a call is refused; a stop of a call touches no other one. */
  lemma StopTouchesOne(m: Connections, p: int)
    requires Inv(m)
    ensures var m' := Step(m, StopCall(p));
            if p !in m.calls then m' == m.(log := m.log + [InvalidArguments(p)])
            else p in m'.calls && m'.calls == m.calls[p := m'.calls[p]] && m'.inUse == m.inUse
                 && m'.calls[p] == m.calls[p].(status := m'.calls[p].status, endReason := m'.calls[p].endReason)
  {
    if p in m.calls { assert CallOk(m.seed, m.calls[p]); }
  }

  /** A run of four events. */
  lemma RunFour(m: Connections, a: Event, b: Event, c: Event, d: Event)
    ensures Run(m, [a, b, c, d]) == Step(Step(Step(Step(m, a), b), c), d)
  {
    assert [a, b, c, d][..3] == [a, b, c] && [a, b, c][..2] == [a, b] && [a, b][..1] == [a] && [a][..0] == [];
    assert Run(m, []) == m;
    assert Run(m, [a]) == Step(m, a);
    assert Run(m, [a, b]) == Step(Step(m, a), b);
  }

  /** The only call is that of `p`, in the given status. */
  ghost predicate Only(m: Connections, p: int, name: string, status: Status) {
    Inv(m) && m.calls.Keys == {p} && m.calls[p].status == status && m.calls[p].ifname == name
  }

  lemma OnlyStarted(seed: Seed, p: int, name: string, ipFamily: IpFamily)
    requires name != ""
    ensures var m' := Step(Initial(seed), StartCall(p, name, ipFamily));
            Only(m', p, name, CONNECTING) && m'.log == [StartOk(p, name), CallState(p, m'.calls[p])]
  {
    StepInv(Initial(seed), StartCall(p, name, ipFamily));
  }

  lemma OnlyConnected(m: Connections, p: int, name: string, rat: string)
    requires Only(m, p, name, CONNECTING)
    ensures var m' := Step(m, ConnectTimer(p, rat));
            Only(m', p, name, CONNECTED) && m'.log == m.log + [CallState(p, m'.calls[p])]
  {
    StepInv(m, ConnectTimer(p, rat));
  }

  lemma OnlyStopped(m: Connections, p: int, name: string)
    requires Only(m, p, name, CONNECTED)
    ensures var m' := Step(m, StopCall(p));
            Only(m', p, name, DISCONNECTING) && m'.log == m.log + [StopOk(p), CallState(p, m'.calls[p])]
  {
    StepInv(m, StopCall(p));
  }

  lemma OnlyRemoved(m: Connections, p: int, name: string)
    requires Only(m, p, name, DISCONNECTING)
    ensures var m' := Step(m, DisconnectTimer(p));
            && m'.calls == map[] && m'.inUse == {}
            && m'.log == m.log + [CallState(p, Disconnected(m.calls[p]))] && Disconnected(m.calls[p]).status == NO_NET
  {
    StepInv(m, DisconnectTimer(p));
    assert m.calls - {p} == map[];
    assert forall n :: n !in Step(m, DisconnectTimer(p)).inUse;
  }

  /** An indication of a call in some status. */
  predicate Shows(x: Message, p: int, status: Status) { x.CallState? && x.profile == p && x.call.status == status }

  /**
    The ordinary life of a call, as it is answered and published: CONNECTING, CONNECTED, DISCONNECTING,
    NO_NET; nothing of it is left.
   */
  lemma OrdinaryCall(seed: Seed, p: int, name: string, ipFamily: IpFamily, rat: string)
    requires name != ""
    ensures var r := Run(Initial(seed), [StartCall(p, name, ipFamily), ConnectTimer(p, rat), StopCall(p), DisconnectTimer(p)]);
            && r.calls == map[] && r.inUse == {} && |r.log| == 6
            && r.log[0] == StartOk(p, name) && Shows(r.log[1], p, CONNECTING) && Shows(r.log[2], p, CONNECTED)
            && r.log[3] == StopOk(p) && Shows(r.log[4], p, DISCONNECTING) && Shows(r.log[5], p, NO_NET)
  {
    RunFour(Initial(seed), StartCall(p, name, ipFamily), ConnectTimer(p, rat), StopCall(p), DisconnectTimer(p));
    OnlyStarted(seed, p, name, ipFamily);
    LifeFrom(Step(Initial(seed), StartCall(p, name, ipFamily)), p, name, rat);
  }

  lemma LifeFrom(m: Connections, p: int, name: string, rat: string)
    requires Only(m, p, name, CONNECTING)
    ensures var r := Step(Step(Step(m, ConnectTimer(p, rat)), StopCall(p)), DisconnectTimer(p));
            && r.calls == map[] && r.inUse == {} && |r.log| == |m.log| + 4 && m.log <= r.log
            && var n := |m.log|;
            && Shows(r.log[n], p, CONNECTED) && r.log[n + 1] == StopOk(p)
            && Shows(r.log[n + 2], p, DISCONNECTING) && Shows(r.log[n + 3], p, NO_NET)
  {
    OnlyConnected(m, p, name, rat);
    LifeEnd(Step(m, ConnectTimer(p, rat)), p, name);
  }

  lemma LifeEnd(m: Connections, p: int, name: string)
    requires Only(m, p, name, CONNECTED)
    ensures var r := Step(Step(m, StopCall(p)), DisconnectTimer(p));
            && r.calls == map[] && r.inUse == {} && |r.log| == |m.log| + 3 && m.log <= r.log
            && var n := |m.log|;
            r.log[n] == StopOk(p) && Shows(r.log[n + 1], p, DISCONNECTING) && Shows(r.log[n + 2], p, NO_NET)
  {
    OnlyStopped(m, p, name);
    OnlyRemoved(Step(m, StopCall(p)), p, name);
  }
}
