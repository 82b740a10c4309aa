/**
  The power coordination round, as a transition function.

  A state holds the machine registry, the recorded activity of every machine, the FIFO of accepted
  requests and, while the head of that FIFO waits for acknowledgements, the round in flight. What the
  implementation also stores about the round (target, state, correlation, timer handle) is absent
  here: the class in PowerSubsystem.dfy proves that those fields always mirror the queue head.
 */
module PowerModel {
  import opened Common

  datatype Activity = UNKNOWN | SUSPEND | RESUME | SHUTDOWN

  type Name = string
  const ALL_MACHINES: Name := "ALL_MACHINES"
  const LOCAL_MACHINE: Name := "LOCAL_MACHINE"

  datatype Request = Request(machine: Name, state: Activity, corrId: string, src: string)

  datatype ReadyPart = Tcu | WakeupRelay

  datatype Status = COMPLETE | TIMEOUT

  datatype Outcome = Ok | NackedOrSilent | Duplicate | ShutdownInProgress

  datatype Message =
    | StateUpdates(machines: set<Name>, state: Activity) // one state_update.ind per member
    | AckStatus(status: Status, machine: Name, unresponsive: set<Name>, nacked: set<Name>)
    | Reply(corrId: string, src: string, outcome: Outcome)
    | MachineUpdate(machine: Name, available: bool)
    | MachineNames(names: set<Name>)
    | SubsystemReady(part: ReadyPart)
    | WakeupInd(info: string)

  /** Machines whose acknowledgement the head request awaits, and the answers so far. */
  datatype Round = Round(expected: set<Name>, acked: set<Name>, nacked: set<Name>)

  datatype Power = Power(
    local: Name,
    registered: set<Name>,
    machines: map<Name, Activity>,
    queue: seq<Request>,
    round: Option<Round>,
    ftimeout: bool,
    log: seq<Message>)

  datatype Event =
    | SetState(req: Request)
    | SlaveAck(machine: Name, ack: bool)
    | AckTimeout
    | FTimeout
    | AddMachine(machine: Name)
    | RemoveMachine(machine: Name)
    | GetMachineNames
    | WakeupEvent(info: string)
    | Resubscribe

  // ---------------------------------------------------------------------------------------------
  // Transition function
  // ---------------------------------------------------------------------------------------------

  function Initial(local: Name): Power {
    Power(local, {local}, map[local := RESUME, ALL_MACHINES := RESUME], [], None, false, [])
  }

  function Targets(local: Name, registered: set<Name>, machine: Name): set<Name> {
    if machine == ALL_MACHINES then registered
    else if machine == LOCAL_MACHINE then {local}
    else {machine}
  }

  function Lookup(machines: map<Name, Activity>, t: Name): Activity {
    if t in machines then machines[t] else UNKNOWN
  }

  /** Recording a state: ALL_MACHINES overwrites every key, registered or not. */
  function Record(local: Name, machines: map<Name, Activity>, machine: Name, state: Activity): (r: map<Name, Activity>)
    ensures machines.Keys <= r.Keys
  {
    if machine == ALL_MACHINES then map k | k in machines :: state
    else if machine == LOCAL_MACHINE then machines[local := state]
    else machines[machine := state]
  }

  function Write(local: Name, machines: map<Name, Activity>, req: Request): (r: map<Name, Activity>)
    ensures machines.Keys <= r.Keys
  {
    Record(local, machines, req.machine, req.state)
  }

  /** The reverse scan that decides whether a request is a duplicate. */
  function LastQueued(local: Name, registered: set<Name>, machines: map<Name, Activity>,
                      queue: seq<Request>, t: Name): Activity
  {
    if queue == [] then Lookup(machines, t)
    else
      var last := queue[|queue| - 1];
      if t in Targets(local, registered, last.machine) then last.state
      else LastQueued(local, registered, machines, queue[..|queue| - 1], t)
  }

  predicate ShuttingDown(s: Power) {
    s.queue != [] && s.queue[0].state == SHUTDOWN
  }

  predicate Accepts(s: Power, req: Request) {
    && !ShuttingDown(s)
    && exists t :: t in Targets(s.local, s.registered, req.machine)
                   && LastQueued(s.local, s.registered, s.machines, s.queue, t) != req.state
  }

  function Changed(s: Power, req: Request): set<Name> {
    set t | t in Targets(s.local, s.registered, req.machine) && Lookup(s.machines, t) != req.state
  }

  predicate Unanimous(r: Round) {
    r.expected - r.acked - r.nacked == {} && r.nacked == {}
  }

  predicate InvolvesLocal(local: Name, machine: Name) {
    machine == ALL_MACHINES || machine == LOCAL_MACHINE || machine == local
  }

  function Verdict(r: Round): Outcome {
    if Unanimous(r) then Ok else NackedOrSilent
  }

  /** What closing round `r` of request `req` publishes. */
  function Closing(req: Request, r: Round, status: Status): seq<Message> {
    (if r.expected == {} then []
     else [AckStatus(status, req.machine, r.expected - r.acked - r.nacked, r.nacked)])
    + [Reply(req.corrId, req.src, Verdict(r))]
  }

  /** The head request leaves the queue with its state recorded, however its round ended. */
  function Close(s: Power, r: Round, status: Status): Power
    requires s.queue != []
  {
    var req := s.queue[0];
    s.(machines := Write(s.local, s.machines, req),
       queue := s.queue[1..],
       round := None,
       ftimeout := s.ftimeout || (!Unanimous(r) && InvolvesLocal(s.local, req.machine)),
       log := s.log + Closing(req, r, status))
  }

  function Announcement(changed: set<Name>, state: Activity): seq<Message> {
    if changed == {} then [] else [StateUpdates(changed, state)]
  }

  /** The head request told to the machines it changes. */
  function Announced(s: Power): Power
    requires s.queue != []
  {
    s.(log := s.log + Announcement(Changed(s, s.queue[0]), s.queue[0].state))
  }

  /** Starts queued requests until one of them has to wait or none is left. */
  function Advance(s: Power): Power
    requires s.round.None?
    decreases |s.queue|
  {
    if s.queue == [] then s
    else
      var req := s.queue[0];
      var changed := Changed(s, req);
      if req.state == RESUME || changed == {} then Advance(Close(Announced(s), Round({}, {}, {}), COMPLETE))
      else Announced(s).(round := Some(Round(changed, {}, {})))
  }

  function Finish(s: Power, r: Round, status: Status): Power
    requires s.queue != []
  {
    Advance(Close(s, r, status))
  }

  function Acknowledge(s: Power, m: Name, ack: bool): Power
    requires s.round.Some? ==> s.queue != []
  {
    if s.round.None? || m !in s.round.value.expected then s
    else
      var r := s.round.value;
      if !ack then Finish(s, r.(nacked := r.nacked + {m}), COMPLETE)
      else if r.expected <= r.acked + {m} then Finish(s, r.(acked := r.acked + {m}), COMPLETE)
      else s.(round := Some(r.(acked := r.acked + {m})))
  }

  function Reject(s: Power, req: Request, why: Outcome): Power {
    s.(log := s.log + [Reply(req.corrId, req.src, why)])
  }

  function Submit(s: Power, req: Request): Power
    requires s.queue == [] ==> s.round.None?
  {
    if ShuttingDown(s) then Reject(s, req, ShutdownInProgress)
    else if !Accepts(s, req) then Reject(s, req, Duplicate)
    else if s.queue == [] then Advance(s.(queue := [req]))
    else s.(queue := s.queue + [req])
  }

  function Publish(s: Power, msgs: seq<Message>): Power { s.(log := s.log + msgs) }

  /** What an event that concerns no round publishes. */
  function Indications(s: Power, e: Event): seq<Message> {
    match e
    case FTimeout => [StateUpdates({s.local}, Lookup(s.machines, s.local))]
    case AddMachine(m) => if m in s.registered then [] else [MachineUpdate(m, true)]
    case RemoveMachine(m) => if m in s.registered then [MachineUpdate(m, false)] else []
    case GetMachineNames => [MachineNames(s.registered)]
    case WakeupEvent(info) => [WakeupInd(info)]
    case Resubscribe => [SubsystemReady(Tcu), SubsystemReady(WakeupRelay)]
    case _ => []
  }

  /** Events that neither ask for a state nor answer a round. */
  predicate Bystander(e: Event) { !e.SetState? && !e.SlaveAck? && !e.AckTimeout? }

  function Step(s: Power, e: Event): Power
    requires Inv(s)
  {
    match e
    case SetState(req) => Submit(s, req)
    case SlaveAck(m, ack) => Acknowledge(s, m, ack)
    case AckTimeout => if s.round.None? then s else Finish(s, s.round.value, TIMEOUT)
    case FTimeout => Publish(s.(ftimeout := false), Indications(s, e))
    case AddMachine(m) =>
      if m in s.registered then s
      else Publish(s.(registered := s.registered + {m},
                      machines := if m in s.machines then s.machines else s.machines[m := RESUME]), Indications(s, e))
    case RemoveMachine(m) =>
      if m !in s.registered then s else Publish(s.(registered := s.registered - {m}), Indications(s, e))
    case GetMachineNames => Publish(s, Indications(s, e))
    case WakeupEvent(_) => Publish(s, Indications(s, e))
    case Resubscribe => Publish(s, Indications(s, e))
  }

  // ---------------------------------------------------------------------------------------------
  // The invariant of every reachable state
  // ---------------------------------------------------------------------------------------------

  /** A round in flight always has someone left to wait for and has seen no NACK. */
  ghost predicate RoundOpen(s: Power) {
    && s.round.Some?
    && s.queue != []
    && s.queue[0].state != RESUME
    && s.round.value.acked < s.round.value.expected
    && s.round.value.nacked == {}
  }

  ghost predicate Inv(s: Power) {
    && s.registered <= s.machines.Keys
    && (s.queue != [] <==> s.round.Some?)
    && (s.round.Some? ==> RoundOpen(s))
  }

  lemma {:induction false} AdvanceInv(s: Power)
    requires s.round.None? && s.registered <= s.machines.Keys
    ensures Inv(Advance(s))
    ensures Advance(s).registered == s.registered && Advance(s).local == s.local
    decreases |s.queue|
  {
    if s.queue != [] {
      var req := s.queue[0];
      if req.state == RESUME || Changed(s, req) == {} {
        AdvanceInv(Close(Announced(s), Round({}, {}, {}), COMPLETE));
      }
    }
  }

  /** Every event keeps the invariant; in particular the finish/start-next cascade settles. */
  lemma StepInv(s: Power, e: Event)
    requires Inv(s)
    ensures Inv(Step(s, e))
  {
    match e
    case SetState(req) =>
      if s.queue == [] && Accepts(s, req) { AdvanceInv(s.(queue := [req])); }
    case SlaveAck(m, ack) =>
      if s.round.Some? && m in s.round.value.expected {
        var r := s.round.value;
        AdvanceInv(Close(s, r.(nacked := r.nacked + {m}), COMPLETE));
        AdvanceInv(Close(s, r.(acked := r.acked + {m}), COMPLETE));
      }
    case AckTimeout =>
      if s.round.Some? { AdvanceInv(Close(s, s.round.value, TIMEOUT)); }
    case _ =>
  }

  ghost function Run(s: Power, es: seq<Event>): (r: Power)
    requires Inv(s)
    ensures Inv(r)
    decreases |es|
  {
    if es == [] then s
    else
      StepInv(s, es[0]);
      Run(Step(s, es[0]), es[1..])
  }

  lemma InitialInv(local: Name)
    ensures Inv(Initial(local))
  {}

  // ---------------------------------------------------------------------------------------------
  // The reverse scan predicts the drained queue
  // ---------------------------------------------------------------------------------------------

  /** What the state map becomes once every queued request has been recorded, oldest first. */
  function Settled(local: Name, machines: map<Name, Activity>, queue: seq<Request>): (r: map<Name, Activity>)
    ensures machines.Keys <= r.Keys
    decreases |queue|
  {
    if queue == [] then machines
    else Settled(local, Write(local, machines, queue[0]), queue[1..])
  }

  lemma {:induction false} SettledLast(local: Name, machines: map<Name, Activity>, queue: seq<Request>, req: Request)
    ensures Settled(local, machines, queue + [req]) == Write(local, Settled(local, machines, queue), req)
    decreases |queue|
  {
    if queue == [] {
      assert (queue + [req])[1..] == [];
    } else {
      assert (queue + [req])[1..] == queue[1..] + [req];
      SettledLast(local, Write(local, machines, queue[0]), queue[1..], req);
    }
  }

  /** The request names `t` itself, directly or as the local machine. */
  predicate Names(local: Name, machine: Name, t: Name) {
    machine != ALL_MACHINES && t == if machine == LOCAL_MACHINE then local else machine
  }

  /** The state of the newest request naming `t` itself, else its recorded state. */
  function NamedState(local: Name, machines: map<Name, Activity>, queue: seq<Request>, t: Name): Activity {
    if queue == [] then Lookup(machines, t)
    else
      var last := queue[|queue| - 1];
      if Names(local, last.machine, t) then last.state
      else NamedState(local, machines, queue[..|queue| - 1], t)
  }

  /** `t` has a recorded state once `queue` has been recorded. */
  ghost predicate Recorded(local: Name, machines: map<Name, Activity>, queue: seq<Request>, t: Name) {
    t in machines || exists j :: 0 <= j < |queue| && Names(local, queue[j].machine, t)
  }

  /** Request `i` is the newest to touch `t`, and does so as an ALL_MACHINES one. */
  ghost predicate SweptLast(local: Name, queue: seq<Request>, t: Name, i: nat) {
    && i < |queue| && queue[i].machine == ALL_MACHINES
    && forall j :: i < j < |queue| ==> queue[j].machine != ALL_MACHINES && !Names(local, queue[j].machine, t)
  }

  /**
    The scan is blind for a target exactly when the target is unregistered, the newest request touching
    it is an ALL_MACHINES one, it has a recorded state by then, and that request asks for another state
    than the newest earlier request naming the target (its recorded state if there is none): the scan
    skips the ALL_MACHINES request and the drain does not.
   */
  ghost predicate ScanBlind(local: Name, registered: set<Name>, machines: map<Name, Activity>,
                            queue: seq<Request>, t: Name)
  {
    && t !in registered
    && exists i: nat ::
         && SweptLast(local, queue, t, i)
         && Recorded(local, machines, queue[..i], t)
         && queue[i].state != NamedState(local, machines, queue[..i], t)
  }

  /** Registered machines: the scan sees every request that the drain records. */
  lemma {:induction false} RegisteredExact(local: Name, registered: set<Name>, machines: map<Name, Activity>,
                                           queue: seq<Request>, t: Name)
    requires registered <= machines.Keys && t in registered
    ensures LastQueued(local, registered, machines, queue, t) == Lookup(Settled(local, machines, queue), t)
    decreases |queue|
  {
    if queue != [] {
      var front, last := queue[..|queue| - 1], queue[|queue| - 1];
      assert queue == front + [last];
      SettledLast(local, machines, front, last);
      RegisteredExact(local, registered, machines, front, t);
    }
  }

  /** Unregistered machines: the scan sees only the requests naming them. */
  lemma {:induction false} UnregisteredScan(local: Name, registered: set<Name>, machines: map<Name, Activity>,
                                            queue: seq<Request>, t: Name)
    requires t !in registered
    ensures LastQueued(local, registered, machines, queue, t) == NamedState(local, machines, queue, t)
    decreases |queue|
  {
    if queue != [] { UnregisteredScan(local, registered, machines, queue[..|queue| - 1], t); }
  }

  lemma RecordedLast(local: Name, machines: map<Name, Activity>, front: seq<Request>, last: Request, t: Name)
    ensures Recorded(local, machines, front + [last], t)
            <==> Recorded(local, machines, front, t) || Names(local, last.machine, t)
  {
    var queue := front + [last];
    if t in machines {
    } else if Recorded(local, machines, front, t) {
      var j :| 0 <= j < |front| && Names(local, front[j].machine, t);
      assert Names(local, queue[j].machine, t);
    } else if Names(local, last.machine, t) {
      assert Names(local, queue[|front|].machine, t);
    }
  }

  /** Who has a recorded state after the drain, and UNKNOWN as the scan's answer for the others. */
  lemma {:induction false} RecordedSettled(local: Name, machines: map<Name, Activity>, queue: seq<Request>, t: Name)
    ensures t in Settled(local, machines, queue) <==> Recorded(local, machines, queue, t)
    ensures !Recorded(local, machines, queue, t) ==> NamedState(local, machines, queue, t) == UNKNOWN
    decreases |queue|
  {
    if queue != [] {
      var front, last := queue[..|queue| - 1], queue[|queue| - 1];
      assert queue == front + [last];
      SettledLast(local, machines, front, last);
      RecordedLast(local, machines, front, last, t);
      RecordedSettled(local, machines, front, t);
    }
  }

  /** How one more request changes whether the scan is blind. */
  lemma BlindLast(local: Name, registered: set<Name>, machines: map<Name, Activity>,
                  front: seq<Request>, last: Request, t: Name)
    requires t !in registered
    ensures ScanBlind(local, registered, machines, front + [last], t)
            <==> if last.machine == ALL_MACHINES then
                   Recorded(local, machines, front, t) && last.state != NamedState(local, machines, front, t)
                 else !Names(local, last.machine, t) && ScanBlind(local, registered, machines, front, t)
  {
    var queue, n := front + [last], |front|;
    assert queue[..n] == front && queue[n] == last;
    if last.machine == ALL_MACHINES {
      assert SweptLast(local, queue, t, n);
      assert forall i: nat :: SweptLast(local, queue, t, i) ==> i == n;
    } else {
      forall i: nat ensures SweptLast(local, queue, t, i)
                            <==> SweptLast(local, front, t, i) && !Names(local, last.machine, t)
      {
        SweptLonger(local, front, last, t, i);
      }
      assert forall i: nat :: i < n ==> queue[..i] == front[..i] && queue[i] == front[i];
    }
  }

  lemma SweptLonger(local: Name, front: seq<Request>, last: Request, t: Name, i: nat)
    requires last.machine != ALL_MACHINES
    ensures SweptLast(local, front + [last], t, i) <==> SweptLast(local, front, t, i) && !Names(local, last.machine, t)
  {
    var queue := front + [last];
    if i < |front| {
      assert queue[i] == front[i];
      if SweptLast(local, queue, t, i) {
        assert queue[|front|] == last;
        forall j | i < j < |front| ensures front[j].machine != ALL_MACHINES && !Names(local, front[j].machine, t) {
          assert queue[j] == front[j];
        }
      }
    }
  }

  /** For an unregistered target, what the drain leaves is what was last asked of it, unless the scan is blind. */
  lemma {:induction false} UnregisteredExact(local: Name, registered: set<Name>, machines: map<Name, Activity>,
                                             queue: seq<Request>, t: Name)
    requires t !in registered
    ensures NamedState(local, machines, queue, t) == Lookup(Settled(local, machines, queue), t)
            <==> !ScanBlind(local, registered, machines, queue, t)
    decreases |queue|
  {
    if queue != [] {
      var front, last := queue[..|queue| - 1], queue[|queue| - 1];
      assert queue == front + [last];
      SettledLast(local, machines, front, last);
      RecordedSettled(local, machines, front, t);
      BlindLast(local, registered, machines, front, last, t);
      UnregisteredExact(local, registered, machines, front, t);
    }
  }

  /** The scan predicts the drained state of a target if and only if it is not blind for it. */
  lemma ScanExact(local: Name, registered: set<Name>, machines: map<Name, Activity>,
                  queue: seq<Request>, t: Name)
    requires registered <= machines.Keys
    ensures LastQueued(local, registered, machines, queue, t)
            == Lookup(Settled(local, machines, queue), t)
            <==> !ScanBlind(local, registered, machines, queue, t)
  {
    if t in registered {
      RegisteredExact(local, registered, machines, queue, t);
    } else {
      UnregisteredScan(local, registered, machines, queue, t);
      UnregisteredExact(local, registered, machines, queue, t);
    }
  }

  /** For a registered machine the reverse scan equals its state after the whole queue drains. */
  lemma ScanPredictsDrain(s: Power, t: Name)
    requires Inv(s) && t in s.registered
    ensures LastQueued(s.local, s.registered, s.machines, s.queue, t)
            == Lookup(Settled(s.local, s.machines, s.queue), t)
  {
    RegisteredExact(s.local, s.registered, s.machines, s.queue, t);
  }

  /** What the scan says of a target, and what it will be once the queue has drained. */
  function Scanned(s: Power, t: Name): Activity { LastQueued(s.local, s.registered, s.machines, s.queue, t) }

  function Drained(s: Power, t: Name): Activity { Lookup(Settled(s.local, s.machines, s.queue), t) }

  ghost predicate Blind(s: Power, t: Name) { ScanBlind(s.local, s.registered, s.machines, s.queue, t) }

  /** Add a machine, remove it, suspend ALL_MACHINES: a run to a state whose scan is blind. */
  function BlindingRun(m: Name): seq<Event> {
    [AddMachine(m), RemoveMachine(m), SetState(Request(ALL_MACHINES, SUSPEND, "1", "x"))]
  }

  /** The state that run reaches: the local machine is awaited, `m` is not, and both will be recorded. */
  lemma BlindingRunReaches(local: Name, m: Name)
    requires m != local && m != ALL_MACHINES && local != ALL_MACHINES
    ensures Inv(Initial(local))
    ensures var s := Run(Initial(local), BlindingRun(m));
            && s.local == local && s.registered == {local} && s.queue == [Request(ALL_MACHINES, SUSPEND, "1", "x")]
            && s.machines == map[local := RESUME, ALL_MACHINES := RESUME, m := RESUME]
  {
    var s0, es := Initial(local), BlindingRun(m);
    var s1 := Step(s0, es[0]);
    StepInv(s0, es[0]);
    var s2 := Step(s1, es[1]);
    StepInv(s1, es[1]);
    assert s2.registered == {local};
    var req := es[2].req;
    var s3 := Step(s2, es[2]);
    StepInv(s2, es[2]);
    assert local in Targets(local, s2.registered, ALL_MACHINES) && LastQueued(local, {local}, s2.machines, [], local) == RESUME;
    assert Accepts(s2, req);
    assert local in Changed(s2.(queue := [req]), req);
    assert s3 == Advance(s2.(queue := [req]));
    assert es[1..][1..][1..] == [] && es[1..] == [es[1], es[2]] && es[1..][1..] == [es[2]];
    assert Run(s2, [es[2]]) == Run(s3, []) == s3;
    assert Run(s1, es[1..]) == Run(s2, es[1..][1..]);
  }

  /** After that run the scan says RESUME of the removed machine and the drain will leave SUSPEND. */
  lemma RemovedMachineMispredicted(local: Name, m: Name)
    requires m != local && m != ALL_MACHINES && local != ALL_MACHINES
    ensures Inv(Initial(local))
    ensures var s := Run(Initial(local), BlindingRun(m)); Blind(s, m) && Scanned(s, m) == RESUME && Drained(s, m) == SUSPEND
  {
    BlindingRunReaches(local, m);
    var s := Run(Initial(local), BlindingRun(m));
    var q := s.queue;
    assert q[..0] == [] && q[1..] == [];
    assert NamedState(local, s.machines, q[..0], m) == RESUME;
    assert SweptLast(local, q, m, 0) && Recorded(local, s.machines, q[..0], m);
    assert Scanned(s, m) == LastQueued(local, s.registered, s.machines, q[..0], m);
    assert Settled(local, s.machines, q) == Write(local, s.machines, q[0]);
  }

  /**
    For a request with a single target, outside a shutdown: "accepted" and "changes the drained state"
    disagree exactly when the scan is blind for the target and the request asks for the state the scan
    sees (a needed request is refused) or for the one the drain will leave (a needless one is accepted).
   */
  lemma AcceptanceWrongIffBlind(s: Power, req: Request, t: Name)
    requires Inv(s) && !ShuttingDown(s) && Targets(s.local, s.registered, req.machine) == {t}
    ensures Lookup(Settled(s.local, s.machines, s.queue + [req]), t) == req.state
    ensures (Accepts(s, req) <==> req.state != Drained(s, t))
            <==> !(Blind(s, t) && (req.state == Scanned(s, t) || req.state == Drained(s, t)))
  {
    SettledLast(s.local, s.machines, s.queue, req);
    assert t in Targets(s.local, s.registered, req.machine);
    assert Accepts(s, req) <==> Scanned(s, t) != req.state;
    ScanExact(s.local, s.registered, s.machines, s.queue, t);
  }

  /**
    A request to registered machines, outside a shutdown, is accepted exactly when it would change
    the drained state of one of its targets.
   */
  lemma AcceptedIffChangesDrain(s: Power, req: Request)
    requires Inv(s) && !ShuttingDown(s)
    requires Targets(s.local, s.registered, req.machine) <= s.registered
    ensures Accepts(s, req) <==>
            exists t :: t in Targets(s.local, s.registered, req.machine)
                        && Lookup(Settled(s.local, s.machines, s.queue + [req]), t)
                           != Lookup(Settled(s.local, s.machines, s.queue), t)
  {
    SettledLast(s.local, s.machines, s.queue, req);
    forall t | t in Targets(s.local, s.registered, req.machine)
      ensures Lookup(Settled(s.local, s.machines, s.queue + [req]), t) == req.state
      ensures LastQueued(s.local, s.registered, s.machines, s.queue, t)
              == Lookup(Settled(s.local, s.machines, s.queue), t)
    {
      ScanPredictsDrain(s, t);
    }
  }

  // ---------------------------------------------------------------------------------------------
  // Draining: acknowledgements and timeouts never change where the queue leads
  // ---------------------------------------------------------------------------------------------

  lemma {:induction false} AdvanceSettles(s: Power)
    requires s.round.None?
    ensures var r := Advance(s);
            && Settled(r.local, r.machines, r.queue) == Settled(s.local, s.machines, s.queue)
            && |r.queue| <= |s.queue|
    decreases |s.queue|
  {
    if s.queue != [] {
      var req := s.queue[0];
      if req.state == RESUME || Changed(s, req) == {} {
        AdvanceSettles(Close(Announced(s), Round({}, {}, {}), COMPLETE));
      }
    }
  }

  /** Neither a new request nor a registry change: the events that answer or end rounds. */
  predicate Draining(e: Event) {
    !e.SetState? && !e.AddMachine? && !e.RemoveMachine?
  }

  lemma StepSettles(s: Power, e: Event)
    requires Inv(s) && Draining(e)
    ensures var r := Step(s, e);
            && Settled(r.local, r.machines, r.queue) == Settled(s.local, s.machines, s.queue)
            && r.registered == s.registered && r.local == s.local
            && |r.queue| <= |s.queue|
            && (e.AckTimeout? && s.queue != [] ==> |r.queue| < |s.queue|)
  {
    if s.round.Some? {
      var r := s.round.value;
      match e
      case SlaveAck(m, ack) =>
        AdvanceSettles(Close(s, r.(nacked := r.nacked + {m}), COMPLETE));
        AdvanceSettles(Close(s, r.(acked := r.acked + {m}), COMPLETE));
        AdvanceInv(Close(s, r.(nacked := r.nacked + {m}), COMPLETE));
        AdvanceInv(Close(s, r.(acked := r.acked + {m}), COMPLETE));
      case AckTimeout =>
        AdvanceSettles(Close(s, r, TIMEOUT));
        AdvanceInv(Close(s, r, TIMEOUT));
      case _ =>
    }
  }

  lemma {:induction false} RunSettles(s: Power, es: seq<Event>)
    requires Inv(s) && forall e :: e in es ==> Draining(e)
    ensures var r := Run(s, es);
            && Settled(r.local, r.machines, r.queue) == Settled(s.local, s.machines, s.queue)
            && r.registered == s.registered && r.local == s.local
    decreases |es|
  {
    if es != [] {
      StepInv(s, es[0]);
      StepSettles(s, es[0]);
      RunSettles(Step(s, es[0]), es[1..]);
    }
  }

  /**
    Whatever mix of ACKs, NACKs, timeouts and stray answers ends the rounds, once the queue is empty
    every registered machine is in the state the scan predicted before the first of them.
   */
  lemma DrainedStateIsPredicted(s: Power, es: seq<Event>, t: Name)
    requires Inv(s) && t in s.registered
    requires forall e :: e in es ==> Draining(e)
    requires Run(s, es).queue == []
    ensures Lookup(Run(s, es).machines, t)
            == LastQueued(s.local, s.registered, s.machines, s.queue, t)
  {
    RunSettles(s, es);
    ScanPredictsDrain(s, t);
  }

  /** The queue always can be drained: as many timeouts as it holds requests are enough. */
  lemma {:induction false} TimeoutsDrain(s: Power, n: nat)
    requires Inv(s) && |s.queue| <= n
    ensures Run(s, seq(n, i => AckTimeout)).queue == []
    decreases n
  {
    var es := seq(n, i => AckTimeout);
    if n > 0 {
      assert es[1..] == seq(n - 1, i => AckTimeout);
      StepInv(s, AckTimeout);
      StepSettles(s, AckTimeout);
      TimeoutsDrain(Step(s, AckTimeout), n - 1);
    }
  }

  // ---------------------------------------------------------------------------------------------
  // One reply per request, in FIFO order
  // ---------------------------------------------------------------------------------------------

  type Tag = (string, string)

  function TagOf(req: Request): Tag { (req.corrId, req.src) }

  function Tags(queue: seq<Request>): seq<Tag> {
    seq(|queue|, i requires 0 <= i < |queue| => TagOf(queue[i]))
  }

  /** How many replies, of any outcome, a log holds. */
  function Replies(log: seq<Message>): nat {
    if log == [] then 0
    else Replies(log[..|log| - 1]) + (if log[|log| - 1].Reply? then 1 else 0)
  }

  /** An answer is a reply to an accepted request; a refusal is not one. */
  predicate IsAnswer(m: Message) { m.Reply? && (m.outcome == Ok || m.outcome == NackedOrSilent) }

  /** Correlation of the answered requests, oldest answer first. */
  function Answered(log: seq<Message>): seq<Tag> {
    if log == [] then []
    else
      var last := log[|log| - 1];
      Answered(log[..|log| - 1]) + (if IsAnswer(last) then [(last.corrId, last.src)] else [])
  }

  lemma LogOne(log: seq<Message>, m: Message)
    ensures Answered(log + [m]) == Answered(log) + (if IsAnswer(m) then [(m.corrId, m.src)] else [])
    ensures Replies(log + [m]) == Replies(log) + (if m.Reply? then 1 else 0)
  {
    assert (log + [m])[..|log + [m]| - 1] == log;
  }

  /** Messages that are no replies answer nobody. */
  lemma {:induction false} LogQuiet(log: seq<Message>, msgs: seq<Message>)
    requires forall m :: m in msgs ==> !m.Reply?
    ensures Answered(log + msgs) == Answered(log) && Replies(log + msgs) == Replies(log)
    decreases |msgs|
  {
    if msgs == [] {
      assert log + msgs == log;
    } else {
      var front, last := msgs[..|msgs| - 1], msgs[|msgs| - 1];
      assert log + msgs == log + front + [last];
      LogQuiet(log, front);
      LogOne(log + front, last);
    }
  }

  /** The answers given and still owed, in order, and the replies given or owed. */
  ghost predicate Owes(log: seq<Message>, queue: seq<Request>, ledger: seq<Tag>, replies: nat) {
    Answered(log) + Tags(queue) == ledger && Replies(log) + |queue| == replies
  }

  lemma TagsFirst(queue: seq<Request>)
    requires queue != []
    ensures Tags(queue) == [TagOf(queue[0])] + Tags(queue[1..])
  {}

  lemma Regroup<T>(a: seq<T>, b: seq<T>, c: seq<T>)
    ensures (a + b) + c == a + (b + c)
  {}

  lemma AnswerHead(log: seq<Message>, queue: seq<Request>, m: Message, ledger: seq<Tag>, replies: nat)
    requires Owes(log, queue, ledger, replies) && queue != []
    requires IsAnswer(m) && (m.corrId, m.src) == TagOf(queue[0])
    ensures Owes(log + [m], queue[1..], ledger, replies)
  {
    LogOne(log, m);
    TagsFirst(queue);
    Regroup(Answered(log), [TagOf(queue[0])], Tags(queue[1..]));
  }

  lemma CloseConserves(s: Power, r: Round, status: Status, ledger: seq<Tag>, replies: nat)
    requires Owes(s.log, s.queue, ledger, replies) && s.queue != []
    ensures var s' := Close(s, r, status); Owes(s'.log, s'.queue, ledger, replies)
  {
    var req := s.queue[0];
    var closing := Closing(req, r, status);
    var notice, reply := closing[..|closing| - 1], closing[|closing| - 1];
    assert s.log + closing == s.log + notice + [reply];
    LogQuiet(s.log, notice);
    AnswerHead(s.log + notice, s.queue, reply, ledger, replies);
  }

  lemma {:induction false} AdvanceConserves(s: Power, ledger: seq<Tag>, replies: nat)
    requires s.round.None? && Owes(s.log, s.queue, ledger, replies)
    ensures var s' := Advance(s); Owes(s'.log, s'.queue, ledger, replies)
    decreases |s.queue|
  {
    if s.queue != [] {
      var req := s.queue[0];
      LogQuiet(s.log, Announcement(Changed(s, req), req.state));
      if req.state == RESUME || Changed(s, req) == {} {
        CloseConserves(Announced(s), Round({}, {}, {}), COMPLETE, ledger, replies);
        AdvanceConserves(Close(Announced(s), Round({}, {}, {}), COMPLETE), ledger, replies);
      }
    }
  }

  lemma FinishConserves(s: Power, r: Round, status: Status, ledger: seq<Tag>, replies: nat)
    requires s.queue != [] && Owes(s.log, s.queue, ledger, replies)
    ensures var s' := Finish(s, r, status); Owes(s'.log, s'.queue, ledger, replies)
  {
    CloseConserves(s, r, status, ledger, replies);
    AdvanceConserves(Close(s, r, status), ledger, replies);
  }

  lemma AcknowledgeConserves(s: Power, m: Name, ack: bool, ledger: seq<Tag>, replies: nat)
    requires s.round.Some? ==> s.queue != []
    requires Owes(s.log, s.queue, ledger, replies)
    ensures var s' := Acknowledge(s, m, ack); Owes(s'.log, s'.queue, ledger, replies)
  {
    if s.round.Some? && m in s.round.value.expected {
      var r := s.round.value;
      if ack {
        FinishConserves(s, r.(acked := r.acked + {m}), COMPLETE, ledger, replies);
      } else {
        FinishConserves(s, r.(nacked := r.nacked + {m}), COMPLETE, ledger, replies);
      }
    }
  }

  lemma QueueConserves(log: seq<Message>, queue: seq<Request>, req: Request, ledger: seq<Tag>, replies: nat)
    requires Owes(log, queue, ledger, replies)
    ensures Owes(log, queue + [req], ledger + [TagOf(req)], replies + 1)
  {
    assert Tags(queue + [req]) == Tags(queue) + [TagOf(req)];
    Regroup(Answered(log), Tags(queue), [TagOf(req)]);
  }

  lemma RefusalConserves(log: seq<Message>, queue: seq<Request>, m: Message, ledger: seq<Tag>, replies: nat)
    requires Owes(log, queue, ledger, replies) && m.Reply? && !IsAnswer(m)
    ensures Owes(log + [m], queue, ledger, replies + 1)
  {
    LogOne(log, m);
  }

  /** What a request adds to the ledger of answers given and owed. */
  function Entry(s: Power, e: Event): seq<Tag> {
    if e.SetState? && Accepts(s, e.req) then [TagOf(e.req)] else []
  }

  lemma SubmitConserves(s: Power, req: Request, ledger: seq<Tag>, replies: nat)
    requires s.queue == [] ==> s.round.None?
    requires Owes(s.log, s.queue, ledger, replies)
    ensures var s' := Submit(s, req); Owes(s'.log, s'.queue, ledger + Entry(s, SetState(req)), replies + 1)
  {
    if !Accepts(s, req) {
      var why := if ShuttingDown(s) then ShutdownInProgress else Duplicate;
      RefusalConserves(s.log, s.queue, Reply(req.corrId, req.src, why), ledger, replies);
    } else {
      QueueConserves(s.log, s.queue, req, ledger, replies);
      if s.queue == [] {
        assert s.queue + [req] == [req];
        AdvanceConserves(s.(queue := [req]), ledger + [TagOf(req)], replies + 1);
      }
    }
  }

  /** An event that concerns no round leaves queue and round alone and publishes its indications. */
  lemma BystanderStep(s: Power, e: Event)
    requires Inv(s) && Bystander(e)
    ensures var s' := Step(s, e);
            s'.log == s.log + Indications(s, e) && s'.queue == s.queue && s'.round == s.round
  {}

  lemma BystanderConserves(s: Power, e: Event, ledger: seq<Tag>, replies: nat)
    requires Inv(s) && Bystander(e) && Owes(s.log, s.queue, ledger, replies)
    ensures var s' := Step(s, e); Owes(s'.log, s'.queue, ledger, replies)
  {
    BystanderStep(s, e);
    LogQuiet(s.log, Indications(s, e));
  }

  /** One event owes one more reply exactly when it is a request, and extends the ledger when accepted. */
  lemma StepConserves(s: Power, e: Event, ledger: seq<Tag>, replies: nat)
    requires Inv(s) && Owes(s.log, s.queue, ledger, replies)
    ensures var s' := Step(s, e);
            Owes(s'.log, s'.queue, ledger + Entry(s, e), replies + (if e.SetState? then 1 else 0))
  {
    match e
    case SetState(req) => SubmitConserves(s, req, ledger, replies);
    case SlaveAck(m, ack) => AcknowledgeConserves(s, m, ack, ledger, replies);
    case AckTimeout => if s.round.Some? { FinishConserves(s, s.round.value, TIMEOUT, ledger, replies); }
    case _ => BystanderConserves(s, e, ledger, replies);
    assert !e.SetState? ==> ledger + Entry(s, e) == ledger;
  }

  predicate IsSetState(e: Event) { e.SetState? }

  /** The requests a run accepts, in arrival order. */
  ghost function AcceptedIn(s: Power, es: seq<Event>): seq<Request>
    requires Inv(s)
    decreases |es|
  {
    if es == [] then []
    else
      StepInv(s, es[0]);
      (if es[0].SetState? && Accepts(s, es[0].req) then [es[0].req] else [])
      + AcceptedIn(Step(s, es[0]), es[1..])
  }

  /** Whatever was owed before a run, the run owes that plus its own requests. */
  lemma {:induction false} RunConserves(s: Power, es: seq<Event>, ledger: seq<Tag>, replies: nat)
    requires Inv(s) && Owes(s.log, s.queue, ledger, replies)
    ensures var s' := Run(s, es); Owes(s'.log, s'.queue, ledger + Tags(AcceptedIn(s, es)), replies + |Filter(IsSetState, es)|)
    decreases |es|
  {
    if es == [] {
      assert ledger + Tags([]) == ledger;
    } else {
      StepInv(s, es[0]);
      StepConserves(s, es[0], ledger, replies);
      var first := if es[0].SetState? && Accepts(s, es[0].req) then [es[0].req] else [];
      assert Tags(first) == Entry(s, es[0]);
      RunConserves(Step(s, es[0]), es[1..], ledger + Tags(first), replies + (if es[0].SetState? then 1 else 0));
      TagsConcat(ledger, first, AcceptedIn(Step(s, es[0]), es[1..]));
    }
  }

  lemma TagsConcat(ledger: seq<Tag>, a: seq<Request>, b: seq<Request>)
    ensures ledger + Tags(a) + Tags(b) == ledger + Tags(a + b)
  {
    assert Tags(a + b) == Tags(a) + Tags(b);
  }

  /**
    Over any run from start-up: requests received equal replies sent plus requests still queued, and
    the accepted requests are answered in arrival order, the unanswered ones being exactly the queue.
   */
  lemma OneReplyEachInOrder(local: Name, es: seq<Event>)
    ensures Inv(Initial(local))
    ensures var r := Run(Initial(local), es);
            && |Filter(IsSetState, es)| == Replies(r.log) + |r.queue|
            && Tags(AcceptedIn(Initial(local), es)) == Answered(r.log) + Tags(r.queue)
  {
    InitialInv(local);
    RunConserves(Initial(local), es, [], 0);
  }

  // ---------------------------------------------------------------------------------------------
  // When the answer is ok:true
  // ---------------------------------------------------------------------------------------------

  /** Machines that acknowledged somewhere in `es`. */
  function AckedBy(es: seq<Event>): set<Name> {
    set e | e in es && e.SlaveAck? && e.ack :: e.machine
  }

  /** The answers of one round: no request outcome, NACK or timeout has ended it yet. */
  ghost predicate StillWaiting(expected: set<Name>, es: seq<Event>) {
    && !(expected <= AckedBy(es))
    && forall e :: e in es ==> !e.AckTimeout? && !(e.SlaveAck? && !e.ack && e.machine in expected)
  }

  /** While a round is open a request is refused or queued behind it. */
  lemma QuietSubmit(s: Power, req: Request)
    requires s.queue != []
    ensures var r := Submit(s, req);
            && Answered(r.log) == Answered(s.log) && r.round == s.round
            && r.queue != [] && r.queue[0] == s.queue[0]
  {
    LogOne(s.log, Reply(req.corrId, req.src, if ShuttingDown(s) then ShutdownInProgress else Duplicate));
  }

  /** An event that does not end the open round leaves its request at the head and answers nobody. */
  lemma QuietStep(s: Power, e: Event)
    requires Inv(s) && s.round.Some?
    requires !e.AckTimeout?
    requires e.SlaveAck? && e.machine in s.round.value.expected ==>
               e.ack && !(s.round.value.expected <= s.round.value.acked + {e.machine})
    ensures var r := Step(s, e);
            && Answered(r.log) == Answered(s.log)
            && r.queue != [] && r.queue[0] == s.queue[0]
            && r.round == if e.SlaveAck? && e.machine in s.round.value.expected
                          then Some(s.round.value.(acked := s.round.value.acked + {e.machine}))
                          else s.round
  {
    match e
    case SetState(req) => QuietSubmit(s, req);
    case SlaveAck(m, ack) => assert Step(s, e) == Acknowledge(s, m, ack);
    case _ =>
      BystanderStep(s, e);
      LogQuiet(s.log, Indications(s, e));
  }

  lemma AckedByLast(es: seq<Event>, e: Event)
    ensures AckedBy(es + [e]) == AckedBy(es) + (if e.SlaveAck? && e.ack then {e.machine} else {})
  {
    forall x | x in AckedBy(es) + (if e.SlaveAck? && e.ack then {e.machine} else {})
      ensures x in AckedBy(es + [e])
    {
      if x in AckedBy(es) {
        var e' :| e' in es && e'.SlaveAck? && e'.ack && e'.machine == x;
        assert e' in es + [e];
      } else {
        assert e in es + [e];
      }
    }
  }

  /** A round stays open, and records exactly who acknowledged, while nothing has ended it. */
  lemma {:induction false} RoundTracksAcks(s: Power, es: seq<Event>)
    requires Inv(s) && s.round.Some?
    requires s.round.value.acked == {}
    requires StillWaiting(s.round.value.expected, es)
    ensures var r, x := Run(s, es), s.round.value.expected;
            && r.round == Some(Round(x, x * AckedBy(es), {}))
            && r.queue != [] && r.queue[0] == s.queue[0] && Answered(r.log) == Answered(s.log)
    decreases |es|
  {
    var x := s.round.value.expected;
    if es == [] {
      assert x * AckedBy(es) == {};
    } else {
      var front, e := es[..|es| - 1], es[|es| - 1];
      assert es == front + [e] && e in es;
      AckedByLast(front, e);
      RoundTracksAcks(s, front);
      RunLast(s, front, e);
      if e.SlaveAck? && e.machine in x {
        assert x * AckedBy(front) + {e.machine} == x * AckedBy(es);
      } else {
        assert x * AckedBy(front) == x * AckedBy(es);
      }
      QuietStep(Run(s, front), e);
    }
  }

  lemma {:induction false} RunLast(s: Power, es: seq<Event>, e: Event)
    requires Inv(s)
    ensures Run(s, es + [e]) == Step(Run(s, es), e)
    decreases |es|
  {
    if es == [] {
      assert es + [e] == [e];
      StepInv(s, e);
      assert Run(Step(s, e), [e][1..]) == Step(s, e);
    } else {
      assert (es + [e])[1..] == es[1..] + [e];
      StepInv(s, es[0]);
      RunLast(Step(s, es[0]), es[1..], e);
    }
  }

  /** Advancing only appends to the log. */
  lemma {:induction false} AdvanceAppends(s: Power)
    requires s.round.None?
    ensures s.log <= Advance(s).log
    decreases |s.queue|
  {
    if s.queue != [] {
      var req := s.queue[0];
      if req.state == RESUME || Changed(s, req) == {} {
        AdvanceAppends(Close(Announced(s), Round({}, {}, {}), COMPLETE));
      }
    }
  }

  /** Closing an open round and starting the next ones publishes the round's own closing messages first. */
  lemma FinishAppends(s: Power, r: Round, status: Status, unresponsive: set<Name>)
    requires s.queue != [] && r.expected != {} && unresponsive == r.expected - r.acked - r.nacked
    ensures var head := s.queue[0];
            s.log + [AckStatus(status, head.machine, unresponsive, r.nacked), Reply(head.corrId, head.src, Verdict(r))]
            <= Finish(s, r, status).log
  {
    AdvanceAppends(Close(s, r, status));
    var head := s.queue[0];
    assert Closing(head, r, status)
        == [AckStatus(status, head.machine, unresponsive, r.nacked), Reply(head.corrId, head.src, Verdict(r))];
  }

  /** A TIMEOUT indication always names at least one unresponsive machine, and the request is refused. */
  lemma TimeoutNamesSomeone(s: Power)
    requires Inv(s) && s.round.Some?
    ensures var head, silent := s.queue[0], s.round.value.expected - s.round.value.acked;
            && silent != {}
            && s.log + [AckStatus(TIMEOUT, head.machine, silent, {}), Reply(head.corrId, head.src, NackedOrSilent)]
               <= Step(s, AckTimeout).log
  {
    var r := s.round.value;
    var m :| m in r.expected && m !in r.acked;
    assert m in r.expected - r.acked;
    FinishAppends(s, r, TIMEOUT, r.expected - r.acked);
  }

  /** What the event `e` that ends a round publishes first: who stayed silent, who refused, the answer. */
  function Ending(head: Request, expected: set<Name>, es: seq<Event>, e: Event): seq<Message> {
    var nacked := if e.SlaveAck? && !e.ack then {e.machine} else {};
    var ok := e.SlaveAck? && e.ack && expected <= AckedBy(es + [e]);
    [AckStatus(if e.AckTimeout? then TIMEOUT else COMPLETE, head.machine, expected - AckedBy(es) - AckedBy([e]) - nacked, nacked),
     Reply(head.corrId, head.src, if ok then Ok else NackedOrSilent)]
  }

  /**
    The event that ends a round reports it and answers its request first: with ok:true exactly when it
    is an acknowledgement that completes the set, so that every awaited machine acknowledged since the
    round began and none sent a NACK. The report names exactly the silent machines and the refusing one.
   */
  lemma AnswerOkIffAllAcked(s: Power, es: seq<Event>, e: Event)
    requires Inv(s) && s.round.Some? && s.round.value.acked == {}
    requires StillWaiting(s.round.value.expected, es)
    requires !StillWaiting(s.round.value.expected, es + [e])
    ensures Run(s, es).log + Ending(s.queue[0], s.round.value.expected, es, e) <= Run(s, es + [e]).log
  {
    RoundTracksAcks(s, es);
    RunLast(s, es, e);
    AckedByLast(es, e);
    AckedByOne(e);
    EndsOnlyByAnswer(s.round.value.expected, es, e);
    EndingEvent(Run(s, es), s.round.value.expected, es, e);
  }

  lemma AckedByOne(e: Event)
    ensures AckedBy([e]) == if e.SlaveAck? && e.ack then {e.machine} else {}
  {
    assert [] + [e] == [e] && AckedBy([]) == {};
    AckedByLast([], e);
  }

  /** Only an awaited machine's NACK, the last missing acknowledgement or the timeout ends a round. */
  lemma EndsOnlyByAnswer(x: set<Name>, es: seq<Event>, e: Event)
    requires StillWaiting(x, es) && !StillWaiting(x, es + [e])
    ensures e.AckTimeout? || (e.SlaveAck? && e.machine in x && (e.ack ==> x <= AckedBy(es) + {e.machine}))
  {
    AckedByLast(es, e);
    assert forall e' :: e' in es + [e] ==> e' in es || e' == e;
  }

  /** The same, at the state where the round has recorded exactly who acknowledged. */
  lemma EndingEvent(s: Power, x: set<Name>, es: seq<Event>, e: Event)
    requires Inv(s) && s.round == Some(Round(x, x * AckedBy(es), {}))
    requires e.AckTimeout? || (e.SlaveAck? && e.machine in x && (e.ack ==> x <= AckedBy(es) + {e.machine}))
    requires !(x <= AckedBy(es))
    requires AckedBy([e]) == if e.SlaveAck? && e.ack then {e.machine} else {}
    requires AckedBy(es + [e]) == AckedBy(es) + AckedBy([e])
    ensures s.log + Ending(s.queue[0], x, es, e) <= Step(s, e).log
  {
    var r, silent := s.round.value, x - AckedBy(es) - AckedBy([e]);
    assert silent - {} == silent;
    if e.AckTimeout? {
      var m :| m in x && m !in AckedBy(es);
      assert m in silent;
      FinishAppends(s, r, TIMEOUT, silent);
    } else if e.ack {
      var final := r.(acked := r.acked + {e.machine});
      FinishAppends(s, final, COMPLETE, silent);
      assert silent == {} && r.expected <= final.acked;
    } else {
      var final := r.(nacked := {e.machine});
      assert r.nacked + {e.machine} == {e.machine};
      FinishAppends(s, final, COMPLETE, silent - {e.machine});
    }
  }

  // ---------------------------------------------------------------------------------------------
  // Requests that wait for nobody
  // ---------------------------------------------------------------------------------------------

  /** The machines a request waits for when it starts: those it changes, none for RESUME. */
  function Awaits(local: Name, registered: set<Name>, machines: map<Name, Activity>, req: Request): set<Name> {
    if req.state == RESUME then {}
    else set t | t in Targets(local, registered, req.machine) && Lookup(machines, t) != req.state
  }

  predicate Concludes(m: Message) { m.Reply? || m.AckStatus? }

  function OkReplies(reqs: seq<Request>): seq<Message> {
    seq(|reqs|, i requires 0 <= i < |reqs| => Reply(reqs[i].corrId, reqs[i].src, Ok))
  }

  /** What the `i`-th queued request would wait for, the earlier ones having been recorded. */
  function AwaitsAt(s: Power, i: nat): set<Name>
    requires i < |s.queue|
  {
    Awaits(s.local, s.registered, Settled(s.local, s.machines, s.queue[..i]), s.queue[i])
  }

  /** The first `k` requests of `s` waited for nobody, and the next one, if any, is what `round` waits for. */
  ghost predicate Unawaited(s: Power, k: nat, round: Option<Round>) {
    && k <= |s.queue|
    && (forall i :: 0 <= i < k ==> AwaitsAt(s, i) == {})
    && if k == |s.queue| then round.None? else AwaitsAt(s, k) != {} && round == Some(Round(AwaitsAt(s, k), {}, {}))
  }

  lemma UnawaitedOneMore(s: Power, s1: Power, k: nat, round: Option<Round>)
    requires s.queue != [] && AwaitsAt(s, 0) == {} && Unawaited(s1, k, round)
    requires s1.queue == s.queue[1..] && s1.local == s.local && s1.registered == s.registered
    requires s1.machines == Write(s.local, s.machines, s.queue[0])
    ensures Unawaited(s, k + 1, round)
  {
    forall i | 0 <= i < |s1.queue| ensures AwaitsAt(s, i + 1) == AwaitsAt(s1, i) {
      assert s.queue[..i + 1][1..] == s1.queue[..i];
    }
    forall i | 0 <= i < k + 1 ensures AwaitsAt(s, i) == {} {
      if i > 0 { assert AwaitsAt(s, i) == AwaitsAt(s1, i - 1); }
    }
    if k < |s1.queue| { assert AwaitsAt(s, k + 1) == AwaitsAt(s1, k); }
  }

  /** Beyond announcements, `after` adds to `before` the ok:true answers to `reqs`, in order. */
  ghost predicate AnsweredOk(before: seq<Message>, reqs: seq<Request>, after: seq<Message>) {
    before <= after && Filter(Concludes, after[|before|..]) == OkReplies(reqs)
  }

  lemma AnsweredOneMore(log: seq<Message>, note: seq<Message>, req: Request, rest: seq<Request>, after: seq<Message>)
    requires Filter(Concludes, note) == [] && AnsweredOk(log + note + OkReplies([req]), rest, after)
    ensures AnsweredOk(log, [req] + rest, after)
  {
    var reply := OkReplies([req]);
    assert log + note + reply == log + (note + reply);
    FilterSuffix(log, note + reply, after);
    ConclusionOf(note, req);
    OkRepliesFirst(req, rest);
  }

  lemma FilterSuffix(log: seq<Message>, mid: seq<Message>, after: seq<Message>)
    requires log + mid <= after
    ensures log <= after
    ensures Filter(Concludes, after[|log|..]) == Filter(Concludes, mid) + Filter(Concludes, after[|log + mid|..])
  {
    assert after[|log|..] == mid + after[|log + mid|..];
    FilterConcat(Concludes, mid, after[|log + mid|..]);
  }

  lemma OkRepliesFirst(req: Request, rest: seq<Request>)
    ensures OkReplies([req] + rest) == OkReplies([req]) + OkReplies(rest)
  {}

  lemma ConclusionOf(note: seq<Message>, req: Request)
    requires Filter(Concludes, note) == []
    ensures Filter(Concludes, note + OkReplies([req])) == OkReplies([req])
  {
    var reply := OkReplies([req]);
    FilterConcat(Concludes, note, reply);
    assert reply[1..] == [];
  }

  lemma QuietAnnouncement(changed: set<Name>, state: Activity)
    ensures Filter(Concludes, Announcement(changed, state)) == []
  {
    var note := Announcement(changed, state);
    if note != [] { assert note[1..] == []; }
  }

  /**
    Starting queued requests closes the longest prefix that waits for nobody (RESUME, or nothing to
    change), answering each of them ok:true in order and reporting no acknowledgements; the next
    request, if any, is left waiting for exactly the machines it changes.
   */
  lemma {:induction false} AdvanceClosesUnawaited(s: Power) returns (k: nat)
    requires s.round.None?
    ensures k <= |s.queue| && Advance(s).queue == s.queue[k..]
    ensures Unawaited(s, k, Advance(s).round) && AnsweredOk(s.log, s.queue[..k], Advance(s).log)
    decreases |s.queue|
  {
    k := 0;
    if s.queue == [] {
      assert AnsweredOk(s.log, [], s.log);
    } else {
      var req := s.queue[0];
      StartsWithHead(s);
      if req.state == RESUME || Changed(s, req) == {} {
        var s1 := Close(Announced(s), Round({}, {}, {}), COMPLETE);
        var rest := AdvanceClosesUnawaited(s1);
        UnawaitedOneMore(s, s1, rest, Advance(s1).round);
        CloseAnswersOk(s, s1, rest, Advance(s1).log);
        k := rest + 1;
      } else {
        AnnouncedOnly(s);
      }
    }
  }

  lemma CloseAnswersOk(s: Power, s1: Power, k: nat, after: seq<Message>)
    requires s.queue != [] && s1 == Close(Announced(s), Round({}, {}, {}), COMPLETE)
    requires k <= |s1.queue| && AnsweredOk(s1.log, s1.queue[..k], after)
    ensures AnsweredOk(s.log, s.queue[..k + 1], after)
  {
    var req := s.queue[0];
    var note := Announcement(Changed(s, req), req.state);
    QuietAnnouncement(Changed(s, req), req.state);
    assert Closing(req, Round({}, {}, {}), COMPLETE) == OkReplies([req]);
    AnsweredOneMore(s.log, note, req, s1.queue[..k], after);
    assert s.queue[..k + 1] == [req] + s1.queue[..k];
  }

  lemma AnnouncedOnly(s: Power)
    requires s.queue != []
    ensures AnsweredOk(s.log, s.queue[..0], Announced(s).log)
  {
    var req := s.queue[0];
    QuietAnnouncement(Changed(s, req), req.state);
    var note := Announcement(Changed(s, req), req.state);
    assert (s.log + note)[|s.log|..] == note;
  }

  lemma StartsWithHead(s: Power)
    requires s.queue != []
    ensures AwaitsAt(s, 0) == if s.queue[0].state == RESUME then {} else Changed(s, s.queue[0])
  {
    assert s.queue[..0] == [];
  }

  /**
    A request accepted by an idle subsystem: a RESUME is answered ok:true at once, anything else waits
    for exactly the machines it changes, and is not answered yet.
   */
  lemma AcceptedWhenIdle(s: Power, req: Request)
    requires Inv(s) && s.queue == [] && Accepts(s, req)
    ensures var s', changed := Step(s, SetState(req)), Changed(s, req);
            && changed != {}
            && s'.log == s.log + [StateUpdates(changed, req.state)]
                         + (if req.state == RESUME then [Reply(req.corrId, req.src, Ok)] else [])
            && s'.queue == (if req.state == RESUME then [] else [req])
            && s'.round == if req.state == RESUME then None else Some(Round(changed, {}, {}))
  {
    var t :| t in Targets(s.local, s.registered, req.machine)
             && LastQueued(s.local, s.registered, s.machines, s.queue, t) != req.state;
    assert t in Changed(s, req);
    var s1 := s.(queue := [req]);
    assert Changed(s1, req) == Changed(s, req);
    if req.state == RESUME {
      var s2 := Close(Announced(s1), Round({}, {}, {}), COMPLETE);
      assert s2.queue == [] && Advance(s2) == s2;
    }
  }

  // ---------------------------------------------------------------------------------------------
  // Intake
  // ---------------------------------------------------------------------------------------------

  /** At start-up only the local machine is registered, it is resumed, and nothing is queued, armed or published. */
  lemma StartsIdle(local: Name)
    ensures var s := Initial(local);
            && s.local == local && s.registered == {local}
            && Lookup(s.machines, local) == RESUME && s.machines.Keys == {local, ALL_MACHINES}
            && s.queue == [] && s.round.None? && !s.ftimeout && s.log == []
  {}

  /** While a SHUTDOWN heads the queue every request is refused at once and nothing else changes. */
  lemma ShutdownRefusesAll(s: Power, req: Request)
    requires Inv(s) && s.queue != [] && s.queue[0].state == SHUTDOWN
    ensures Step(s, SetState(req)) == s.(log := s.log + [Reply(req.corrId, req.src, ShutdownInProgress)])
  {}

  /**
    Otherwise a request whose every target is already due to be in the requested state is refused as a
    duplicate and changes nothing; any other one joins the end of a non-empty queue unannounced.
   */
  lemma IntakeOutsideShutdown(s: Power, req: Request)
    requires Inv(s) && (s.queue != [] ==> s.queue[0].state != SHUTDOWN)
    ensures (forall t :: t in Targets(s.local, s.registered, req.machine) ==> Scanned(s, t) == req.state)
            ==> Step(s, SetState(req)) == s.(log := s.log + [Reply(req.corrId, req.src, Duplicate)])
    ensures (exists t :: t in Targets(s.local, s.registered, req.machine) && Scanned(s, t) != req.state) && s.queue != []
            ==> Step(s, SetState(req)) == s.(queue := s.queue + [req])
  {
    assert Accepts(s, req) <==>
           exists t :: t in Targets(s.local, s.registered, req.machine) && Scanned(s, t) != req.state;
  }

  /** Nothing joins the queue behind a SHUTDOWN that is waiting, whatever is requested meanwhile. */
  lemma {:induction false} NothingJoinsShutdown(s: Power, es: seq<Event>)
    requires Inv(s) && s.round.Some? && s.round.value.acked == {} && s.queue[0].state == SHUTDOWN
    requires StillWaiting(s.round.value.expected, es)
    ensures Run(s, es).queue == s.queue
    decreases |es|
  {
    if es != [] {
      var front, e := es[..|es| - 1], es[|es| - 1];
      assert es == front + [e] && e in es;
      AckedByLast(front, e);
      NothingJoinsShutdown(s, front);
      RoundTracksAcks(s, front);
      RunLast(s, front, e);
      ShutdownStays(Run(s, front), s.round.value.expected, front, e);
    }
  }

  lemma ShutdownStays(s: Power, x: set<Name>, front: seq<Event>, e: Event)
    requires Inv(s) && s.round == Some(Round(x, x * AckedBy(front), {})) && s.queue[0].state == SHUTDOWN
    requires !e.AckTimeout? && !(e.SlaveAck? && !e.ack && e.machine in x)
    requires AckedBy(front + [e]) == AckedBy(front) + (if e.SlaveAck? && e.ack then {e.machine} else {})
    requires !(x <= AckedBy(front + [e]))
    ensures Step(s, e).queue == s.queue
  {
    match e
    case SetState(req) => ShutdownRefusesAll(s, req);
    case SlaveAck(m, ack) => assert Step(s, e) == Acknowledge(s, m, ack);
    case _ => BystanderStep(s, e);
  }

  // ---------------------------------------------------------------------------------------------
  // Announcements, the confirmation timer and the registry
  // ---------------------------------------------------------------------------------------------

  /** The machines the `i`-th queued request changes, the earlier ones having been recorded. */
  function ChangesAt(s: Power, i: nat): set<Name>
    requires i < |s.queue|
  {
    var machines := Settled(s.local, s.machines, s.queue[..i]);
    set t | t in Targets(s.local, s.registered, s.queue[i].machine) && Lookup(machines, t) != s.queue[i].state
  }

  /** What starting the `i`-th queued request publishes: whom it changes, and its answer unless it waits. */
  function StartedOne(s: Power, i: nat): seq<Message>
    requires i < |s.queue|
  {
    var req, changes := s.queue[i], ChangesAt(s, i);
    (if changes == {} then [] else [StateUpdates(changes, req.state)])
    + (if req.state == RESUME || changes == {} then [Reply(req.corrId, req.src, Ok)] else [])
  }

  /** What starting the first `k` queued requests publishes. */
  function StartedLog(s: Power, k: nat): seq<Message>
    requires k <= |s.queue|
  {
    if k == 0 then [] else StartedLog(s, k - 1) + StartedOne(s, k - 1)
  }

  /** `s1` is `s` with its first request recorded and taken off. */
  predicate Shifted(s: Power, s1: Power) {
    && s.queue != [] && s1.queue == s.queue[1..] && s1.local == s.local && s1.registered == s.registered
    && s1.machines == Write(s.local, s.machines, s.queue[0])
  }

  lemma StartedOneLater(s: Power, s1: Power, i: nat)
    requires Shifted(s, s1) && i < |s1.queue|
    ensures StartedOne(s, i + 1) == StartedOne(s1, i)
  {
    assert s.queue[..i + 1][1..] == s1.queue[..i];
    assert ChangesAt(s, i + 1) == ChangesAt(s1, i);
  }

  lemma {:induction false} StartedLogLater(s: Power, s1: Power, k: nat)
    requires Shifted(s, s1) && k <= |s1.queue|
    ensures StartedLog(s, k + 1) == StartedOne(s, 0) + StartedLog(s1, k)
  {
    if k == 0 {
      assert StartedLog(s, 1) == StartedLog(s, 0) + StartedOne(s, 0);
    } else {
      StartedLogLater(s, s1, k - 1);
      StartedOneLater(s, s1, k - 1);
      Regroup(StartedOne(s, 0), StartedLog(s1, k - 1), StartedOne(s1, k - 1));
    }
  }

  lemma StartedHead(s: Power)
    requires s.queue != []
    ensures var req, changes := s.queue[0], Changed(s, s.queue[0]);
            StartedOne(s, 0) == Announcement(changes, req.state)
              + (if req.state == RESUME || changes == {} then [Reply(req.corrId, req.src, Ok)] else [])
  {
    assert s.queue[..0] == [] && ChangesAt(s, 0) == Changed(s, s.queue[0]);
  }

  /** How many requests were started when `s` became `s'`: those gone and the one left waiting. */
  function Started(s: Power, s': Power): int {
    |s.queue| - |s'.queue| + (if s'.queue == [] then 0 else 1)
  }

  /**
    Starting queued requests publishes, for each request started, the state update of exactly the
    machines it changes and, unless it has to wait, its ok:true.
   */
  lemma {:induction false} AdvancePublishes(s: Power)
    requires s.round.None?
    ensures var s' := Advance(s);
            0 <= Started(s, s') <= |s.queue| && s'.log == s.log + StartedLog(s, Started(s, s'))
    decreases |s.queue|
  {
    if s.queue != [] {
      var req := s.queue[0];
      if req.state == RESUME || Changed(s, req) == {} {
        var s1 := Close(Announced(s), Round({}, {}, {}), COMPLETE);
        AdvancePublishes(s1);
        ClosedLog(s, s1);
        StartedMore(s, s1, Advance(s1));
      } else {
        StartedHead(s);
        assert StartedLog(s, 1) == StartedLog(s, 0) + StartedOne(s, 0);
      }
    }
  }

  lemma StartedMore(s: Power, s1: Power, s': Power)
    requires Shifted(s, s1) && s1.log == s.log + StartedOne(s, 0)
    requires 0 <= Started(s1, s') <= |s1.queue| && s'.log == s1.log + StartedLog(s1, Started(s1, s'))
    ensures Started(s, s') == Started(s1, s') + 1 && s'.log == s.log + StartedLog(s, Started(s, s'))
  {
    StartedLogLater(s, s1, Started(s1, s'));
    Regroup(s.log, StartedOne(s, 0), StartedLog(s1, Started(s1, s')));
  }

  /** And arms no confirmation. */
  lemma {:induction false} AdvanceArmsNothing(s: Power)
    requires s.round.None?
    ensures Advance(s).ftimeout == s.ftimeout
    decreases |s.queue|
  {
    if s.queue != [] && (s.queue[0].state == RESUME || Changed(s, s.queue[0]) == {}) {
      AdvanceArmsNothing(Close(Announced(s), Round({}, {}, {}), COMPLETE));
    }
  }

  lemma ClosedLog(s: Power, s1: Power)
    requires s.queue != [] && (s.queue[0].state == RESUME || Changed(s, s.queue[0]) == {})
    requires s1 == Close(Announced(s), Round({}, {}, {}), COMPLETE)
    ensures Shifted(s, s1) && s1.log == s.log + StartedOne(s, 0)
  {
    var req := s.queue[0];
    StartedHead(s);
    assert Closing(req, Round({}, {}, {}), COMPLETE) == [Reply(req.corrId, req.src, Ok)];
    Regroup(s.log, Announcement(Changed(s, req), req.state), [Reply(req.corrId, req.src, Ok)]);
  }

  /**
    The event that ends a waiting round arms the ten-hour confirmation exactly when somebody stayed
    silent or refused and the request concerned the local machine.
   */
  lemma ConfirmationIffLocalFailure(s: Power, es: seq<Event>, e: Event)
    requires Inv(s) && s.round.Some? && s.round.value.acked == {}
    requires StillWaiting(s.round.value.expected, es)
    requires !StillWaiting(s.round.value.expected, es + [e])
    ensures var ok := e.SlaveAck? && e.ack && s.round.value.expected <= AckedBy(es + [e]);
            var head := s.queue[0].machine;
            Run(s, es + [e]).ftimeout
            <==> Run(s, es).ftimeout || (!ok && (head == ALL_MACHINES || head == LOCAL_MACHINE || head == s.local))
  {
    RoundTracksAcks(s, es);
    RunLast(s, es, e);
    AckedByLast(es, e);
    EndsOnlyByAnswer(s.round.value.expected, es, e);
    RunKeepsLocal(s, es);
    EndingConfirms(Run(s, es), s.round.value.expected, es, e);
  }

  lemma {:induction false} RunKeepsLocal(s: Power, es: seq<Event>)
    requires Inv(s)
    ensures Run(s, es).local == s.local
    decreases |es|
  {
    if es != [] {
      StepInv(s, es[0]);
      StepKeepsLocal(s, es[0]);
      RunKeepsLocal(Step(s, es[0]), es[1..]);
    }
  }

  lemma StepKeepsLocal(s: Power, e: Event)
    requires Inv(s)
    ensures Step(s, e).local == s.local
  {
    match e
    case SetState(req) => if s.queue == [] { AdvanceInv(s.(queue := [req])); }
    case SlaveAck(_, _) => StepSettles(s, e);
    case AckTimeout => StepSettles(s, e);
    case _ =>
  }

  lemma EndingConfirms(s: Power, x: set<Name>, es: seq<Event>, e: Event)
    requires Inv(s) && s.round == Some(Round(x, x * AckedBy(es), {}))
    requires e.AckTimeout? || (e.SlaveAck? && e.machine in x && (e.ack ==> x <= AckedBy(es) + {e.machine}))
    requires !(x <= AckedBy(es))
    requires AckedBy(es + [e]) == AckedBy(es) + (if e.SlaveAck? && e.ack then {e.machine} else {})
    ensures Step(s, e).ftimeout
            <==> s.ftimeout || (!(e.SlaveAck? && e.ack) && InvolvesLocal(s.local, s.queue[0].machine))
  {
    var r := s.round.value;
    if e.AckTimeout? {
      var m :| m in x && m !in AckedBy(es);
      assert m in r.expected - r.acked - r.nacked;
      AdvanceArmsNothing(Close(s, r, TIMEOUT));
    } else if e.ack {
      var final := r.(acked := r.acked + {e.machine});
      assert final.expected - final.acked - final.nacked == {} && r.expected <= final.acked;
      AdvanceArmsNothing(Close(s, final, COMPLETE));
    } else {
      var final := r.(nacked := r.nacked + {e.machine});
      assert e.machine in final.nacked;
      AdvanceArmsNothing(Close(s, final, COMPLETE));
    }
  }

  /**
    What the events outside a round do: a new machine is announced available and keeps an earlier
    recorded state, RESUME if it never had one; a removed one keeps its state; the confirmation
    rebroadcasts what is recorded of the local machine.
   */
  lemma BystanderEffects(s: Power, e: Event)
    requires Inv(s) && Bystander(e)
    ensures var s' := Step(s, e);
            match e
            case AddMachine(m) =>
              && s'.registered == s.registered + {m}
              && (forall t :: t in s.machines ==> t in s'.machines && s'.machines[t] == s.machines[t])
              && (m !in s.registered && m !in s.machines ==> s'.machines.Keys == s.machines.Keys + {m} && s'.machines[m] == RESUME)
              && (m in s.registered || m in s.machines ==> s'.machines == s.machines)
              && s'.log == s.log + (if m in s.registered then [] else [MachineUpdate(m, true)])
            case RemoveMachine(m) =>
              && s'.registered == s.registered - {m} && s'.machines == s.machines
              && s'.log == s.log + (if m in s.registered then [MachineUpdate(m, false)] else [])
            case FTimeout =>
              && !s'.ftimeout && s'.machines == s.machines
              && s'.log == s.log + [StateUpdates({s.local}, if s.local in s.machines then s.machines[s.local] else UNKNOWN)]
            case GetMachineNames => s' == s.(log := s.log + [MachineNames(s.registered)])
            case WakeupEvent(info) => s' == s.(log := s.log + [WakeupInd(info)])
            case Resubscribe => s' == s.(log := s.log + [SubsystemReady(Tcu), SubsystemReady(WakeupRelay)])
            case _ => true
  {}
}
