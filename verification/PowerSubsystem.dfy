/**
  The PowerSubsystem object: the fields and handlers of the implementation, each proved to perform
  the transition of PowerModel on the abstract state.
 */
module PowerSubsystem {
  import opened Common
  import opened PowerModel

  class Subsystem {
    const local: Name
    var machinesState: map<Name, Activity>
    var registered: set<Name>
    var queue: seq<Request>

    var pendingTarget: Option<Name>
    var pendingState: Option<Activity>
    var pendingCorr: Option<Tag>
    var pendingExpected: set<Name>
    var pendingAcked: set<Name>
    var pendingNacked: set<Name>
    var ackTimerArmed: bool
    var ftimeoutArmed: bool

    var published: seq<Message>

    /** The round that the pending fields describe. */
    ghost function Pending(): Round
      reads this
    {
      Round(pendingExpected, pendingAcked, pendingNacked)
    }

    ghost function Model(): Power
      reads this
    {
      Power(local, registered, machinesState, queue,
            if pendingTarget.None? then None else Some(Pending()), ftimeoutArmed, published)
    }

    /** No round: every pending field is cleared and no acknowledgement timer is armed. */
    ghost predicate Clear()
      reads this
    {
      pendingTarget.None? && pendingState.None? && pendingCorr.None? && !ackTimerArmed
      && Pending() == Round({}, {}, {})
    }

    /** The pending fields mirror the head of the queue. */
    ghost predicate Mirrors()
      reads this
    {
      && queue != []
      && pendingTarget == Some(queue[0].machine)
      && pendingState == Some(queue[0].state)
      && pendingCorr == Some(TagOf(queue[0]))
    }

    /** Holds between events: the model invariant, mirrored pending fields, timer armed iff in flight. */
    ghost predicate Valid()
      reads this
    {
      && Inv(Model())
      && (queue == [] ==> Clear())
      && (queue != [] ==> Mirrors() && ackTimerArmed)
    }

    constructor (localMachineName: Name)
      ensures Valid() && Model() == Initial(localMachineName)
    {
      local := localMachineName;
      machinesState := map[localMachineName := RESUME, ALL_MACHINES := RESUME];
      registered := {localMachineName};
      queue := [];
      pendingTarget, pendingState, pendingCorr := None, None, None;
      pendingExpected, pendingAcked, pendingNacked := {}, {}, {};
      ackTimerArmed, ftimeoutArmed := false, false;
      published := [];
    }

    method HandleSetState(req: Request)
      requires Valid()
      modifies this
      ensures Valid() && Model() == Step(old(Model()), SetState(req))
    {
      StepInv(Model(), SetState(req));
      if queue != [] && queue[0].state == SHUTDOWN {
        published := published + [Reply(req.corrId, req.src, ShutdownInProgress)];
        return;
      }
      var enqueue := ShouldEnqueue(req.machine, req.state);
      if !enqueue {
        published := published + [Reply(req.corrId, req.src, Duplicate)];
        return;
      }
      var wasEmpty := queue == [];
      queue := queue + [req];
      if wasEmpty {
        assert queue == [req];
        ProcessNextQueued();
      }
    }

    method ShouldEnqueue(machine: Name, state: Activity) returns (r: bool)
      ensures r <==> exists t :: t in Targets(local, registered, machine)
                                 && LastQueued(local, registered, machinesState, queue, t) != state
    {
      var rest := Targets(local, registered, machine);
      ghost var seen := {};
      while rest != {}
        invariant seen + rest == Targets(local, registered, machine)
        invariant forall t :: t in seen ==> LastQueued(local, registered, machinesState, queue, t) == state
        decreases rest
      {
        var t :| t in rest;
        var last := LastQueuedState(t);
        if last != state {
          return true;
        }
        rest, seen := rest - {t}, seen + {t};
      }
      return false;
    }

    /** The source's loop over the reversed deque. */
    method LastQueuedState(t: Name) returns (r: Activity)
      ensures r == LastQueued(local, registered, machinesState, queue, t)
    {
      var i := |queue|;
      assert queue[..i] == queue;
      while i > 0
        invariant 0 <= i <= |queue|
        invariant LastQueued(local, registered, machinesState, queue, t)
                  == LastQueued(local, registered, machinesState, queue[..i], t)
      {
        i := i - 1;
        assert queue[..i + 1][..i] == queue[..i];
        if t in Targets(local, registered, queue[i].machine) {
          return queue[i].state;
        }
      }
      return Lookup(machinesState, t);
    }

    /** Starts the head request; finishes at once whatever needs no acknowledgement. */
    method ProcessNextQueued()
      requires Clear() && registered <= machinesState.Keys
      modifies this
      ensures Valid() && Model() == Advance(old(Model()))
      decreases |queue|, 1
    {
      if queue == [] {
        return;
      }
      ghost var s := Model();
      AdvanceInv(s);
      BeginRound();
      if pendingExpected == {} {
        CloseForgets(Announced(s), Some(Pending()), Pending(), COMPLETE);
        FinishSetStateRound(COMPLETE);
      } else {
        ackTimerArmed := true;
        assert Model() == Advance(s);
      }
    }

    /** Announces the head request to the machines it changes and records whom it awaits. */
    method BeginRound()
      requires Clear() && queue != []
      modifies this
      ensures Mirrors() && !ackTimerArmed
      ensures var awaited := if queue[0].state == RESUME then {} else Changed(old(Model()), queue[0]);
              Model() == Announced(old(Model())).(round := Some(Round(awaited, {}, {})))
    {
      var req := queue[0];
      pendingTarget, pendingState, pendingCorr := Some(req.machine), Some(req.state), Some(TagOf(req));
      var changed := set t | t in Targets(local, registered, req.machine) && Lookup(machinesState, t) != req.state;
      assert changed == Changed(old(Model()), req);
      published := published + (if changed == {} then [] else [StateUpdates(changed, req.state)]);
      // RESUME is fire-and-forget; otherwise every changed target is awaited, the local one included.
      pendingExpected := if req.state == RESUME then {} else changed;
    }

    method FinishSetStateRound(status: Status)
      requires Mirrors() && registered <= machinesState.Keys && !ackTimerArmed
      modifies this
      ensures Valid() && Model() == Finish(old(Model()), old(Pending()), status)
      decreases |queue|, 0
    {
      CloseRound(status);
      if queue != [] {
        ProcessNextQueued();
      }
    }

    /** Reports the round, records the requested state whatever the outcome, replies and pops the head. */
    method CloseRound(status: Status)
      requires Mirrors() && !ackTimerArmed
      modifies this
      ensures Clear() && Model() == Close(old(Model()), old(Pending()), status)
    {
      var machine, state := pendingTarget.value, pendingState.value;
      var ok := ReportRound(status);
      var involvesLocal := machine == ALL_MACHINES || machine == LOCAL_MACHINE || machine == local;
      ApplyStateUpdate(machine, state);
      ClearPending();
      ftimeoutArmed := ftimeoutArmed || (!ok && involvesLocal);
      queue := queue[1..];
    }

    /** Publishes the acknowledgement status, if anyone was awaited, and the reply. */
    method ReportRound(status: Status) returns (ok: bool)
      requires Mirrors()
      modifies this`published
      ensures ok == Unanimous(Pending()) && published == old(published) + Closing(queue[0], Pending(), status)
    {
      var noack := pendingExpected - pendingAcked - pendingNacked;
      ok := noack == {} && pendingNacked == {};
      if pendingExpected != {} {
        published := published + [AckStatus(status, pendingTarget.value, noack, pendingNacked)];
      }
      published := published + [Reply(pendingCorr.value.0, pendingCorr.value.1, if ok then Ok else NackedOrSilent)];
    }

    method ClearPending()
      requires !ackTimerArmed
      modifies this`pendingTarget, this`pendingState, this`pendingCorr,
               this`pendingExpected, this`pendingAcked, this`pendingNacked
      ensures Clear()
    {
      pendingTarget, pendingState, pendingCorr := None, None, None;
      pendingExpected, pendingAcked, pendingNacked := {}, {}, {};
    }

    method ApplyStateUpdate(machine: Name, state: Activity)
      modifies this`machinesState
      ensures machinesState == Record(local, old(machinesState), machine, state)
    {
      if machine == ALL_MACHINES {
        var rest := machinesState.Keys;
        while rest != {}
          invariant rest <= machinesState.Keys == old(machinesState.Keys)
          invariant forall k :: k in machinesState && k !in rest ==> machinesState[k] == state
          decreases rest
        {
          var k :| k in rest;
          machinesState := machinesState[k := state];
          rest := rest - {k};
        }
      } else if machine == LOCAL_MACHINE {
        machinesState := machinesState[local := state];
      } else {
        machinesState := machinesState[machine := state];
      }
    }

    method RecordAck(machine: Name, ack: bool)
      requires Valid()
      modifies this
      ensures Valid() && Model() == Step(old(Model()), SlaveAck(machine, ack))
    {
      StepInv(Model(), SlaveAck(machine, ack));
      if pendingTarget.None? || machine !in pendingExpected {
        return;
      }
      if ack {
        pendingAcked := pendingAcked + {machine};
        if pendingExpected <= pendingAcked {
          ackTimerArmed := false;
          CloseForgets(old(Model()), Some(Pending()), Pending(), COMPLETE);
          FinishSetStateRound(COMPLETE);
        }
      } else {
        pendingNacked := pendingNacked + {machine};
        ackTimerArmed := false;
        CloseForgets(old(Model()), Some(Pending()), Pending(), COMPLETE);
        FinishSetStateRound(COMPLETE);
      }
    }

    method OnAckTimeout()
      requires Valid()
      modifies this
      ensures Valid() && Model() == Step(old(Model()), AckTimeout)
    {
      StepInv(Model(), AckTimeout);
      if pendingTarget.None? {
        return;
      }
      ackTimerArmed := false;
      FinishSetStateRound(TIMEOUT);
    }

    method OnFTimeout()
      requires Valid()
      modifies this
      ensures Valid() && Model() == Step(old(Model()), FTimeout)
    {
      ftimeoutArmed := false;
      published := published + [StateUpdates({local}, Lookup(machinesState, local))];
    }

    method ApplyAddMachine(machine: Name)
      requires Valid()
      modifies this
      ensures Valid() && Model() == Step(old(Model()), AddMachine(machine))
    {
      if machine in registered {
        return;
      }
      registered := registered + {machine};
      if machine !in machinesState {
        machinesState := machinesState[machine := RESUME];
      }
      published := published + [MachineUpdate(machine, true)];
    }

    method ApplyRemoveMachine(machine: Name)
      requires Valid()
      modifies this
      ensures Valid() && Model() == Step(old(Model()), RemoveMachine(machine))
    {
      if machine !in registered {
        return;
      }
      registered := registered - {machine};
      published := published + [MachineUpdate(machine, false)];
    }

    method HandleGetMachineNames()
      requires Valid()
      modifies this
      ensures Valid() && Model() == Step(old(Model()), GetMachineNames)
    {
      published := published + [MachineNames(registered)];
    }

    /** The wakeup relay: the event is passed on as an indication. */
    method HandleWakeupEvent(info: string)
      requires Valid()
      modifies this
      ensures Valid() && Model() == Step(old(Model()), WakeupEvent(info))
    {
      published := published + [WakeupInd(info)];
    }

    /** A reconnect republishes readiness and touches neither queue nor round. */
    method DoResubscribe()
      requires Valid()
      modifies this
      ensures Valid() && Model() == Step(old(Model()), Resubscribe)
    {
      published := published + [SubsystemReady(Tcu), SubsystemReady(WakeupRelay)];
    }

    /** Delivers a whole run of events in the Ready state. */
    method RunToCompletion(events: seq<Event>)
      requires Valid()
      modifies this
      ensures Valid() && Model() == Run(old(Model()), events)
    {
      var i := 0;
      while i < |events|
        invariant 0 <= i <= |events|
        invariant Valid() && Model() == Run(old(Model()), events[..i])
      {
        RunLast(old(Model()), events[..i], events[i]);
        assert events[..i + 1] == events[..i] + [events[i]];
        match events[i] {
          case SetState(req) => HandleSetState(req);
          case SlaveAck(m, ack) => RecordAck(m, ack);
          case AckTimeout => OnAckTimeout();
          case FTimeout => OnFTimeout();
          case AddMachine(m) => ApplyAddMachine(m);
          case RemoveMachine(m) => ApplyRemoveMachine(m);
          case GetMachineNames => HandleGetMachineNames();
          case WakeupEvent(info) => HandleWakeupEvent(info);
          case Resubscribe => DoResubscribe();
        }
        i := i + 1;
      }
      assert events[..i] == events;
    }
  }

  /** Closing forgets the round stored in the state: only the round passed in matters. */
  lemma CloseForgets(s: Power, stored: Option<Round>, r: Round, status: Status)
    requires s.queue != []
    ensures Close(s.(round := stored), r, status) == Close(s, r, status)
  {}
}
