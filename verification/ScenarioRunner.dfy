/** The ScenarioRunner object: its stepping and seeking loops and its state handlers. */
module ScenarioRunner {
  import opened Common
  import opened Timeline
  import M = ScenarioModel

  class Runner {
    const timeline: seq<Step>
    var next: nat
    var clock: real
    var aborted: bool
    var phase: M.Phase
    var stepDue: Option<real>
    var dispatched: seq<Step>
    var stopsPosted: nat
    var published: seq<M.Message>

    ghost function Model(): M.Runner
      reads this
    {
      M.Runner(timeline, next, clock, aborted, phase, stepDue, dispatched, stopsPosted, published)
    }

    ghost predicate Valid()
      reads this
    {
      M.Inv(Model())
    }

    constructor (loaded: seq<Step>)
      requires forall x :: x in loaded ==> x.at >= 0.0
      ensures Valid() && Model() == M.Loaded(loaded)
    {
      M.LoadedInv(loaded);
      timeline := Stage(loaded);
      next, clock, aborted, phase, stepDue := 0, 0.0, false, M.Idle, None;
      dispatched, stopsPosted, published := [], 0, [];
    }

    method DispatchOne(s: Step)
      modifies this`dispatched
      ensures dispatched == old(dispatched) + [s]
    {
      dispatched := dispatched + [s];
    }

    method ScheduleNextStepDue()
      modifies this`stepDue
      ensures Model() == M.Schedule(old(Model()))
    {
      stepDue := None;
      if next >= |timeline| {
        return;
      }
      var remaining := timeline[next].at - clock;
      stepDue := Some(if remaining < 0.0 then 0.0 else remaining);
    }

    /** Consumes up to `n` steps; the loop of the implementation. */
    method DoStepSync(n: int) returns (executed: nat, reachedEnd: bool)
      requires next <= |timeline|
      modifies this`stepDue, this`next, this`clock, this`dispatched
      ensures Model() == M.StepSync(old(Model()), n)
      ensures executed == M.Executed(old(Model()), n) && reachedEnd == (next >= |timeline|)
    {
      stepDue := None;
      executed := 0;
      assert old(dispatched) + timeline[next..next + 0] == old(dispatched);
      while executed < n && next < |timeline|
        invariant next == old(next) + executed <= |timeline| && stepDue == None
        invariant executed == 0 || executed <= n
        invariant dispatched == old(dispatched) + timeline[old(next)..next]
        invariant clock == if executed == 0 then old(clock) else timeline[next - 1].at
        decreases |timeline| - next
      {
        var s := timeline[next];
        clock := s.at;
        DispatchOne(s);
        assert timeline[old(next)..next + 1] == timeline[old(next)..next] + [s];
        next := next + 1;
        executed := executed + 1;
      }
      reachedEnd := next >= |timeline|;
    }

    /** Fires every step due at the target, then sets the clock to it. */
    method DoSeekSync(target: real) returns (reached: real)
      requires next <= |timeline|
      modifies this`stepDue, this`next, this`clock, this`dispatched
      ensures Model() == M.SeekSync(old(Model()), target) && reached == clock
    {
      stepDue := None;
      if target >= clock {
        while next < |timeline| && timeline[next].at <= target
          invariant old(next) <= next <= |timeline| && stepDue == None && clock == old(clock)
          invariant dispatched == old(dispatched) + timeline[old(next)..next]
          invariant M.DueFrom(timeline, old(next), target) == next - old(next) + M.DueFrom(timeline, next, target)
          decreases |timeline| - next
        {
          DispatchOne(timeline[next]);
          assert timeline[old(next)..next + 1] == timeline[old(next)..next] + [timeline[next]];
          next := next + 1;
        }
        clock := target;
      }
      reached := clock;
    }

    method PublishProgress(name: M.Label)
      modifies this`published
      ensures Model() == M.PublishProgress(old(Model()), name)
    {
      published := published + [M.Progress(name, clock, next >= |timeline|)];
    }

    /** Republishes the progress under the label of the live state. */
    method DoResubscribe()
      modifies this`published
      ensures Model() == M.PublishProgress(old(Model()), M.LiveLabel(old(Model())))
    {
      var name :=
        if aborted then M.LAborted
        else if phase == M.Running then M.LRunning
        else if phase == M.Done then M.LDone
        else M.LPaused;
      PublishProgress(name);
    }

    // State entries.

    method EnterRunning()
      modifies this
      ensures Model() == M.EnterRunning(old(Model()))
    {
      phase := M.Running;
      ScheduleNextStepDue();
      PublishProgress(M.LRunning);
    }

    method EnterPaused()
      modifies this
      ensures Model() == M.EnterPaused(old(Model()))
    {
      phase := M.Paused;
      stepDue := None;
      PublishProgress(if aborted then M.LAborted else M.LPaused);
    }

    method EnterDone()
      modifies this
      ensures Model() == M.EnterDone(old(Model()))
    {
      phase := M.Done;
      stepDue := None;
      PublishProgress(if aborted then M.LAborted else M.LDone);
    }

    // Requests.

    method RpcStep(n: int)
      requires Valid()
      modifies this
      ensures phase == old(phase)
      ensures old(phase) != M.Done ==> Valid() && Model() == M.StepOn(old(Model()), M.StepRpc(n))
    {
      M.StepOnInv(Model(), M.StepRpc(n));
      var executed, reachedEnd := DoStepSync(n);
      Continue(M.StepRsp(executed, clock, reachedEnd));
    }

    method RpcSeek(at: real)
      requires Valid()
      modifies this
      ensures phase == old(phase)
      ensures old(phase) != M.Done ==> Valid() && Model() == M.StepOn(old(Model()), M.SeekRpc(at))
    {
      M.StepOnInv(Model(), M.SeekRpc(at));
      var reached := DoSeekSync(at);
      Continue(M.SeekRsp(reached));
    }

    /** Answers, then posts Stop at the end of the timeline or re-arms the timer if autoplaying. */
    method Continue(rsp: M.Message)
      modifies this`published, this`stopsPosted, this`stepDue
      ensures Model() == M.Continue(M.Publish(old(Model()), rsp))
    {
      published := published + [rsp];
      if next >= |timeline| {
        stopsPosted := stopsPosted + 1;
      } else if phase == M.Running {
        ScheduleNextStepDue();
      }
    }

    // The four state handlers.

    method ExecuteNext()
      requires next < |timeline|
      modifies this`clock, this`dispatched, this`next
      ensures Model() == M.Advance(old(Model()), 1)
    {
      var s := timeline[next];
      clock := s.at;
      DispatchOne(s);
      assert timeline[next..next + 1] == [s];
      next := next + 1;
    }

    method OnStepDue()
      requires Valid() && phase == M.Running
      modifies this
      ensures Valid() && Model() == M.StepOn(old(Model()), M.StepDue)
    {
      M.StepOnInv(Model(), M.StepDue);
      stepDue := None;
      if next >= |timeline| {
        EnterDone();
        return;
      }
      ExecuteNext();
      PublishProgress(M.LRunning);
      if next >= |timeline| {
        EnterDone();
      } else {
        ScheduleNextStepDue();
      }
    }

    method Handle(e: M.Event)
      requires Valid()
      modifies this
      ensures Valid() && Model() == M.StepOn(old(Model()), e)
    {
      M.StepOnInv(Model(), e);
      if phase == M.Done {
        return;
      }
      match e
      case Start =>
        if phase == M.Idle {
          if timeline == [] || next >= |timeline| { EnterDone(); } else { EnterRunning(); }
        }
      case Stop => EnterDone();
      case StepDue => if phase == M.Running { OnStepDue(); }
      case Pause => if phase == M.Running { EnterPaused(); }
      case Resume =>
        if phase == M.Paused && !aborted {
          if next >= |timeline| { EnterDone(); } else { EnterRunning(); }
        }
      case StepRpc(n) => RpcStep(n);
      case SeekRpc(t) => RpcSeek(t);
      case AbortRpc => aborted, stopsPosted := true, stopsPosted + 1;
      case Resubscribe => DoResubscribe();
    }

    /** Plays a whole interleaving of timer, control and request events. */
    method Play(events: seq<M.Event>)
      requires Valid()
      modifies this
      ensures Valid() && Model() == M.Run(old(Model()), events)
    {
      for i := 0 to |events|
        invariant Valid() && Model() == M.Run(old(Model()), events[..i])
      {
        assert events[..i + 1][..i] == events[..i];
        Handle(events[i]);
      }
      assert events[..|events|] == events;
    }
  }
}
