/** The scenario runner as a transition function over its staged timeline and virtual clock. */
module ScenarioModel {
  import opened Common
  import opened Timeline

  datatype Phase = Idle | Running | Paused | Done

  datatype Label = LPaused | LRunning | LDone | LAborted

  datatype Message =
    | Progress(name: Label, timeMs: real, reachedEnd: bool)
    | StepRsp(executed: nat, timeMs: real, reachedEnd: bool)
    | SeekRsp(reachedAtMs: real)

  datatype Runner = Runner(
    timeline: seq<Step>,
    next: nat,
    clock: real,
    aborted: bool,
    phase: Phase,
    stepDue: Option<real>,        // delay in ms of the armed StepDue, if any
    dispatched: seq<Step>,
    stopsPosted: nat,             // Stop events posted to itself
    log: seq<Message>)

  datatype Event =
    | Start | Stop | StepDue | Pause | Resume
    | StepRpc(steps: int)
    | SeekRpc(at: real)
    | AbortRpc
    | Resubscribe

  function Loaded(timeline: seq<Step>): Runner {
    Runner(Stage(timeline), 0, 0.0, false, Idle, None, [], 0, [])
  }

  predicate AtEnd(r: Runner) { r.next >= |r.timeline| }

  // ---------------------------------------------------------------------------------------------
  // Moving along the timeline
  // ---------------------------------------------------------------------------------------------

  /** Executes the next `k` steps, setting the clock to the last of them. */
  function Advance(r: Runner, k: nat): Runner
    requires r.next + k <= |r.timeline|
  {
    r.(next := r.next + k,
       dispatched := r.dispatched + r.timeline[r.next..r.next + k],
       clock := if k == 0 then r.clock else r.timeline[r.next + k - 1].at)
  }

  /** How many steps a request for `n` executes. */
  function Executed(r: Runner, n: int): nat {
    if AtEnd(r) || n <= 0 then 0
    else if n <= |r.timeline| - r.next then n else |r.timeline| - r.next
  }

  function StepSync(r: Runner, n: int): Runner
    requires r.next <= |r.timeline|
  {
    Advance(r.(stepDue := None), Executed(r, n))
  }

  /** How many of the steps from index `i` on are due at time `t`. */
  function DueFrom(timeline: seq<Step>, i: nat, t: real): (k: nat)
    ensures i <= |timeline| ==> i + k <= |timeline|
    decreases |timeline| - i
  {
    if i < |timeline| && timeline[i].at <= t then 1 + DueFrom(timeline, i + 1, t) else 0
  }

  /** Fires everything due at `target` and sets the clock to it; a backward seek does nothing. */
  function SeekSync(r: Runner, target: real): Runner
    requires r.next <= |r.timeline|
  {
    var r' := r.(stepDue := None);
    if target < r.clock then r'
    else Advance(r', DueFrom(r.timeline, r.next, target)).(clock := target)
  }

  // ---------------------------------------------------------------------------------------------
  // States and events
  // ---------------------------------------------------------------------------------------------

  function Publish(r: Runner, m: Message): Runner { r.(log := r.log + [m]) }

  function PublishProgress(r: Runner, name: Label): Runner {
    Publish(r, Progress(name, r.clock, AtEnd(r)))
  }

  /** Arms the next StepDue; the delay is clamped at zero. */
  function Schedule(r: Runner): Runner {
    if AtEnd(r) then r.(stepDue := None)
    else
      var remaining := r.timeline[r.next].at - r.clock;
      r.(stepDue := Some(if remaining < 0.0 then 0.0 else remaining))
  }

  function EnterRunning(r: Runner): Runner { PublishProgress(Schedule(r.(phase := Running)), LRunning) }

  function EnterPaused(r: Runner): Runner {
    PublishProgress(r.(phase := Paused, stepDue := None), if r.aborted then LAborted else LPaused)
  }

  function EnterDone(r: Runner): Runner {
    PublishProgress(r.(phase := Done, stepDue := None), if r.aborted then LAborted else LDone)
  }

  /** What a reconnect republishes: the label of the live state. */
  function LiveLabel(r: Runner): Label {
    if r.aborted then LAborted else if r.phase == Running then LRunning else if r.phase == Done then LDone else LPaused
  }

  /** After a step or seek request: stop at the end, otherwise re-arm if autoplaying. */
  function Continue(r: Runner): Runner {
    if AtEnd(r) then r.(stopsPosted := r.stopsPosted + 1)
    else if r.phase == Running then Schedule(r) else r
  }

  function OnStepDue(r: Runner): Runner
    requires r.next <= |r.timeline|
  {
    var r1 := r.(stepDue := None);
    if AtEnd(r) then EnterDone(r1)
    else
      var r2 := PublishProgress(Advance(r1, 1), LRunning);
      if AtEnd(r2) then EnterDone(r2) else Schedule(r2)
  }

  /** The events that steer or report, without playing anything. */
  predicate Steering(e: Event) { !e.StepDue? && !e.StepRpc? && !e.SeekRpc? }

  function Steer(r: Runner, e: Event): Runner
    requires Steering(e)
  {
    match e
    case Start => if r.phase != Idle then r else if AtEnd(r) then EnterDone(r) else EnterRunning(r)
    case Stop => EnterDone(r)
    case Pause => if r.phase == Running then EnterPaused(r) else r
    case Resume =>
      if r.phase != Paused || r.aborted then r
      else if AtEnd(r) then EnterDone(r) else EnterRunning(r)
    case AbortRpc => r.(aborted := true, stopsPosted := r.stopsPosted + 1)
    case Resubscribe => PublishProgress(r, LiveLabel(r))
  }

  function OnStepRpc(r: Runner, n: int): Runner
    requires r.next <= |r.timeline|
  {
    var r1 := StepSync(r, n);
    Continue(Publish(r1, StepRsp(Executed(r, n), r1.clock, AtEnd(r1))))
  }

  function OnSeekRpc(r: Runner, t: real): Runner
    requires r.next <= |r.timeline|
  {
    var r1 := SeekSync(r, t);
    Continue(Publish(r1, SeekRsp(r1.clock)))
  }

  function StepOn(r: Runner, e: Event): Runner
    requires r.next <= |r.timeline|
  {
    if r.phase == Done then r
    else if Steering(e) then Steer(r, e)
    else
      match e
      case StepDue => if r.phase == Running then OnStepDue(r) else r
      case StepRpc(n) => OnStepRpc(r, n)
      case SeekRpc(t) => OnSeekRpc(r, t)
  }

  // ---------------------------------------------------------------------------------------------
  // The invariant of every reachable state
  // ---------------------------------------------------------------------------------------------

  /** The dispatched steps are a prefix, and the clock lies between its last step and the next one. */
  ghost predicate Placed(r: Runner) {
    && r.next <= |r.timeline| && Sorted(r.timeline)
    && r.dispatched == r.timeline[..r.next]
    && (r.next > 0 ==> r.timeline[r.next - 1].at <= r.clock)
    && (r.next < |r.timeline| ==> r.clock <= r.timeline[r.next].at)
  }

  /** A StepDue is armed exactly while autoplay has steps left, for the true remaining time. */
  ghost predicate Armed(r: Runner) {
    && (r.stepDue.Some? <==> r.phase == Running && !AtEnd(r))
    && (r.stepDue.Some? ==> r.stepDue.value == r.timeline[r.next].at - r.clock)
  }

  ghost predicate Inv(r: Runner) { Placed(r) && Armed(r) }

  /** Nothing is undone. */
  ghost predicate Forward(r: Runner, r': Runner) {
    r'.timeline == r.timeline && r.clock <= r'.clock && r.dispatched <= r'.dispatched
  }

  lemma AdvancePlaced(r: Runner, k: nat)
    requires Placed(r) && r.next + k <= |r.timeline|
    ensures Placed(Advance(r, k)) && Forward(r, Advance(r, k))
  {
    PrefixGrows(r.timeline, r.next, k);
    if k > 0 && r.next + k < |r.timeline| { assert r.timeline[r.next + k - 1].at <= r.timeline[r.next + k].at; }
  }

  lemma PrefixGrows(s: seq<Step>, i: nat, k: nat)
    requires i + k <= |s|
    ensures s[..i] + s[i..i + k] == s[..i + k]
  {}

  lemma {:induction false} DueFromSpec(timeline: seq<Step>, i: nat, t: real)
    requires Sorted(timeline) && i <= |timeline|
    ensures var k := DueFrom(timeline, i, t);
            && (forall j :: i <= j < i + k ==> timeline[j].at <= t)
            && (forall j :: i + k <= j < |timeline| ==> timeline[j].at > t)
    decreases |timeline| - i
  {
    if i < |timeline| && timeline[i].at <= t { DueFromSpec(timeline, i + 1, t); }
  }

  /** The steps on either side of where a seek stops. */
  lemma {:induction false} DueEdges(timeline: seq<Step>, i: nat, t: real)
    requires i <= |timeline|
    ensures var k := DueFrom(timeline, i, t);
            && (k > 0 ==> timeline[i + k - 1].at <= t)
            && (i + k < |timeline| ==> timeline[i + k].at > t)
    decreases |timeline| - i
  {
    if i < |timeline| && timeline[i].at <= t { DueEdges(timeline, i + 1, t); }
  }

  lemma SeekPlaced(r: Runner, t: real)
    requires Placed(r)
    ensures Placed(SeekSync(r, t)) && Forward(r, SeekSync(r, t))
  {
    if r.clock <= t {
      var k := DueFrom(r.timeline, r.next, t);
      DueEdges(r.timeline, r.next, t);
      SeekForward(r, t, k);
      AdvanceSetPlaced(r.(stepDue := None), k, t);
    }
  }

  lemma AdvanceSetPlaced(r: Runner, k: nat, t: real)
    requires Placed(r) && r.next + k <= |r.timeline| && r.clock <= t
    requires k > 0 ==> r.timeline[r.next + k - 1].at <= t
    requires r.next + k < |r.timeline| ==> t <= r.timeline[r.next + k].at
    ensures Placed(Advance(r, k).(clock := t)) && Forward(r, Advance(r, k).(clock := t))
  {
    AdvancePlaced(r, k);
    ClockSetPlaced(Advance(r, k), t);
  }

  lemma ClockSetPlaced(r: Runner, t: real)
    requires Placed(r) && (r.next > 0 ==> r.timeline[r.next - 1].at <= t)
    requires r.next < |r.timeline| ==> t <= r.timeline[r.next].at
    ensures Placed(r.(clock := t))
  {}

  /** Messages and the end-of-timeline stop concern neither position nor timer. */
  lemma ContinueInv(r: Runner, m: Message)
    requires Placed(r) && r.stepDue.None? && r.phase != Done
    ensures Inv(Continue(Publish(r, m))) && Forward(r, Continue(Publish(r, m)))
  {}

  lemma EnterInv(r: Runner)
    requires Placed(r)
    ensures Inv(EnterRunning(r)) && Forward(r, EnterRunning(r))
    ensures Inv(EnterPaused(r)) && Forward(r, EnterPaused(r))
    ensures Inv(EnterDone(r)) && Forward(r, EnterDone(r))
  {}

  lemma StepDueInv(r: Runner)
    requires Inv(r) && r.phase == Running
    ensures Inv(OnStepDue(r)) && Forward(r, OnStepDue(r))
  {
    var r1 := r.(stepDue := None);
    if AtEnd(r) {
      EnterInv(r1);
    } else {
      AdvancePlaced(r1, 1);
      var r2 := PublishProgress(Advance(r1, 1), LRunning);
      EnterInv(r2);
    }
  }

  lemma StepRpcInv(r: Runner, n: int)
    requires Inv(r) && r.phase != Done
    ensures Inv(OnStepRpc(r, n)) && Forward(r, OnStepRpc(r, n))
  {
    var r1 := StepSync(r, n);
    AdvancePlaced(r.(stepDue := None), Executed(r, n));
    AnswerInv(r, r1, StepRsp(Executed(r, n), r1.clock, AtEnd(r1)));
  }

  lemma AnswerInv(r: Runner, r1: Runner, rsp: Message)
    requires Placed(r1) && r1.stepDue.None? && r1.phase != Done && Forward(r, r1)
    ensures Inv(Continue(Publish(r1, rsp))) && Forward(r, Continue(Publish(r1, rsp)))
  {
    ContinueInv(r1, rsp);
    ForwardTransitive(r, r1, Continue(Publish(r1, rsp)));
  }

  lemma SeekRpcInv(r: Runner, t: real)
    requires Inv(r) && r.phase != Done
    ensures Inv(OnSeekRpc(r, t)) && Forward(r, OnSeekRpc(r, t))
  {
    SeekPlaced(r, t);
    var r1 := SeekSync(r, t);
    AnswerInv(r, r1, SeekRsp(r1.clock));
  }

  /** Every event keeps the invariant, never moves the clock or the dispatches back, and Done is final. */
  lemma StepOnInv(r: Runner, e: Event)
    requires Inv(r)
    ensures Inv(StepOn(r, e)) && Forward(r, StepOn(r, e))
    ensures r.phase == Done ==> StepOn(r, e) == r
  {
    if r.phase != Done {
      if Steering(e) {
        SteerInv(r, e);
      } else {
        match e
        case StepDue => if r.phase == Running { StepDueInv(r); }
        case StepRpc(n) => StepRpcInv(r, n);
        case SeekRpc(t) => SeekRpcInv(r, t);
      }
    }
  }

  lemma SteerInv(r: Runner, e: Event)
    requires Inv(r) && r.phase != Done && Steering(e)
    ensures Inv(Steer(r, e)) && Forward(r, Steer(r, e))
  {
    EnterInv(r);
  }

  ghost function Run(r: Runner, es: seq<Event>): (r': Runner)
    requires Inv(r)
    ensures Inv(r') && r'.timeline == r.timeline
  {
    if es == [] then r
    else
      var before := Run(r, es[..|es| - 1]);
      StepOnInv(before, es[|es| - 1]);
      StepOn(before, es[|es| - 1])
  }

  lemma LoadedInv(timeline: seq<Step>)
    requires forall x :: x in timeline ==> x.at >= 0.0
    ensures Inv(Loaded(timeline))
  {
    StageSorts(timeline);
    var staged := Stage(timeline);
    if staged != [] {
      assert staged[0] in multiset(staged);
      assert staged[0] in timeline;
    }
  }

  lemma {:induction false} RunMonotone(r: Runner, es: seq<Event>, n: nat)
    requires Inv(r) && n <= |es|
    ensures Forward(Run(r, es[..n]), Run(r, es))
    ensures Run(r, es[..n]).phase == Done ==> Run(r, es) == Run(r, es[..n])
    decreases |es|
  {
    if n == |es| {
      assert es[..n] == es;
    } else {
      var front := es[..|es| - 1];
      assert front[..n] == es[..n];
      RunMonotone(r, front, n);
      StepForward(Run(r, es[..n]), Run(r, front), es[|es| - 1]);
    }
  }

  lemma StepForward(x: Runner, y: Runner, e: Event)
    requires Inv(y) && Forward(x, y) && (x.phase == Done ==> y == x)
    ensures Forward(x, StepOn(y, e)) && (x.phase == Done ==> StepOn(y, e) == x)
  {
    StepOnInv(y, e);
    ForwardTransitive(x, y, StepOn(y, e));
  }

  lemma ForwardTransitive(x: Runner, y: Runner, z: Runner)
    requires Forward(x, y) && Forward(y, z)
    ensures Forward(x, z)
  {}

  /**
    Under any interleaving of autoplay, step, seek, pause, resume, abort, stop and reconnect: the dispatched steps
    are exactly a prefix of the staged timeline; the clock lies between the last one and the next one,
    so an armed delay is the true distance and the clamp at zero never acts; nothing is ever undone; and
    once Done nothing changes any more.
   */
  lemma PlayedPrefix(timeline: seq<Step>, a: seq<Event>, b: seq<Event>)
    requires forall x :: x in timeline ==> x.at >= 0.0
    ensures Inv(Loaded(timeline))
    ensures var x, y := Run(Loaded(timeline), a), Run(Loaded(timeline), a + b);
            && x.timeline == Stage(timeline) && x.next <= |x.timeline| && x.dispatched == x.timeline[..x.next]
            && (forall i :: 0 <= i < x.next ==> x.timeline[i].at <= x.clock)
            && (forall i :: x.next <= i < |x.timeline| ==> x.clock <= x.timeline[i].at)
            && (x.stepDue.Some? ==> x.next < |x.timeline| && x.stepDue.value == x.timeline[x.next].at - x.clock >= 0.0)
            && Forward(x, y) && (x.phase == Done ==> y == x)
  {
    LoadedInv(timeline);
    assert (a + b)[..|a|] == a;
    RunMonotone(Loaded(timeline), a + b, |a|);
    PlacedAround(Run(Loaded(timeline), a));
  }

  lemma PlacedAround(r: Runner)
    requires Placed(r)
    ensures forall i :: 0 <= i < r.next ==> r.timeline[i].at <= r.clock
    ensures forall i :: r.next <= i < |r.timeline| ==> r.clock <= r.timeline[i].at
  {}

  // ---------------------------------------------------------------------------------------------
  // Composition of steps and seeks
  // ---------------------------------------------------------------------------------------------

  lemma AdvanceAdvance(r: Runner, j: nat, k: nat)
    requires r.next + j + k <= |r.timeline|
    ensures Advance(Advance(r, j), k) == Advance(r, j + k)
  {
    assert r.dispatched + r.timeline[r.next..r.next + j] + r.timeline[r.next + j..r.next + j + k]
        == r.dispatched + r.timeline[r.next..r.next + j + k];
  }

  /** step(m) then step(n) is step(m + n), and the executed counts add up. */
  lemma StepsAdd(r: Runner, m: nat, n: nat)
    requires r.next <= |r.timeline|
    ensures StepSync(StepSync(r, m), n) == StepSync(r, m + n)
    ensures Executed(r, m) + Executed(StepSync(r, m), n) == Executed(r, m + n)
  {
    AdvanceAdvance(r.(stepDue := None), Executed(r, m), Executed(StepSync(r, m), n));
  }

  lemma {:induction false} DueSplits(timeline: seq<Step>, i: nat, a: real, b: real)
    requires i <= |timeline| && a <= b
    ensures DueFrom(timeline, i, a) + DueFrom(timeline, i + DueFrom(timeline, i, a), b) == DueFrom(timeline, i, b)
    decreases |timeline| - i
  {
    if i < |timeline| && timeline[i].at <= a { DueSplits(timeline, i + 1, a, b); }
  }

  function Later(a: real, b: real): real { if a < b then b else a }

  /** Advancing and setting the clock, twice. */
  lemma AdvanceAndSetTwice(r: Runner, j: nat, k: nat, a: real, b: real)
    requires r.next + j + k <= |r.timeline|
    ensures Advance(Advance(r, j).(clock := a), k).(clock := b) == Advance(r, j + k).(clock := b)
  {
    assert r.dispatched + r.timeline[r.next..r.next + j] + r.timeline[r.next + j..r.next + j + k]
        == r.dispatched + r.timeline[r.next..r.next + j + k];
  }

  lemma SeekForward(r: Runner, t: real, k: nat)
    requires r.next <= |r.timeline| && r.clock <= t && k == DueFrom(r.timeline, r.next, t)
    ensures SeekSync(r, t) == Advance(r.(stepDue := None), k).(clock := t)
  {}

  lemma ForwardSeeksCompose(r: Runner, a: real, b: real)
    requires r.next <= |r.timeline| && r.clock <= a <= b
    ensures SeekSync(SeekSync(r, a), b) == SeekSync(r, b)
  {
    var j := DueFrom(r.timeline, r.next, a);
    var k := DueFrom(r.timeline, r.next + j, b);
    SeekForward(r, a, j);
    SecondSeek(r.(stepDue := None), j, k, a, b);
    OneSeek(r, j, k, a, b);
  }

  lemma OneSeek(r: Runner, j: nat, k: nat, a: real, b: real)
    requires r.next <= |r.timeline| && r.clock <= a <= b
    requires j == DueFrom(r.timeline, r.next, a) && k == DueFrom(r.timeline, r.next + j, b)
    ensures SeekSync(r, b) == Advance(r.(stepDue := None), j + k).(clock := b)
  {
    DueSplits(r.timeline, r.next, a, b);
    SeekForward(r, b, j + k);
  }

  /** A forward seek from where another one stopped. */
  lemma SecondSeek(r: Runner, j: nat, k: nat, a: real, b: real)
    requires r.next + j <= |r.timeline| && r.stepDue.None? && a <= b
    requires k == DueFrom(r.timeline, r.next + j, b)
    ensures SeekSync(Advance(r, j).(clock := a), b) == Advance(r, j + k).(clock := b)
  {
    var x := Advance(r, j).(clock := a);
    SeekForward(x, b, k);
    assert x.(stepDue := None) == x;
    AdvanceAndSetTwice(r, j, k, a, b);
  }

  /** seek(a) then seek(b) is seek to the later of the two. */
  lemma SeeksCompose(r: Runner, a: real, b: real)
    requires r.next <= |r.timeline|
    ensures SeekSync(SeekSync(r, a), b) == SeekSync(r, Later(a, b))
  {
    if r.clock <= a <= b { ForwardSeeksCompose(r, a, b); }
  }

  /** A forward seek is single steps up to the target, then setting the clock. */
  lemma SeekIsSteps(r: Runner, t: real)
    requires Inv(r) && r.clock <= t
    ensures SeekSync(r, t) == StepSync(r, DueFrom(r.timeline, r.next, t)).(clock := t)
    ensures forall i :: 0 <= i < |r.timeline| ==>
              (r.next <= i < SeekSync(r, t).next <==> r.next <= i && r.timeline[i].at <= t)
  {
    DueFromSpec(r.timeline, r.next, t);
  }

  // ---------------------------------------------------------------------------------------------
  // What each event does
  // ---------------------------------------------------------------------------------------------

  /** Executing the next step: dispatched, the clock on it, one further along. */
  predicate ExecutedOne(r: Runner, r': Runner)
    requires r.next < |r.timeline|
  {
    && r'.timeline == r.timeline && r'.next == r.next + 1
    && r'.dispatched == r.dispatched + [r.timeline[r.next]]
    && r'.clock == r.timeline[r.next].at
  }

  function EndLabel(r: Runner): Label { if r.aborted then LAborted else LDone }

  /**
    A StepDue of the running scenario executes exactly the next step and publishes progress; then the
    timer is armed for the following one, or the scenario is done after the last.
   */
  lemma AutoplayStep(r: Runner)
    requires Inv(r) && r.phase == Running && r.next < |r.timeline|
    ensures var r', last := StepOn(r, StepDue), r.next + 1 == |r.timeline|;
            && ExecutedOne(r, r') && r'.aborted == r.aborted
            && r'.phase == (if last then Done else Running)
            && r'.log == r.log + [Progress(LRunning, r'.clock, last)] + (if last then [Progress(EndLabel(r), r'.clock, true)] else [])
            && r'.stepDue == (if last then None else Some(r.timeline[r.next + 1].at - r.timeline[r.next].at))
  {
    assert r.timeline[r.next..r.next + 1] == [r.timeline[r.next]];
  }

  /** `n` StepDue timers in a row. */
  function Ticks(n: nat): seq<Event> { seq(n, i => StepDue) }

  /** Autoplay has executed exactly the first `k` steps. */
  ghost predicate PlayedTo(r: Runner, staged: seq<Step>, k: nat) {
    && k <= |staged| && r.timeline == staged && r.next == k && r.dispatched == staged[..k] && !r.aborted
    && r.phase == if k == |staged| then Done else Running
  }

  lemma PlaysOn(r: Runner, staged: seq<Step>, k: nat)
    requires Inv(r) && k < |staged| && PlayedTo(r, staged, k)
    ensures PlayedTo(StepOn(r, StepDue), staged, k + 1)
  {
    AutoplayStep(r);
    assert staged[..k + 1] == staged[..k] + [staged[k]];
  }

  lemma StartPlays(timeline: seq<Step>)
    requires (forall x :: x in timeline ==> x.at >= 0.0) && Stage(timeline) != []
    ensures Inv(Loaded(timeline)) && PlayedTo(Run(Loaded(timeline), [Start]), Stage(timeline), 0)
  {
    LoadedInv(timeline);
    assert [Start][..0] == [] && Run(Loaded(timeline), []) == Loaded(timeline);
  }

  lemma TicksGrow(k: nat)
    requires k > 0
    ensures [Start] + Ticks(k) == ([Start] + Ticks(k - 1)) + [StepDue]
  {
    assert Ticks(k) == Ticks(k - 1) + [StepDue];
  }

  lemma {:induction false} AutoplayReaches(timeline: seq<Step>, k: nat)
    requires (forall x :: x in timeline ==> x.at >= 0.0) && k <= |Stage(timeline)| && Stage(timeline) != []
    ensures Inv(Loaded(timeline)) && PlayedTo(Run(Loaded(timeline), [Start] + Ticks(k)), Stage(timeline), k)
    decreases k
  {
    StartPlays(timeline);
    if k == 0 {
      assert [Start] + Ticks(0) == [Start];
    } else {
      AutoplayReaches(timeline, k - 1);
      var before := [Start] + Ticks(k - 1);
      TicksGrow(k);
      RunLast(Loaded(timeline), before, StepDue);
      PlaysOn(Run(Loaded(timeline), before), Stage(timeline), k - 1);
    }
  }

  lemma RunLast(r: Runner, es: seq<Event>, e: Event)
    requires Inv(r)
    ensures Run(r, es + [e]) == StepOn(Run(r, es), e)
  {
    assert (es + [e])[..|es + [e]| - 1] == es;
  }

  /** Started and left alone, a scenario dispatches its whole staged timeline in order and is done. */
  lemma AutoplayCompletes(timeline: seq<Step>)
    requires forall x :: x in timeline ==> x.at >= 0.0
    ensures Inv(Loaded(timeline))
    ensures var r := Run(Loaded(timeline), [Start] + Ticks(|timeline|));
            r.phase == Done && r.dispatched == Stage(timeline) && !r.aborted
  {
    LoadedInv(timeline);
    StageLength(timeline);
    if timeline == [] {
      EmptyPlays();
      assert [Start] + Ticks(0) == [Start];
    } else {
      AutoplayReaches(timeline, |timeline|);
    }
  }

  lemma StageLength(timeline: seq<Step>)
    ensures |Stage(timeline)| == |timeline|
  {
    StageSorts(timeline);
    assert |Stage(timeline)| == |multiset(Stage(timeline))| == |timeline|;
  }

  lemma EmptyPlays()
    ensures Inv(Loaded([]))
    ensures Run(Loaded([]), [Start]).phase == Done && Run(Loaded([]), [Start]).dispatched == [] == Stage([])
    ensures !Run(Loaded([]), [Start]).aborted
  {
    LoadedInv([]);
    StageLength([]);
    assert [Start][..0] == [] && Run(Loaded([]), []) == Loaded([]);
  }

  /** Which state each event leads to. */
  function NextPhase(r: Runner, e: Event): Phase {
    match e
    case Start => if r.phase != Idle then r.phase else if r.next == |r.timeline| then Done else Running
    case Stop => Done
    case StepDue => if r.phase == Running && r.next + 1 >= |r.timeline| then Done else r.phase
    case Pause => if r.phase == Running then Paused else r.phase
    case Resume =>
      if r.phase != Paused || r.aborted then r.phase else if r.next == |r.timeline| then Done else Running
    case _ => r.phase
  }

  lemma PhasesFollowed(r: Runner, e: Event)
    requires Inv(r) && r.phase != Done
    ensures StepOn(r, e).phase == NextPhase(r, e)
  {
    if !Steering(e) {
      match e
      case StepDue =>
      case StepRpc(n) => StepRequestEffects(r, n);
      case SeekRpc(t) => SeekRequestEffects(r, t);
    }
  }

  /**
    Steering plays nothing: it at most changes the state, publishing where that leaves the scenario, and
    an abort request is remembered and posts a stop. An event the state does not know changes nothing.
   */
  lemma SteeringEffects(r: Runner, e: Event)
    requires Inv(r) && r.phase != Done && Steering(e)
    ensures var r', phase := StepOn(r, e), NextPhase(r, e);
            && r'.next == r.next && r'.dispatched == r.dispatched && r'.clock == r.clock && r'.timeline == r.timeline
            && (r'.aborted <==> r.aborted || e.AbortRpc?)
            && r'.stopsPosted == r.stopsPosted + (if e.AbortRpc? then 1 else 0)
            && r'.log == r.log +
                 if phase == r.phase && !e.Resubscribe? then []
                 else if r.aborted && (phase != Running || e.Resubscribe?) then [Progress(LAborted, r.clock, r.next == |r.timeline|)]
                 else [Progress(match phase case Idle => LPaused case Running => LRunning case Paused => LPaused case Done => LDone,
                                r.clock, r.next == |r.timeline|)]
  {}

  /** How many steps a request for `n` is good for. */
  function Clamped(n: int, left: nat): nat { if n <= 0 then 0 else if n <= left then n else left }

  /**
    A step request executes the next `n` steps, or as many as are left, whatever their times, and answers
    how many; at the end of the timeline it posts a stop.
   */
  lemma StepRequestEffects(r: Runner, n: int)
    requires Inv(r) && r.phase != Done
    ensures var k, r' := Clamped(n, |r.timeline| - r.next), StepOn(r, StepRpc(n));
            && r'.next == r.next + k && r'.dispatched == r.dispatched + r.timeline[r.next..r.next + k]
            && r'.clock == (if k == 0 then r.clock else r.timeline[r.next + k - 1].at)
            && r'.phase == r.phase && r'.aborted == r.aborted
            && r'.log == r.log + [StepRsp(k, r'.clock, r.next + k == |r.timeline|)]
            && r'.stopsPosted == r.stopsPosted + (if r.next + k == |r.timeline| then 1 else 0)
  {
    ClampedIsExecuted(r, n);
  }

  lemma ClampedIsExecuted(r: Runner, n: int)
    requires r.next <= |r.timeline|
    ensures Executed(r, n) == Clamped(n, |r.timeline| - r.next)
  {}

  /**
    A seek request forward executes the steps due by its target and sets the clock to it; a backward one
    plays nothing. Either answers the clock and posts a stop at the end of the timeline.
   */
  lemma SeekRequestEffects(r: Runner, t: real)
    requires Inv(r) && r.phase != Done
    ensures var r' := StepOn(r, SeekRpc(t));
            && r'.phase == r.phase && r'.aborted == r.aborted && r.next <= r'.next <= |r.timeline|
            && r'.clock == (if t < r.clock then r.clock else t)
            && r'.dispatched == r.dispatched + r.timeline[r.next..r'.next]
            && (t < r.clock ==> r'.next == r.next)
            && (t >= r.clock ==> forall i :: r.next <= i < |r.timeline| ==> (i < r'.next <==> r.timeline[i].at <= t))
            && r'.log == r.log + [SeekRsp(r'.clock)]
            && r'.stopsPosted == r.stopsPosted + (if r'.next == |r.timeline| then 1 else 0)
  {
    if t >= r.clock { DueFromSpec(r.timeline, r.next, t); }
  }
}
