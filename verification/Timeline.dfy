/** Staging a scenario timeline: the stable sort by time, and the ownership filter that splits it. */
module Timeline {
  import opened Common

  datatype Step = Step(at: real, action: string, args: string)

  ghost predicate Sorted(s: seq<Step>) {
    forall i, j :: 0 <= i < j < |s| ==> s[i].at <= s[j].at
  }

  /** Before the first step that is not earlier: equal times keep their order. */
  function Insert(x: Step, s: seq<Step>): seq<Step> {
    if s == [] || x.at <= s[0].at then [x] + s else [s[0]] + Insert(x, s[1..])
  }

  /** The timeline sorted by time, steps at equal times in file order. */
  function Stage(s: seq<Step>): seq<Step> {
    if s == [] then [] else Insert(s[0], Stage(s[1..]))
  }

  // ---------------------------------------------------------------------------------------------
  // Stage is the stable sort, and the only one
  // ---------------------------------------------------------------------------------------------

  lemma {:induction false} InsertPermutes(x: Step, s: seq<Step>)
    ensures multiset(Insert(x, s)) == multiset{x} + multiset(s)
    ensures forall y :: y in Insert(x, s) <==> y == x || y in s
    decreases |s|
  {
    if s != [] && x.at > s[0].at {
      InsertPermutes(x, s[1..]);
      assert s == [s[0]] + s[1..];
    }
  }

  lemma {:induction false} InsertSorted(x: Step, s: seq<Step>)
    requires Sorted(s)
    ensures Sorted(Insert(x, s))
    decreases |s|
  {
    if s != [] && x.at > s[0].at {
      InsertSorted(x, s[1..]);
      InsertPermutes(x, s[1..]);
      var rest := Insert(x, s[1..]);
      forall i | 0 <= i < |rest| ensures s[0].at <= rest[i].at { assert rest[i] in rest; }
    }
  }

  lemma {:induction false} StageSorts(s: seq<Step>)
    ensures Sorted(Stage(s)) && multiset(Stage(s)) == multiset(s)
    decreases |s|
  {
    if s != [] {
      StageSorts(s[1..]);
      InsertSorted(s[0], Stage(s[1..]));
      InsertPermutes(s[0], Stage(s[1..]));
      assert s == [s[0]] + s[1..];
    }
  }

  /** Filtering an insertion: the step goes to the same place among those kept, or vanishes. */
  lemma {:induction false} FilterInsert(keep: Step -> bool, x: Step, s: seq<Step>)
    requires Sorted(s)
    ensures Filter(keep, Insert(x, s)) == if keep(x) then Insert(x, Filter(keep, s)) else Filter(keep, s)
    decreases |s|
  {
    if s == [] || x.at <= s[0].at {
      assert ([x] + s)[1..] == s;
      if keep(x) { InsertFirst(x, Filter(keep, s), s); }
    } else {
      assert ([s[0]] + Insert(x, s[1..]))[1..] == Insert(x, s[1..]);
      FilterInsert(keep, x, s[1..]);
      if keep(s[0]) {
        assert ([s[0]] + Filter(keep, s[1..]))[1..] == Filter(keep, s[1..]);
      }
    }
  }

  lemma InsertFirst(x: Step, kept: seq<Step>, s: seq<Step>)
    requires Sorted(s) && (s == [] || x.at <= s[0].at) && forall y :: y in kept ==> y in s
    ensures Insert(x, kept) == [x] + kept
  {
    if kept != [] { assert kept[0] in s; }
  }

  /** Staging and filtering commute. */
  lemma {:induction false} FilterCommutesWithStage(keep: Step -> bool, s: seq<Step>)
    ensures Stage(Filter(keep, s)) == Filter(keep, Stage(s))
    decreases |s|
  {
    if s != [] {
      FilterCommutesWithStage(keep, s[1..]);
      StageSorts(s[1..]);
      FilterInsert(keep, s[0], Stage(s[1..]));
      if keep(s[0]) {
        assert ([s[0]] + Filter(keep, s[1..]))[1..] == Filter(keep, s[1..]);
      }
    }
  }

  function AtTime(t: real, s: seq<Step>): seq<Step> { Filter((x: Step) => x.at == t, s) }

  /** Steps at one time keep their file order. */
  lemma StageStable(s: seq<Step>, t: real)
    ensures AtTime(t, Stage(s)) == AtTime(t, s)
  {
    var now := (x: Step) => x.at == t;
    FilterCommutesWithStage(now, s);
    StageOfEqual(AtTime(t, s), t);
  }

  lemma {:induction false} StageOfEqual(s: seq<Step>, t: real)
    requires forall x :: x in s ==> x.at == t
    ensures Stage(s) == s
    decreases |s|
  {
    if s != [] {
      StageOfEqual(s[1..], t);
      assert s[0] in s;
      assert forall x :: x in s[1..] ==> x in s;
      assert s == [s[0]] + s[1..];
    }
  }

  ghost predicate SameAtEveryTime(a: seq<Step>, b: seq<Step>) {
    forall t: real :: AtTime(t, a) == AtTime(t, b)
  }

  lemma HeadClass(a: seq<Step>)
    requires a != []
    ensures AtTime(a[0].at, a) != [] && AtTime(a[0].at, a)[0] == a[0]
  {}

  /** Equal classes of a non-empty sorted timeline: the other one is non-empty too, with the same head. */
  lemma HeadsAgree(a: seq<Step>, b: seq<Step>)
    requires Sorted(a) && Sorted(b) && a != [] && SameAtEveryTime(a, b)
    ensures b != [] && a[0] == b[0]
  {
    HeadClass(a);
    assert AtTime(a[0].at, a) == AtTime(a[0].at, b);
    assert AtTime(a[0].at, b)[0] in b;
    HeadClass(b);
    assert AtTime(b[0].at, b) == AtTime(b[0].at, a);
    assert AtTime(b[0].at, a)[0] in a;
  }

  lemma TailsAgree(a: seq<Step>, b: seq<Step>)
    requires a != [] && b != [] && a[0] == b[0] && SameAtEveryTime(a, b)
    ensures SameAtEveryTime(a[1..], b[1..])
  {
    forall t: real ensures AtTime(t, a[1..]) == AtTime(t, b[1..]) {
      assert AtTime(t, a) == AtTime(t, b);
      if a[0].at == t {
        assert AtTime(t, a)[1..] == AtTime(t, a[1..]) && AtTime(t, b)[1..] == AtTime(t, b[1..]);
      }
    }
  }

  lemma {:induction false} SortedClassesDetermine(a: seq<Step>, b: seq<Step>)
    requires Sorted(a) && Sorted(b) && SameAtEveryTime(a, b)
    ensures a == b
    decreases |a| + |b|
  {
    if a != [] {
      HeadsAgree(a, b);
      TailsAgree(a, b);
      SortedClassesDetermine(a[1..], b[1..]);
      assert a == [a[0]] + a[1..] && b == [b[0]] + b[1..];
    } else if b != [] {
      HeadsAgree(b, a);
    }
  }

  /** Any stable sort of the timeline is Stage: sorted, with the same steps in the same order at each time. */
  lemma StageUnique(s: seq<Step>, r: seq<Step>)
    requires Sorted(r) && SameAtEveryTime(r, s)
    ensures r == Stage(s)
  {
    StageSorts(s);
    forall t: real ensures AtTime(t, r) == AtTime(t, Stage(s)) { StageStable(s, t); }
    SortedClassesDetermine(r, Stage(s));
  }

  // ---------------------------------------------------------------------------------------------
  // Ownership
  // ---------------------------------------------------------------------------------------------

  /** The text before the first dot of an action name, or all of it. */
  function Domain(action: string): string {
    if action == "" || action[0] == '.' then "" else [action[0]] + Domain(action[1..])
  }

  type Owners = map<string, set<string>>

  predicate Owns(owners: Owners, process: string, x: Step) {
    process in owners && Domain(x.action) in owners[process]
  }

  /** A process without an entry keeps every step. */
  function FilterByOwner(timeline: seq<Step>, owners: Owners, process: string): seq<Step> {
    if process !in owners then timeline else Filter(x => Owns(owners, process, x), timeline)
  }

  /** What a process stages: its own part of the globally staged timeline, in the global order. */
  lemma StagedPartIsPartOfStaged(timeline: seq<Step>, owners: Owners, process: string)
    ensures Stage(FilterByOwner(timeline, owners, process)) == FilterByOwner(Stage(timeline), owners, process)
  {
    if process in owners { FilterCommutesWithStage(x => Owns(owners, process, x), timeline); }
  }

  /** The steps that a list of processes stages between them. */
  function StagedBetween(timeline: seq<Step>, owners: Owners, processes: seq<string>): multiset<Step> {
    if processes == [] then multiset{}
    else multiset(Stage(FilterByOwner(timeline, owners, processes[0])))
         + StagedBetween(timeline, owners, processes[1..])
  }

  predicate SomeOwns(owners: Owners, processes: seq<string>, x: Step) {
    exists i :: 0 <= i < |processes| && Owns(owners, processes[i], x)
  }

  ghost predicate DisjointOwners(owners: Owners, processes: seq<string>) {
    && (forall i :: 0 <= i < |processes| ==> processes[i] in owners)
    && (forall i, j :: 0 <= i < j < |processes| ==> owners[processes[i]] !! owners[processes[j]])
  }

  lemma {:induction false} FilterOr(p: Step -> bool, q: Step -> bool, r: Step -> bool, s: seq<Step>)
    requires forall x :: x in s ==> (r(x) <==> p(x) || q(x)) && !(p(x) && q(x))
    ensures multiset(Filter(r, s)) == multiset(Filter(p, s)) + multiset(Filter(q, s))
    decreases |s|
  {
    if s != [] {
      assert s[0] in s && forall x :: x in s[1..] ==> x in s;
      FilterOr(p, q, r, s[1..]);
    }
  }

  lemma {:induction false} StagedBetweenIsOwned(timeline: seq<Step>, owners: Owners, processes: seq<string>)
    requires DisjointOwners(owners, processes)
    ensures StagedBetween(timeline, owners, processes)
            == multiset(Filter(x => SomeOwns(owners, processes, x), timeline))
    decreases |processes|
  {
    var some := (x: Step) => SomeOwns(owners, processes, x);
    if processes == [] {
      if Filter(some, timeline) != [] { assert Filter(some, timeline)[0] in Filter(some, timeline); }
    } else {
      var first, rest := processes[0], processes[1..];
      var p, q := (x: Step) => Owns(owners, first, x), (x: Step) => SomeOwns(owners, rest, x);
      StageSorts(FilterByOwner(timeline, owners, first));
      StagedBetweenIsOwned(timeline, owners, rest);
      forall x | x in timeline ensures (some(x) <==> p(x) || q(x)) && !(p(x) && q(x)) {
        if q(x) {
          var i :| 0 <= i < |rest| && Owns(owners, rest[i], x);
          assert processes[i + 1] == rest[i];
          assert owners[processes[0]] !! owners[processes[i + 1]];
        }
        if some(x) && !p(x) {
          var i :| 0 <= i < |processes| && Owns(owners, processes[i], x);
          assert rest[i - 1] == processes[i];
        }
      }
      FilterOr(p, q, some, timeline);
    }
  }

  /**
    Processes whose domains are disjoint and cover the timeline hold, between them, every step exactly
    as often as the scenario does; and each holds its own in the global order.
   */
  lemma ProcessesPartitionTimeline(timeline: seq<Step>, owners: Owners, processes: seq<string>)
    requires DisjointOwners(owners, processes)
    requires forall x :: x in timeline ==> SomeOwns(owners, processes, x)
    ensures StagedBetween(timeline, owners, processes) == multiset(Stage(timeline))
    ensures forall i :: 0 <= i < |processes| ==>
              Stage(FilterByOwner(timeline, owners, processes[i])) == FilterByOwner(Stage(timeline), owners, processes[i])
  {
    StagedBetweenIsOwned(timeline, owners, processes);
    StageSorts(timeline);
    KeepAll(x => SomeOwns(owners, processes, x), timeline);
    forall i | 0 <= i < |processes|
      ensures Stage(FilterByOwner(timeline, owners, processes[i])) == FilterByOwner(Stage(timeline), owners, processes[i])
    {
      StagedPartIsPartOfStaged(timeline, owners, processes[i]);
    }
  }

  lemma {:induction false} KeepAll(keep: Step -> bool, s: seq<Step>)
    requires forall x :: x in s ==> keep(x)
    ensures Filter(keep, s) == s
    decreases |s|
  {
    if s != [] {
      assert s[0] in s && forall x :: x in s[1..] ==> x in s;
      KeepAll(keep, s[1..]);
      assert s == [s[0]] + s[1..];
    }
  }
}
