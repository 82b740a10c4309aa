/** The profile store: id allocation, default references, and the snapshot that survives a restart. */
module ProfileModel {
  import opened Common

  const MAX_PROFILES := 32

  datatype Profile = Profile(
    id: int, profileName: string, apn: string, userName: string, password: string, techPref: string,
    authType: string, ipFamilyType: string, apnTypes: int, emergencyAllowed: string, clatEnabled: bool,
    isDefault: bool)

  /** A request body: absent fields are None. */
  datatype Patch = Patch(
    profileName: Option<string>, apn: Option<string>, userName: Option<string>, password: Option<string>,
    techPref: Option<string>, authType: Option<string>, ipFamilyType: Option<string>, apnTypes: Option<int>,
    emergencyAllowed: Option<string>, clatEnabled: Option<bool>)

  datatype SeedProfile = SeedProfile(
    profileId: int, apn: string, ipFamily: string, authType: string, username: string, password: string,
    techType: string, isDefault: bool)

  /** What is written to disk: the profiles in no particular order, and the defaults by operation type. */
  datatype Snapshot = Snapshot(profiles: set<Profile>, defaults: map<string, int>)

  datatype Store = Store(profiles: map<int, Profile>, defaults: map<string, int>, disk: Option<Snapshot>)

  datatype Op =
    | SeedAll(seeds: seq<SeedProfile>)
    | SetDefault(opType: string, defaultId: int)
    | Create(data: Patch)
    | Modify(id: int, changes: Patch)
    | Delete(id: int)

  datatype Outcome = Done | Created(id: int) | InvalidArguments | NoResources

  const Empty := Store(map[], map[], None)

  function Get<T>(o: Option<T>, d: T): T { if o.Some? then o.value else d }

  function TechPref(techType: string): string {
    if techType == "3GPP2" then "TP_3GPP2" else if techType == "ANY" then "TP_ANY" else "TP_3GPP"
  }

  function AuthType(authType: string): string {
    if authType == "PAP" then "AUTH_PAP" else if authType == "CHAP" then "AUTH_CHAP"
    else if authType == "PAP_CHAP" then "AUTH_PAP_CHAP" else "AUTH_NONE"
  }

  function Seeded(sp: SeedProfile): Profile {
    Profile(sp.profileId, "", sp.apn, sp.username, sp.password, TechPref(sp.techType), AuthType(sp.authType),
            sp.ipFamily, 0, "UNSPECIFIED", false, sp.isDefault)
  }

  function NewProfile(id: int, d: Patch): Profile {
    Profile(id, Get(d.profileName, ""), Get(d.apn, ""), Get(d.userName, ""), Get(d.password, ""),
            Get(d.techPref, "UNKNOWN"), Get(d.authType, "AUTH_NONE"), Get(d.ipFamilyType, "UNKNOWN"),
            Get(d.apnTypes, 0), Get(d.emergencyAllowed, "UNSPECIFIED"), Get(d.clatEnabled, false), false)
  }

  function Modified(id: int, p: Profile, d: Patch): Profile {
    Profile(id, Get(d.profileName, p.profileName), Get(d.apn, p.apn), Get(d.userName, p.userName),
            Get(d.password, p.password), Get(d.techPref, p.techPref), Get(d.authType, p.authType),
            Get(d.ipFamilyType, p.ipFamilyType), Get(d.apnTypes, p.apnTypes),
            Get(d.emergencyAllowed, p.emergencyAllowed), Get(d.clatEnabled, p.clatEnabled), p.isDefault)
  }

  // ---------------------------------------------------------------------------------------------
  // Snapshot and reload
  // ---------------------------------------------------------------------------------------------

  function SnapshotOf(s: Store): Snapshot {
    Snapshot(set id | id in s.profiles :: s.profiles[id], s.defaults)
  }

  /** No two profiles of a snapshot share an id. */
  predicate Keyed(snap: Snapshot) {
    forall p, q :: p in snap.profiles && q in snap.profiles && p.id == q.id ==> p == q
  }

  /** What loading a snapshot gives: profiles keyed by their own id. */
  function Reloaded(snap: Snapshot): (map<int, Profile>, map<string, int>)
    requires Keyed(snap)
  {
    (map p | p in snap.profiles :: p.id := p, snap.defaults)
  }

  /** What a file's list of profiles loads as: keyed by their ids, a later one replacing an earlier one. */
  function LoadList(list: seq<Profile>): map<int, Profile> {
    if list == [] then map[]
    else
      var last := list[|list| - 1];
      LoadList(list[..|list| - 1])[last.id := last]
  }

  lemma {:induction false} LoadListHolds(list: seq<Profile>)
    ensures forall id :: id in LoadList(list) ==> LoadList(list)[id] in list && LoadList(list)[id].id == id
    ensures forall p :: p in list ==> p.id in LoadList(list)
  {
    if list != [] {
      LoadListHolds(list[..|list| - 1]);
      assert list == list[..|list| - 1] + [list[|list| - 1]];
    }
  }

  /** A snapshot without repeated ids loads the same in whatever order the file lists it. */
  lemma AnyListingLoads(list: seq<Profile>, snap: Snapshot)
    requires Keyed(snap) && forall p :: p in list <==> p in snap.profiles
    ensures LoadList(list) == Reloaded(snap).0
  {
    LoadListHolds(list);
    var a, b := LoadList(list), Reloaded(snap).0;
    forall id | id in a ensures id in b && b[id] == a[id] { assert a[id] in snap.profiles; }
    forall id | id in b ensures id in a { assert b[id] in list; }
    assert a.Keys == b.Keys;
  }

  /** Every profile is stored under its own id and every default names a stored profile. */
  ghost predicate Coherent(profiles: map<int, Profile>, defaults: map<string, int>) {
    && (forall id :: id in profiles ==> profiles[id].id == id)
    && (forall op :: op in defaults ==> defaults[op] in profiles)
  }

  /** What is on disk, if anything, loads without losing a profile. */
  ghost predicate Readable(s: Store) { s.disk.Some? ==> Keyed(s.disk.value) }

  /** Memory is coherent, and so is what a reload would bring. */
  ghost predicate Inv(s: Store) {
    && Coherent(s.profiles, s.defaults)
    && Readable(s)
    && (s.disk.Some? ==> Coherent(Reloaded(s.disk.value).0, Reloaded(s.disk.value).1))
  }

  /** Reloading the snapshot of a store gives exactly its profiles and defaults. */
  lemma ReloadRoundTrip(s: Store)
    requires Coherent(s.profiles, s.defaults)
    ensures Keyed(SnapshotOf(s)) && Reloaded(SnapshotOf(s)) == (s.profiles, s.defaults)
  {
    var back := Reloaded(SnapshotOf(s)).0;
    forall id | id in s.profiles ensures id in back && back[id] == s.profiles[id] {
      assert s.profiles[id] in SnapshotOf(s).profiles;
    }
    assert back == s.profiles;
  }

  // ---------------------------------------------------------------------------------------------
  // Operations
  // ---------------------------------------------------------------------------------------------

  /** A failed write is swallowed: the change stays in memory and the old snapshot on disk. */
  function Persist(s: Store, written: bool): Store {
    if written then s.(disk := Some(SnapshotOf(s))) else s
  }

  function SeedOne(s: Store, sp: SeedProfile): Store {
    s.(profiles := s.profiles[sp.profileId := Seeded(sp)],
       defaults := if sp.isDefault then s.defaults["DATA_LOCAL" := sp.profileId] else s.defaults)
  }

  function SeedFrom(s: Store, seeds: seq<SeedProfile>): Store {
    if seeds == [] then s else SeedOne(SeedFrom(s, seeds[..|seeds| - 1]), seeds[|seeds| - 1])
  }

  /** The least id from `i` to 32 that is not taken. */
  function LeastFree(taken: set<int>, i: int): Option<int>
    decreases MAX_PROFILES + 1 - i
  {
    if i > MAX_PROFILES then None else if i !in taken then Some(i) else LeastFree(taken, i + 1)
  }

  function Step(s: Store, op: Op, written: bool): (Store, Outcome) {
    match op
    case SeedAll(seeds) => (Persist(SeedFrom(s, seeds), written), Done)
    case SetDefault(opType, id) =>
      if id !in s.profiles then (s, InvalidArguments)
      else (Persist(s.(defaults := s.defaults[opType := id]), written), Done)
    case Create(data) =>
      if |s.profiles| >= MAX_PROFILES then (s, NoResources)
      else
        var free := LeastFree(s.profiles.Keys, 1);
        if free.None? then (s, NoResources)
        else (Persist(s.(profiles := s.profiles[free.value := NewProfile(free.value, data)]), written), Created(free.value))
    case Modify(id, changes) =>
      if id !in s.profiles then (s, InvalidArguments)
      else (Persist(s.(profiles := s.profiles[id := Modified(id, s.profiles[id], changes)]), written), Done)
    case Delete(id) =>
      if id !in s.profiles then (s, InvalidArguments)
      else
        (Persist(s.(profiles := s.profiles - {id},
                    defaults := map op | op in s.defaults && s.defaults[op] != id :: s.defaults[op]), written), Done)
  }

  // ---------------------------------------------------------------------------------------------
  // Id allocation
  // ---------------------------------------------------------------------------------------------

  lemma {:induction false} LeastFreeSpec(taken: set<int>, i: int)
    ensures var r := LeastFree(taken, i);
            if r.None? then forall k :: i <= k <= MAX_PROFILES ==> k in taken
            else i <= r.value <= MAX_PROFILES && r.value !in taken && forall k :: i <= k < r.value ==> k in taken
    decreases MAX_PROFILES + 1 - i
  {
    if i <= MAX_PROFILES && i in taken { LeastFreeSpec(taken, i + 1); }
  }

  function Range(lo: int, hi: int): (r: set<int>)
    requires lo <= hi + 1
    ensures forall k :: k in r <==> lo <= k <= hi
    ensures |r| == hi + 1 - lo
    decreases hi + 1 - lo
  {
    if lo > hi then {} else {lo} + Range(lo + 1, hi)
  }

  lemma SubsetSize(a: set<int>, b: set<int>)
    requires a <= b
    ensures |a| <= |b|
  {
    assert b == a + (b - a);
  }

  /** With fewer than 32 profiles, whatever their ids, some id in 1..32 is free: by pigeonhole. */
  lemma FreeIdExists(taken: set<int>)
    requires |taken| < MAX_PROFILES
    ensures LeastFree(taken, 1).Some?
  {
    LeastFreeSpec(taken, 1);
    if LeastFree(taken, 1).None? {
      SubsetSize(Range(1, MAX_PROFILES), taken);
    }
  }

  /** Create fails exactly when 32 profiles exist; otherwise it returns the least free id in 1..32. */
  lemma CreateReturnsLeastFree(s: Store, data: Patch, written: bool)
    ensures var (s', out) := Step(s, Create(data), written);
            if |s.profiles| >= MAX_PROFILES then out == NoResources && s' == s
            else && out.Created? && 1 <= out.id <= MAX_PROFILES && out.id !in s.profiles
                 && (forall k :: 1 <= k < out.id ==> k in s.profiles)
                 && s'.profiles == s.profiles[out.id := NewProfile(out.id, data)]
  {
    if |s.profiles| < MAX_PROFILES {
      assert |s.profiles.Keys| == |s.profiles|;
      FreeIdExists(s.profiles.Keys);
      LeastFreeSpec(s.profiles.Keys, 1);
    }
  }

  // ---------------------------------------------------------------------------------------------
  // Every run
  // ---------------------------------------------------------------------------------------------

  lemma {:induction false} SeedCoherent(s: Store, seeds: seq<SeedProfile>)
    requires Coherent(s.profiles, s.defaults)
    ensures var s' := SeedFrom(s, seeds); Coherent(s'.profiles, s'.defaults) && s'.disk == s.disk
    decreases |seeds|
  {
    if seeds != [] { SeedCoherent(s, seeds[..|seeds| - 1]); }
  }

  /** Memory stays coherent, and the disk holds the new contents iff the operation succeeded and was written. */
  lemma StepCoherent(s: Store, op: Op, written: bool)
    requires Coherent(s.profiles, s.defaults)
    ensures var (s', out) := Step(s, op, written);
            && Coherent(s'.profiles, s'.defaults)
            && s'.disk == (if written && Succeeded(out) then Some(SnapshotOf(s')) else s.disk)
            && (!Succeeded(out) ==> s' == s)
  {
    match op
    case SeedAll(seeds) => SeedCoherent(s, seeds);
    case Create(data) => LeastFreeSpec(s.profiles.Keys, 1);
    case _ =>
  }

  predicate Succeeded(out: Outcome) { out.Done? || out.Created? }

  lemma StepInv(s: Store, op: Op, written: bool)
    requires Inv(s)
    ensures Inv(Step(s, op, written).0)
  {
    StepCoherent(s, op, written);
    ReloadRoundTrip(Step(s, op, written).0);
  }

  /** A reload now would restore the store exactly. */
  ghost predicate OnDisk(s: Store) {
    s.disk.Some? && Keyed(s.disk.value) && Reloaded(s.disk.value) == (s.profiles, s.defaults)
  }

  /** A successful change with a successful write is on disk; a refused one changes nothing. */
  lemma StepOnDisk(s: Store, op: Op)
    requires Coherent(s.profiles, s.defaults)
    ensures var (s', out) := Step(s, op, true);
            if Succeeded(out) then OnDisk(s') else s' == s
  {
    StepCoherent(s, op, true);
    ReloadRoundTrip(Step(s, op, true).0);
  }

  /** An operation whose write succeeds or fails, or a reload of the snapshot on disk. */
  datatype Action = Do(op: Op, written: bool) | Reload

  ghost function Act(s: Store, a: Action): Store
    requires Readable(s)
  {
    match a
    case Do(op, written) => Step(s, op, written).0
    case Reload =>
      if s.disk.None? then s
      else s.(profiles := Reloaded(s.disk.value).0, defaults := Reloaded(s.disk.value).1)
  }

  lemma ActInv(s: Store, a: Action)
    requires Inv(s)
    ensures Inv(Act(s, a))
  {
    if a.Do? { StepInv(s, a.op, a.written); }
  }

  ghost function Run(s: Store, acts: seq<Action>): (s': Store)
    requires Inv(s)
    ensures Inv(s')
  {
    if acts == [] then s
    else
      var before := Run(s, acts[..|acts| - 1]);
      ActInv(before, acts[|acts| - 1]);
      Act(before, acts[|acts| - 1])
  }

  /**
    After any operations and reloads, written or not: defaults name existing profiles, ids are keys,
    and a reload of what is on disk would leave both true.
   */
  lemma RunInv(acts: seq<Action>)
    ensures Inv(Empty)
    ensures var s := Run(Empty, acts);
            Coherent(s.profiles, s.defaults) && Coherent(Act(s, Reload).profiles, Act(s, Reload).defaults)
  {
    ActInv(Run(Empty, acts), Reload);
  }

  /** The action put a new snapshot on disk. */
  ghost predicate Writes(s: Store, a: Action) {
    a.Do? && a.written && Succeeded(Step(s, a.op, a.written).1)
  }

  /** How many actions a run had made when it last wrote successfully; 0 if it never did. */
  ghost function LastWrite(acts: seq<Action>): (n: nat)
    ensures n <= |acts|
  {
    if acts == [] then 0
    else if Writes(Run(Empty, acts[..|acts| - 1]), acts[|acts| - 1]) then |acts|
    else LastWrite(acts[..|acts| - 1])
  }

  /**
    Whatever writes failed in between, the disk holds the snapshot of the store as it was at the last
    successful write, and a reload brings exactly that store back.
   */
  lemma {:induction false} DiskIsLastWrite(acts: seq<Action>)
    ensures Inv(Empty)
    ensures var n, s := LastWrite(acts), Run(Empty, acts);
            var saved := Run(Empty, acts[..n]);
            && s.disk == (if n == 0 then None else Some(SnapshotOf(saved)))
            && (n > 0 ==> Act(s, Reload).profiles == saved.profiles && Act(s, Reload).defaults == saved.defaults)
    decreases |acts|
  {
    if acts != [] {
      var front, a := acts[..|acts| - 1], acts[|acts| - 1];
      var before := Run(Empty, front);
      DiskIsLastWrite(front);
      if a.Do? { StepCoherent(before, a.op, a.written); }
      assert acts[..|acts|] == acts && front[..LastWrite(front)] == acts[..LastWrite(front)];
      ReloadRoundTrip(Run(Empty, acts[..LastWrite(acts)]));
    }
  }

  /**
    With every write succeeding, once the store has been seeded a reload of the snapshot gives exactly
    the profiles and defaults in memory, whatever operations and reloads followed.
   */
  lemma {:induction false} ReloadRestoresAnyRun(seeds: seq<SeedProfile>, acts: seq<Action>)
    requires forall a :: a in acts ==> a.Do? ==> a.written
    ensures Inv(Step(Empty, SeedAll(seeds), true).0) && OnDisk(Run(Step(Empty, SeedAll(seeds), true).0, acts))
    decreases |acts|
  {
    StepInv(Empty, SeedAll(seeds), true);
    var start := Step(Empty, SeedAll(seeds), true).0;
    if acts == [] {
      StepOnDisk(Empty, SeedAll(seeds));
    } else {
      var front, a := acts[..|acts| - 1], acts[|acts| - 1];
      assert a in acts;
      ReloadRestoresAnyRun(seeds, front);
      if a.Do? { StepOnDisk(Run(start, front), a.op); }
    }
  }

  /** After a failed write the snapshot on disk is still the one of the last successful write. */
  lemma FailedWriteKeepsSnapshot(s: Store, op: Op)
    requires Coherent(s.profiles, s.defaults)
    ensures Step(s, op, false).0.disk == s.disk
  {
    StepCoherent(s, op, false);
  }

  // ---------------------------------------------------------------------------------------------
  // What each operation does
  // ---------------------------------------------------------------------------------------------

  function Given<T>(o: Option<T>, otherwise: T): T {
    match o
    case Some(x) => x
    case None => otherwise
  }

  /** A profile after a request: the fields it gives, the others as they were. */
  predicate Patched(was: Profile, now: Profile, d: Patch) {
    && now.profileName == Given(d.profileName, was.profileName) && now.apn == Given(d.apn, was.apn)
    && now.userName == Given(d.userName, was.userName) && now.password == Given(d.password, was.password)
    && now.techPref == Given(d.techPref, was.techPref) && now.authType == Given(d.authType, was.authType)
    && now.ipFamilyType == Given(d.ipFamilyType, was.ipFamilyType) && now.apnTypes == Given(d.apnTypes, was.apnTypes)
    && now.emergencyAllowed == Given(d.emergencyAllowed, was.emergencyAllowed)
    && now.clatEnabled == Given(d.clatEnabled, was.clatEnabled)
    && now.isDefault == was.isDefault
  }

  /** A modify changes the named profile only, and of it only the given fields; an unknown one is refused. */
  lemma ModifyEffects(s: Store, id: int, d: Patch, written: bool)
    requires Coherent(s.profiles, s.defaults)
    ensures var (s', out) := Step(s, Modify(id, d), written);
            if id !in s.profiles then s' == s && out == InvalidArguments
            else
              && out == Done && id in s'.profiles && s'.profiles == s.profiles[id := s'.profiles[id]]
              && s'.profiles[id].id == id && Patched(s.profiles[id], s'.profiles[id], d)
              && s'.defaults == s.defaults
  {}

  /** A delete removes the named profile and exactly the defaults that named it; an unknown one is refused. */
  lemma DeleteEffects(s: Store, id: int, written: bool)
    ensures var (s', out) := Step(s, Delete(id), written);
            if id !in s.profiles then s' == s && out == InvalidArguments
            else
              && out == Done && s'.profiles == s.profiles - {id}
              && (forall op :: op in s'.defaults <==> op in s.defaults && s.defaults[op] != id)
              && (forall op :: op in s'.defaults ==> s'.defaults[op] == s.defaults[op])
  {}

  /** A default is set for its operation only, and only to a profile that exists. */
  lemma SetDefaultEffects(s: Store, opType: string, id: int, written: bool)
    ensures var (s', out) := Step(s, SetDefault(opType, id), written);
            if id !in s.profiles then s' == s && out == InvalidArguments
            else
              && out == Done && s'.profiles == s.profiles && opType in s'.defaults && s'.defaults[opType] == id
              && (forall op :: op != opType ==> (op in s'.defaults <==> op in s.defaults))
              && (forall op :: op != opType && op in s.defaults ==> s'.defaults[op] == s.defaults[op])
  {}

  /** A profile nothing was said about. */
  const Blank := Profile(0, "", "", "", "", "UNKNOWN", "AUTH_NONE", "UNKNOWN", 0, "UNSPECIFIED", false, false)

  /** A created profile has the given fields, blank ones otherwise, and becomes nobody's default. */
  lemma CreateEffects(s: Store, d: Patch, written: bool)
    ensures var (s', out) := Step(s, Create(d), written);
            out.Created? ==>
              && out.id in s'.profiles && s'.profiles == s.profiles[out.id := s'.profiles[out.id]]
              && s'.profiles[out.id].id == out.id && Patched(Blank, s'.profiles[out.id], d)
              && s'.defaults == s.defaults
  {}

  /** No later seed has the id of seed `i`. */
  predicate LastOf(seeds: seq<SeedProfile>, i: nat) {
    i < |seeds| && forall j :: i < j < |seeds| ==> seeds[j].profileId != seeds[i].profileId
  }

  /** A profile as its seed describes it. */
  predicate FromSeed(p: Profile, sp: SeedProfile) {
    && p.id == sp.profileId && p.apn == sp.apn && p.userName == sp.username && p.password == sp.password
    && p.ipFamilyType == sp.ipFamily && p.isDefault == sp.isDefault
    && p.techPref == (match sp.techType case "3GPP2" => "TP_3GPP2" case "ANY" => "TP_ANY" case _ => "TP_3GPP")
    && p.authType == (match sp.authType
                      case "PAP" => "AUTH_PAP" case "CHAP" => "AUTH_CHAP" case "PAP_CHAP" => "AUTH_PAP_CHAP" case _ => "AUTH_NONE")
    && p.profileName == "" && p.apnTypes == 0 && p.emergencyAllowed == "UNSPECIFIED" && !p.clatEnabled
  }

  /** The profile the seeds make the default for local data: the last one flagged. */
  function SeededDefault(seeds: seq<SeedProfile>): Option<int> {
    if seeds == [] then None
    else if seeds[|seeds| - 1].isDefault then Some(seeds[|seeds| - 1].profileId)
    else SeededDefault(seeds[..|seeds| - 1])
  }

  lemma {:induction false} SeededProfiles(s: Store, seeds: seq<SeedProfile>, i: nat)
    requires LastOf(seeds, i)
    ensures var s' := SeedFrom(s, seeds);
            seeds[i].profileId in s'.profiles && FromSeed(s'.profiles[seeds[i].profileId], seeds[i])
    decreases |seeds|
  {
    if i < |seeds| - 1 {
      var front := seeds[..|seeds| - 1];
      assert seeds[|seeds| - 1].profileId != seeds[i].profileId && front[i] == seeds[i];
      assert forall j :: i < j < |front| ==> front[j] == seeds[j];
      SeededProfiles(s, front, i);
    }
  }

  lemma {:induction false} UnseededProfiles(s: Store, seeds: seq<SeedProfile>, id: int)
    requires forall sp :: sp in seeds ==> sp.profileId != id
    ensures var s' := SeedFrom(s, seeds);
            (id in s'.profiles <==> id in s.profiles) && (id in s.profiles ==> s'.profiles[id] == s.profiles[id])
    decreases |seeds|
  {
    if seeds != [] {
      assert seeds[|seeds| - 1] in seeds;
      UnseededProfiles(s, seeds[..|seeds| - 1], id);
    }
  }

  lemma {:induction false} SeededDefaults(s: Store, seeds: seq<SeedProfile>)
    ensures SeedFrom(s, seeds).defaults == (match SeededDefault(seeds)
                                            case Some(id) => s.defaults["DATA_LOCAL" := id]
                                            case None => s.defaults)
    decreases |seeds|
  {
    if seeds != [] { SeededDefaults(s, seeds[..|seeds| - 1]); }
  }

  /**
    Seeding stores every seed, a later one replacing an earlier one of its id, keeps profiles no seed
    mentions, and makes the last flagged one the default for local data.
   */
  lemma SeedEffects(s: Store, seeds: seq<SeedProfile>, written: bool)
    ensures var s' := Step(s, SeedAll(seeds), written).0;
            && (forall i: nat :: LastOf(seeds, i) ==>
                  seeds[i].profileId in s'.profiles && FromSeed(s'.profiles[seeds[i].profileId], seeds[i]))
            && (forall id :: (forall sp :: sp in seeds ==> sp.profileId != id) ==>
                  (id in s'.profiles <==> id in s.profiles) && (id in s.profiles ==> s'.profiles[id] == s.profiles[id]))
            && s'.defaults == (match SeededDefault(seeds)
                               case Some(id) => s.defaults["DATA_LOCAL" := id]
                               case None => s.defaults)
  {
    var s' := Step(s, SeedAll(seeds), written).0;
    assert s'.profiles == SeedFrom(s, seeds).profiles && s'.defaults == SeedFrom(s, seeds).defaults;
    forall i: nat | LastOf(seeds, i)
      ensures seeds[i].profileId in s'.profiles && FromSeed(s'.profiles[seeds[i].profileId], seeds[i])
    {
      SeededProfiles(s, seeds, i);
    }
    forall id | forall sp :: sp in seeds ==> sp.profileId != id
      ensures (id in s'.profiles <==> id in s.profiles) && (id in s.profiles ==> s'.profiles[id] == s.profiles[id])
    {
      UnseededProfiles(s, seeds, id);
    }
    SeededDefaults(s, seeds);
  }

  /** Of the profiles a file lists under one id, the last one is loaded. */
  lemma {:induction false} LastListedLoads(list: seq<Profile>, i: nat)
    requires i < |list| && forall j :: i < j < |list| ==> list[j].id != list[i].id
    ensures list[i].id in LoadList(list) && LoadList(list)[list[i].id] == list[i]
    decreases |list|
  {
    if i < |list| - 1 {
      var front := list[..|list| - 1];
      assert list[|list| - 1].id != list[i].id && front[i] == list[i];
      assert forall j :: i < j < |front| ==> front[j] == list[j];
      LastListedLoads(front, i);
    }
  }
}
