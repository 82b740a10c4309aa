/** The ProfileStore object: its mutators and loops, proved against ProfileModel. */
module ProfileStore {
  import opened Common
  import M = ProfileModel

  class Store {
    var profiles: map<int, M.Profile>
    var defaults: map<string, int>
    var disk: Option<M.Snapshot>

    ghost function Model(): M.Store
      reads this
    {
      M.Store(profiles, defaults, disk)
    }

    ghost predicate Valid()
      reads this
    {
      M.Inv(Model())
    }

    constructor ()
      ensures Valid() && Model() == M.Empty
    {
      profiles, defaults, disk := map[], map[], None;
    }

    /** Writes a full snapshot; a write that fails leaves the previous one. */
    method MaybePersist(written: bool)
      modifies this`disk
      ensures Model() == M.Persist(old(Model()), written)
    {
      if written {
        disk := Some(M.Snapshot(set id | id in profiles :: profiles[id], defaults));
      }
    }

    method Seed(seeds: seq<M.SeedProfile>, written: bool)
      requires Valid()
      modifies this
      ensures Valid() && Model() == M.Step(old(Model()), M.SeedAll(seeds), written).0
    {
      M.StepInv(Model(), M.SeedAll(seeds), written);
      for i := 0 to |seeds|
        invariant Model() == M.SeedFrom(old(Model()), seeds[..i])
      {
        var sp := seeds[i];
        assert seeds[..i + 1][..i] == seeds[..i];
        profiles := profiles[sp.profileId := M.Seeded(sp)];
        if sp.isDefault {
          defaults := defaults["DATA_LOCAL" := sp.profileId];
        }
      }
      assert seeds[..|seeds|] == seeds;
      MaybePersist(written);
    }

    method SetDefault(opType: string, id: int, written: bool) returns (out: M.Outcome)
      requires Valid()
      modifies this
      ensures Valid() && (Model(), out) == M.Step(old(Model()), M.SetDefault(opType, id), written)
    {
      M.StepInv(Model(), M.SetDefault(opType, id), written);
      if id !in profiles {
        return M.InvalidArguments;
      }
      defaults := defaults[opType := id];
      MaybePersist(written);
      out := M.Done;
    }

    method Create(data: M.Patch, written: bool) returns (out: M.Outcome)
      requires Valid()
      modifies this
      ensures Valid() && (Model(), out) == M.Step(old(Model()), M.Create(data), written)
    {
      M.StepInv(Model(), M.Create(data), written);
      if |profiles| >= M.MAX_PROFILES {
        return M.NoResources;
      }
      var i := 1;
      while i <= M.MAX_PROFILES && i in profiles
        invariant 1 <= i <= M.MAX_PROFILES + 1
        invariant M.LeastFree(profiles.Keys, 1) == M.LeastFree(profiles.Keys, i)
      {
        i := i + 1;
      }
      if i > M.MAX_PROFILES {
        return M.NoResources;
      }
      profiles := profiles[i := M.NewProfile(i, data)];
      MaybePersist(written);
      out := M.Created(i);
    }

    method Modify(id: int, changes: M.Patch, written: bool) returns (out: M.Outcome)
      requires Valid()
      modifies this
      ensures Valid() && (Model(), out) == M.Step(old(Model()), M.Modify(id, changes), written)
    {
      M.StepInv(Model(), M.Modify(id, changes), written);
      if id !in profiles {
        return M.InvalidArguments;
      }
      profiles := profiles[id := M.Modified(id, profiles[id], changes)];
      MaybePersist(written);
      out := M.Done;
    }

    /** Removes the profile and then, one by one, the defaults that named it. */
    method Delete(id: int, written: bool) returns (out: M.Outcome)
      requires Valid()
      modifies this
      ensures Valid() && (Model(), out) == M.Step(old(Model()), M.Delete(id), written)
    {
      M.StepInv(Model(), M.Delete(id), written);
      if id !in profiles {
        return M.InvalidArguments;
      }
      profiles := profiles - {id};
      var rest := defaults.Keys;
      while rest != {}
        invariant profiles == old(profiles) - {id} && disk == old(disk)
        invariant rest <= old(defaults).Keys
        invariant defaults == map op | op in old(defaults) && (op in rest || old(defaults)[op] != id) :: old(defaults)[op]
        decreases rest
      {
        var op :| op in rest;
        if defaults[op] == id {
          defaults := defaults - {op};
        }
        rest := rest - {op};
      }
      assert defaults == map op | op in old(defaults) && old(defaults)[op] != id :: old(defaults)[op];
      MaybePersist(written);
      out := M.Done;
    }

    /** Replaces the contents by those of a file, if there is one; of profiles with one id the last counts. */
    method Load(file: Option<File>) returns (ok: bool)
      modifies this`profiles, this`defaults
      ensures ok == file.Some?
      ensures !ok ==> profiles == old(profiles) && defaults == old(defaults)
      ensures ok ==> profiles == M.LoadList(file.value.profiles) && defaults == file.value.defaults
    {
      if file.None? {
        return false;
      }
      var list := file.value.profiles;
      var restored := map[];
      for i := 0 to |list|
        invariant restored == M.LoadList(list[..i])
      {
        assert list[..i + 1][..i] == list[..i];
        restored := restored[list[i].id := list[i]];
      }
      assert list[..|list|] == list;
      profiles, defaults := restored, file.value.defaults;
      ok := true;
    }
  }

  /** A snapshot as a file holds it: the profiles listed in some order. */
  datatype File = File(profiles: seq<M.Profile>, defaults: map<string, int>)

  /** `file` is the snapshot, written out in whatever order. */
  ghost predicate Holds(file: File, snap: M.Snapshot) {
    (forall p :: p in file.profiles <==> p in snap.profiles) && file.defaults == snap.defaults
  }

  /** A restart: what a fresh store loads from the disk of another is what that one last wrote. */
  method Restart(s: Store, file: File) returns (t: Store)
    requires s.Valid() && s.disk.Some? && Holds(file, s.disk.value)
    ensures fresh(t) && (t.profiles, t.defaults) == M.Reloaded(s.disk.value) && t.Valid()
    ensures M.OnDisk(s.Model()) ==> t.profiles == s.profiles && t.defaults == s.defaults
  {
    t := new Store();
    var ok := t.Load(Some(file));
    M.AnyListingLoads(file.profiles, s.disk.value);
  }
}
