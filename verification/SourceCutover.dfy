/**
 Replacing the two managed sources: directories are cloned aside, swapped in by renames, the
 distribution and the installed skills follow, and one receipt commits. Before the receipt any
 failure is compensated; after it none is. At the very end every stage directory is swept, also
 those of earlier runs, and a failure of that sweep hides whatever would have been reported.
 */
module SourceCutover {
  import opened Prelude
  import opened Faults

  type Name = string
  type Tree = Text

  /**
   The directories one run uses. Names drawn at random are places of their own; `Stale` is a
   stage directory of an earlier run. Directories under any other name are never touched.
   */
  datatype Place =
    | Target(name: Name) | Staged(name: Name) | RollbackOf(name: Name)
    | Skill(name: Name) | BackupOf(name: Name) | Stale(name: Name)

  type Dirs = map<Place, Tree>

  function At(dirs: Dirs, p: Place): Option<Tree> {
    if p in dirs then Some(dirs[p]) else None
  }

  const SOURCES: seq<Name> := ["sidecar", "canonical_owner"]
  const SKILLS: seq<Name> := ["agent-memory-workstation-bootstrap", "global-owner-scout"]

  /** What the reviewed plan saw, and what it wants; a source it does not name is left alone. */
  datatype CutoverPlan = CutoverPlan(current: map<Name, Option<Tree>>, desired: map<Name, Tree>, external: bool)

  ghost predicate GoodPlan(p: CutoverPlan) {
    && (forall n :: n in SOURCES ==> n in p.current)
    && (forall n :: n in p.desired ==> n in SOURCES)
  }

  datatype Outcome =
    | Completed
    | Failed
    | DistributionRollbackFailed
    | PostCommitCleanupFailed
    | SweepFailed

  /** The names this run will draw are not in use yet. */
  ghost predicate Settled(dirs: Dirs) {
    forall p :: p in dirs ==> p.Target? || p.Skill? || p.Stale?
  }

  ghost predicate NoStale(dirs: Dirs) {
    forall n :: Stale(n) !in dirs
  }

  /** The plan still describes the sources. */
  ghost predicate Current(p: CutoverPlan, dirs: Dirs) {
    forall n :: n in SOURCES ==> n in p.current && At(dirs, Target(n)) == p.current[n]
  }

  // ------------------------------------------------------------------ what a run keeps

  /** Nothing lost: a source not swapped is as it was, a swapped one is kept aside. */
  ghost predicate SourcesKept(dirs: Dirs, was: Dirs, swapped: set<Name>) {
    forall n {:trigger Target(n)} {:trigger RollbackOf(n)} ::
      if n in swapped then At(dirs, RollbackOf(n)) == At(was, Target(n))
      else At(dirs, Target(n)) == At(was, Target(n)) && RollbackOf(n) !in dirs
  }

  ghost predicate SkillsSame(dirs: Dirs, was: Dirs) {
    forall n :: At(dirs, Skill(n)) == At(was, Skill(n))
  }

  /** Every installed skill that may change has a copy. */
  ghost predicate SkillsBacked(dirs: Dirs, was: Dirs, backed: set<Name>) {
    forall n {:trigger Skill(n)} {:trigger BackupOf(n)} ::
      if n in backed then At(dirs, BackupOf(n)) == At(was, Skill(n))
      else At(dirs, Skill(n)) == At(was, Skill(n))
  }

  ghost predicate SourcesSame(dirs: Dirs, was: Dirs) {
    forall n :: At(dirs, Target(n)) == At(was, Target(n))
  }

  ghost predicate StaleSame(dirs: Dirs, was: Dirs) {
    forall n :: At(dirs, Stale(n)) == At(was, Stale(n))
  }

  /** The two skills are what the installation was to put there. */
  ghost predicate Installed(dirs: Dirs, first: Option<Tree>, second: Option<Tree>) {
    && At(dirs, Skill("agent-memory-workstation-bootstrap")) == first
    && At(dirs, Skill("global-owner-scout")) == second
  }

  ghost predicate Desired(dirs: Dirs, was: Dirs, p: CutoverPlan) {
    forall n :: At(dirs, Target(n)) == if n in p.desired then Some(p.desired[n]) else At(was, Target(n))
  }

  class Workstation {
    var dirs: Dirs
    var receipt: Option<CutoverPlan>
    var applies: nat
    var rollbacks: nat
    var fates: seq<Fate>
    var sweeps: seq<Fate>

    constructor (dirs: Dirs, receipt: Option<CutoverPlan>, fates: seq<Fate>, sweeps: seq<Fate>)
      ensures this.dirs == dirs && this.receipt == receipt && applies == 0 && rollbacks == 0
      ensures this.fates == fates && this.sweeps == sweeps
    {
      this.dirs, this.receipt, applies, rollbacks := dirs, receipt, 0, 0;
      this.fates, this.sweeps := fates, sweeps;
    }

    /** The next step works or raises; a process death is not compensated and is left out. */
    method Works() returns (ok: bool)
      modifies this`fates
      ensures fates == LaterFates(old(fates)) && (ok <==> NextFate(old(fates)) == Proceed)
    {
      ok := NextFate(fates) == Proceed;
      fates := LaterFates(fates);
    }

    /** A rename happens or raises. */
    method Rename(a: Place, b: Place) returns (ok: bool)
      requires a in dirs && b !in dirs
      modifies this`dirs, this`fates
      ensures dirs == if ok then old(dirs)[b := old(dirs)[a]] - {a} else old(dirs)
      ensures fates == LaterFates(old(fates)) && (ok <==> NextFate(old(fates)) == Proceed)
    {
      ok := Works();
      if ok { dirs := dirs[b := dirs[a]] - {a}; }
    }

    // ---------------------------------------------------------------- prepare and swap

    /** Clone one source aside; a failed clone may leave part of it. */
    method Clone(n: Name, tree: Tree, part: Tree) returns (ok: bool)
      modifies this`dirs, this`fates
      ensures dirs in {old(dirs), old(dirs)[Staged(n) := part], old(dirs)[Staged(n) := tree]}
      ensures ok ==> dirs == old(dirs)[Staged(n) := tree]
      ensures Calm(old(fates)) ==> ok && Calm(fates)
      ensures Tame(old(fates)) ==> Tame(fates)
    {
      ok := Works();
      if !ok {
        ok := Works();
        if !ok { dirs := dirs[Staged(n) := part]; }
        return false;
      }
      dirs := dirs[Staged(n) := tree];
      ok := Works();
    }

    method Prepare(p: CutoverPlan, part: Tree) returns (ok: bool, prepared: seq<Name>)
      requires GoodPlan(p) && Settled(dirs)
      modifies this`dirs, this`fates
      ensures SourcesKept(dirs, old(dirs), {}) && SkillsBacked(dirs, old(dirs), {})
      ensures forall d :: d in dirs && !d.Staged? ==> d.Target? || d.Skill? || d.Stale?
      ensures OnlySources(dirs, old(dirs))
      ensures forall n :: n in prepared ==> n in p.desired && n in SOURCES
      ensures forall i, j :: 0 <= i < j < |prepared| ==> prepared[i] != prepared[j]
      ensures ok ==> forall n :: n in p.desired && n !in prepared ==> At(dirs, Target(n)) == Some(p.desired[n])
      ensures ok ==> forall n :: n in prepared ==> At(dirs, Staged(n)) == Some(p.desired[n])
      ensures ok ==> forall n :: Staged(n) in dirs ==> n in prepared
      ensures Calm(old(fates)) ==> ok && Calm(fates)
      ensures Tame(old(fates)) ==> Tame(fates)
    {
      hide SourcesKept, SkillsBacked, OnlySources;
      prepared := [];
      ok := true;
      NothingYet(dirs);
      for i := 0 to |SOURCES|
        invariant ok && SourcesKept(dirs, old(dirs), {}) && SkillsBacked(dirs, old(dirs), {})
        invariant forall d :: d in dirs && !d.Staged? ==> d.Target? || d.Skill? || d.Stale?
        invariant OnlySources(dirs, old(dirs))
        invariant forall n :: n in prepared ==> n in p.desired && n in SOURCES[..i]
        invariant forall a, b :: 0 <= a < b < |prepared| ==> prepared[a] != prepared[b]
        invariant forall n :: n in p.desired && n in SOURCES[..i] && n !in prepared ==>
                    At(dirs, Target(n)) == Some(p.desired[n])
        invariant forall n :: n in prepared ==> At(dirs, Staged(n)) == Some(p.desired[n])
        invariant forall n :: Staged(n) in dirs ==> n in prepared
        invariant Calm(old(fates)) ==> Calm(fates)
        invariant Tame(old(fates)) ==> Tame(fates)
      {
        var n := SOURCES[i];
        assert SOURCES[..i + 1] == SOURCES[..i] + [n] && n !in SOURCES[..i];
        if n in p.desired && At(dirs, Target(n)) != Some(p.desired[n]) {
          ghost var before := dirs;
          ok := Clone(n, p.desired[n], part);
          StagedOnly(dirs, before, old(dirs), n);
          if !ok { return; }
          prepared := prepared + [n];
        }
      }
      assert SOURCES[..|SOURCES|] == SOURCES;
    }

    /** Swap one staged source in; `moved` says whether the old one has to be put back. */
    method SwapOne(p: CutoverPlan, n: Name, ghost was: Dirs, ghost swapped: set<Name>) returns (ok: bool, moved: bool)
      requires n in p.current && n in p.desired && At(dirs, Staged(n)) == Some(p.desired[n])
      requires SourcesKept(dirs, was, swapped) && n !in swapped
      modifies this`dirs, this`fates
      ensures Only(dirs, old(dirs), {Target(n), RollbackOf(n), Staged(n)})
      ensures SourcesKept(dirs, was, if moved then swapped + {n} else swapped)
      ensures ok ==> moved && At(dirs, Target(n)) == Some(p.desired[n]) && Staged(n) !in dirs
      ensures ok ==> At(was, Target(n)) == p.current[n]
      ensures Calm(old(fates)) && At(was, Target(n)) == p.current[n] ==> ok && Calm(fates)
      ensures Tame(old(fates)) ==> Tame(fates)
    {
      moved := false;
      assert At(dirs, Target(n)) == At(was, Target(n));
      if Target(n) in dirs {
        ok := Works();
        if !ok || At(dirs, Target(n)) != p.current[n] { return false, false; }
        ok := Rename(Target(n), RollbackOf(n));
        if !ok { return; }
      } else if p.current[n] != None {
        return false, false;
      }
      moved := true;
      ok := Rename(Staged(n), Target(n));
      if ok { ok := Works(); }
    }

    method Swap(p: CutoverPlan, prepared: seq<Name>, ghost was: Dirs) returns (ok: bool, swapped: seq<Name>)
      requires SourcesKept(dirs, was, {}) && SkillsBacked(dirs, was, {}) && GoodPlan(p)
      requires forall n :: n in prepared ==> n in p.desired && n in SOURCES && At(dirs, Staged(n)) == Some(p.desired[n])
      requires forall i, j :: 0 <= i < j < |prepared| ==> prepared[i] != prepared[j]
      modifies this`dirs, this`fates
      ensures SourcesKept(dirs, was, Names(swapped)) && SkillsBacked(dirs, was, {})
      ensures forall i, j :: 0 <= i < j < |swapped| ==> swapped[i] != swapped[j]
      ensures OnlySources(dirs, old(dirs))
      ensures ok ==> swapped == prepared && forall n :: n in prepared ==> At(dirs, Target(n)) == Some(p.desired[n])
      ensures ok ==> StagedLeft(dirs, old(dirs), prepared)
      ensures ok ==> forall n :: n in prepared ==> At(was, Target(n)) == p.current[n]
      ensures Calm(old(fates)) && (forall n :: n in prepared ==> At(was, Target(n)) == p.current[n]) ==>
              ok && Calm(fates)
      ensures Tame(old(fates)) ==> Tame(fates)
    {
      hide SourcesKept, SkillsBacked, OnlySources, StagedLeft, Tame, Calm;
      swapped := [];
      ok := true;
      assert Names([]) == {};
      SourcesOnly(dirs, dirs, dirs, "");
      StagedGoes(dirs, dirs, dirs, [], "");
      ghost var calm := Calm(fates) && forall n :: n in prepared ==> At(was, Target(n)) == p.current[n];
      for i := 0 to |prepared|
        invariant ok && swapped == prepared[..i]
        invariant SourcesKept(dirs, was, Names(swapped)) && OnlySources(dirs, old(dirs))
        invariant forall j :: 0 <= j < i ==> At(dirs, Target(prepared[j])) == Some(p.desired[prepared[j]])
        invariant forall j :: i <= j < |prepared| ==> At(dirs, Staged(prepared[j])) == Some(p.desired[prepared[j]])
        invariant StagedLeft(dirs, old(dirs), prepared[..i])
        invariant forall j :: 0 <= j < i ==> At(was, Target(prepared[j])) == p.current[prepared[j]]
        invariant calm ==> Calm(fates)
        invariant Tame(old(fates)) ==> Tame(fates)
      {
        var moved;
        ghost var before := dirs;
        assert prepared[i] !in Names(swapped);
        ok, moved := SwapOne(p, prepared[i], was, Names(swapped));
        SourcesOnly(dirs, before, old(dirs), prepared[i]);
        StagedGoes(dirs, before, old(dirs), prepared[..i], prepared[i]);
        assert prepared[..i + 1] == prepared[..i] + [prepared[i]];
        NamesMore(swapped, prepared[i]);
        if moved { swapped := swapped + [prepared[i]]; }
        if !ok {
          KeepsSkills(dirs, old(dirs), was);
          return;
        }
      }
      assert prepared[..|prepared|] == prepared;
      KeepsSkills(dirs, old(dirs), was);
    }

    // ---------------------------------------------------------------- skills and distribution

    method CopySkill(n: Name, part: Tree) returns (ok: bool)
      modifies this`dirs, this`fates
      ensures Only(dirs, old(dirs), {BackupOf(n)})
      ensures ok ==>
                At(dirs, BackupOf(n)) == if Skill(n) in dirs then At(dirs, Skill(n)) else At(old(dirs), BackupOf(n))
      ensures Calm(old(fates)) ==> ok && Calm(fates)
      ensures Tame(old(fates)) ==> Tame(fates) && (!ok ==> Calm(fates))
    {
      ok := true;
      if Skill(n) in dirs {
        ok := Works();
        dirs := dirs[BackupOf(n) := if ok then dirs[Skill(n)] else part];
      }
    }

    method SnapshotSkills(part: Tree, ghost was: Dirs) returns (ok: bool)
      requires SkillsBacked(dirs, was, {}) && forall n :: BackupOf(n) !in dirs
      modifies this`dirs, this`fates
      ensures OnlySkills(dirs, old(dirs))
      ensures ok ==> SkillsBacked(dirs, was, Names(SKILLS))
      ensures SkillsSame(dirs, was)
      ensures Calm(old(fates)) ==> ok && Calm(fates)
      ensures Tame(old(fates)) ==> Tame(fates) && (!ok ==> Calm(fates))
    {
      ok := CopySkill(SKILLS[0], part);
      if !ok { return; }
      assert SkillsBacked(dirs, was, {SKILLS[0]});
      ok := CopySkill(SKILLS[1], part);
      if !ok {
        RestoreSkill(SKILLS[0], was);
        return;
      }
      assert Names(SKILLS) == {SKILLS[0], SKILLS[1]};
    }

    /** Put one skill back; the moves of a compensation are taken to succeed. */
    method RestoreSkill(n: Name, ghost was: Dirs)
      requires At(dirs, BackupOf(n)) == At(was, Skill(n))
      modifies this`dirs
      ensures At(dirs, Skill(n)) == At(was, Skill(n)) && Only(dirs, old(dirs), {Skill(n), BackupOf(n)})
    {
      if Skill(n) in dirs { dirs := dirs - {Skill(n)}; }
      if BackupOf(n) in dirs { dirs := dirs[Skill(n) := dirs[BackupOf(n)]] - {BackupOf(n)}; }
    }

    /** Installing may leave anything in the two skill directories, also when it raises. */
    method Materialize(first: Option<Tree>, second: Option<Tree>) returns (ok: bool)
      modifies this`dirs, this`fates
      ensures Only(dirs, old(dirs), {Skill(SKILLS[0]), Skill(SKILLS[1])})
      ensures Installed(dirs, first, second)
      ensures Calm(old(fates)) ==> ok && Calm(fates)
      ensures Tame(old(fates)) ==> Tame(fates) && (!ok ==> Calm(fates))
    {
      dirs := if first.Some? then dirs[Skill(SKILLS[0]) := first.value] else dirs - {Skill(SKILLS[0])};
      dirs := if second.Some? then dirs[Skill(SKILLS[1]) := second.value] else dirs - {Skill(SKILLS[1])};
      ok := Works();
    }

    // ---------------------------------------------------------------- compensation

    method RestoreSource(n: Name, ghost was: Dirs, ghost swapped: set<Name>)
      requires n in swapped && SourcesKept(dirs, was, swapped)
      modifies this`dirs
      ensures SourcesKept(dirs, was, swapped - {n}) && Only(dirs, old(dirs), {Target(n), RollbackOf(n)})
    {
      if Target(n) in dirs { dirs := dirs - {Target(n)}; }
      if RollbackOf(n) in dirs { dirs := dirs[Target(n) := dirs[RollbackOf(n)]] - {RollbackOf(n)}; }
      assert At(old(dirs), RollbackOf(n)) == At(was, Target(n));
    }

    method RestoreSources(swapped: seq<Name>, ghost was: Dirs)
      requires SourcesKept(dirs, was, Names(swapped))
      requires forall i, j :: 0 <= i < j < |swapped| ==> swapped[i] != swapped[j]
      modifies this`dirs
      ensures SourcesSame(dirs, was) && OnlySources(dirs, old(dirs))
    {
      var i := |swapped|;
      assert swapped[..i] == swapped;
      while i > 0
        invariant 0 <= i <= |swapped| && SourcesKept(dirs, was, Names(swapped[..i])) && OnlySources(dirs, old(dirs))
      {
        i := i - 1;
        NamesMore(swapped[..i], swapped[i]);
        assert swapped[..i] + [swapped[i]] == swapped[..i + 1];
        RestoreSource(swapped[i], was, Names(swapped[..i + 1]));
        assert Names(swapped[..i + 1]) - {swapped[i]} == Names(swapped[..i]);
      }
    }

    method RestoreSkills(ghost was: Dirs)
      requires SkillsBacked(dirs, was, Names(SKILLS))
      modifies this`dirs
      ensures SkillsSame(dirs, was) && OnlySkills(dirs, old(dirs))
    {
      var a, b := SKILLS[0], SKILLS[1];
      assert |a| != |b| && Names(SKILLS) == {a, b};
      assert BackupOf(a) !in {Skill(b), BackupOf(b)} && Skill(b) !in {Skill(a), BackupOf(a)};
      RestoreSkill(b, was);
      assert At(dirs, BackupOf(a)) == At(old(dirs), BackupOf(a));
      RestoreSkill(a, was);
    }

    /** Distribution first, then skills, then sources; a failing distribution rollback stops nothing. */
    method Compensate(swapped: seq<Name>, snapped: bool, started: bool, ghost was: Dirs) returns (o: Outcome)
      requires SourcesKept(dirs, was, Names(swapped))
      requires forall i, j :: 0 <= i < j < |swapped| ==> swapped[i] != swapped[j]
      requires if snapped then SkillsBacked(dirs, was, Names(SKILLS)) else SkillsSame(dirs, was)
      modifies this`dirs, this`fates, this`rollbacks
      ensures SourcesSame(dirs, was) && SkillsSame(dirs, was) && StaleSame(dirs, old(dirs))
      ensures rollbacks == old(rollbacks) + if started then 1 else 0
      ensures o == if started && NextFate(old(fates)) != Proceed then DistributionRollbackFailed else Failed
    {
      o := Failed;
      if started {
        rollbacks := rollbacks + 1;
        var ok := Works();
        if !ok { o := DistributionRollbackFailed; }
      }
      if snapped {
        ghost var before := dirs;
        RestoreSkills(was);
        KeptAside(dirs, before, was, Names(swapped));
      }
      RestoreSources(swapped, was);
    }

    // ---------------------------------------------------------------- after the receipt

    method Remove(p: Place) returns (ok: bool)
      requires p.RollbackOf? || p.BackupOf?
      modifies this`dirs, this`fates
      ensures dirs == if ok then old(dirs) - {p} else old(dirs)
      ensures ok <==> p !in old(dirs) || NextFate(old(fates)) == Proceed
      ensures fates == if p in old(dirs) then LaterFates(old(fates)) else old(fates)
    {
      ok := true;
      if p in dirs {
        ok := Works();
        if ok { dirs := dirs - {p}; }
      }
    }

    method CleanUp(swapped: seq<Name>) returns (ok: bool)
      modifies this`dirs, this`fates
      ensures SourcesSame(dirs, old(dirs)) && SkillsSame(dirs, old(dirs)) && StaleSame(dirs, old(dirs))
      ensures forall d :: d in dirs ==> d in old(dirs)
      ensures ok ==>
                && (forall n :: n in swapped ==> RollbackOf(n) !in dirs)
                && (forall n :: n in SKILLS ==> BackupOf(n) !in dirs)
      ensures Calm(old(fates)) ==> ok && Calm(fates)
    {
      ok := true;
      for i := 0 to |swapped|
        invariant ok && SourcesSame(dirs, old(dirs)) && SkillsSame(dirs, old(dirs)) && StaleSame(dirs, old(dirs))
        invariant forall d :: d in dirs ==> d in old(dirs)
        invariant forall j :: 0 <= j < i ==> RollbackOf(swapped[j]) !in dirs
        invariant Calm(old(fates)) ==> Calm(fates)
      {
        ok := Remove(RollbackOf(swapped[i]));
        if !ok { return; }
      }
      ok := Remove(BackupOf(SKILLS[0]));
      if !ok { return; }
      ok := Remove(BackupOf(SKILLS[1]));
    }

    // ---------------------------------------------------------------- the whole cutover

    /** Sources that were not prepared must still be what the plan saw. */
    method CheckRest(p: CutoverPlan, prepared: seq<Name>) returns (ok: bool)
      requires GoodPlan(p)
      modifies this`fates
      ensures ok ==> forall n :: n in SOURCES && n !in prepared ==> At(dirs, Target(n)) == p.current[n]
      ensures Calm(old(fates))
              && (forall n :: n in SOURCES && n !in prepared ==> At(dirs, Target(n)) == p.current[n]) ==>
                ok && Calm(fates)
      ensures Tame(old(fates)) ==> Tame(fates)
    {
      ok := Works();
      for i := 0 to |SOURCES|
        invariant ok ==> forall n :: n in SOURCES[..i] && n !in prepared ==> At(dirs, Target(n)) == p.current[n]
        invariant Calm(old(fates)) ==> Calm(fates)
        invariant Calm(old(fates))
                  && (forall n :: n in SOURCES && n !in prepared ==> At(dirs, Target(n)) == p.current[n]) ==>
                    ok
        invariant Tame(old(fates)) ==> Tame(fates)
      {
        assert SOURCES[..i + 1] == SOURCES[..i] + [SOURCES[i]];
        if SOURCES[i] !in prepared && At(dirs, Target(SOURCES[i])) != p.current[SOURCES[i]] { ok := false; }
      }
      assert SOURCES[..|SOURCES|] == SOURCES;
    }

    /** Everything before the receipt; the results tell the handler what there is to undo. */
    method Forward(p: CutoverPlan, part: Tree, first: Option<Tree>, second: Option<Tree>)
      returns (ok: bool, swapped: seq<Name>, snapped: bool, started: bool)
      requires GoodPlan(p) && Settled(dirs)
      modifies this`dirs, this`fates, this`applies
      ensures applies == old(applies) + if started then 1 else 0
      ensures SourcesKept(dirs, old(dirs), Names(swapped)) && StaleSame(dirs, old(dirs))
      ensures forall i, j :: 0 <= i < j < |swapped| ==> swapped[i] != swapped[j]
      ensures if snapped then SkillsBacked(dirs, old(dirs), Names(SKILLS)) else SkillsSame(dirs, old(dirs))
      ensures ok ==> Desired(dirs, old(dirs), p) && forall n :: Staged(n) !in dirs
      ensures ok ==> Current(p, old(dirs)) && (started <==> p.external) && Installed(dirs, first, second)
      ensures started ==> p.external && Current(p, old(dirs))
      ensures Tame(old(fates)) ==> Tame(fates) && (!ok && started ==> Calm(fates))
      ensures Calm(old(fates)) && Current(p, old(dirs)) ==> ok && Calm(fates)
    {
      hide SourcesKept, SkillsBacked, Desired, SkillsSame, OnlySkills, OnlySources, Only, StaleSame, Tame, Calm;
      ghost var was := dirs;
      swapped, snapped, started := [], false, false;
      var prepared;
      ok, prepared := Prepare(p, part);
      Untouched(dirs, was);
      StaleAside(dirs, was, was);
      assert Names([]) == {};
      if !ok { return; }
      ghost var staged := dirs;
      forall n ensures BackupOf(n) !in staged { }
      ok, swapped := Swap(p, prepared, was);
      Untouched(dirs, was);
      StaleAside(dirs, staged, was);
      NoBackups(dirs, staged);
      if !ok { return; }
      KeptTargets(staged, was);
      SwappedIsDesired(dirs, was, p, prepared);
      ok := CheckRest(p, prepared);
      if !ok { return; }
      RestSame(p, dirs, was, prepared);
      if p.external {
        started, applies := true, applies + 1;
        ok := Works();
        if !ok { return; }
      }
      ghost var before := dirs;
      ok := SnapshotSkills(part, was);
      SkillsAside(dirs, before, was, Names(swapped), p);
      if !ok { return; }
      snapped := true;
      before := dirs;
      ok := Materialize(first, second);
      InstalledSkills(dirs, before, was, Names(swapped), p);
      if ok { ok := Works(); }
    }

    /** The body of the run; `committed` tells whether the receipt was written. */
    method Attempt(p: CutoverPlan, part: Tree, first: Option<Tree>, second: Option<Tree>)
      returns (o: Outcome, committed: bool)
      requires GoodPlan(p) && Settled(dirs)
      modifies this`dirs, this`fates, this`applies, this`rollbacks, this`receipt
      ensures receipt == if committed then Some(p) else old(receipt)
      ensures committed <==> o.Completed? || o.PostCommitCleanupFailed?
      ensures !committed <==> o.Failed? || o.DistributionRollbackFailed?
      ensures committed ==> Desired(dirs, old(dirs), p) && rollbacks == old(rollbacks) && forall n :: Staged(n) !in dirs
      ensures committed ==> Current(p, old(dirs)) && Installed(dirs, first, second)
      ensures committed ==> applies == old(applies) + if p.external then 1 else 0
      ensures !committed ==> SourcesSame(dirs, old(dirs)) && SkillsSame(dirs, old(dirs))
                             && rollbacks - old(rollbacks) == applies - old(applies)
      ensures applies <= old(applies) + 1 && StaleSame(dirs, old(dirs))
      ensures applies > old(applies) ==> p.external && Current(p, old(dirs))
      ensures o.DistributionRollbackFailed? ==> rollbacks == old(rollbacks) + 1 && !Tame(old(fates))
      ensures o.Completed? ==> forall n :: n in SOURCES ==> RollbackOf(n) !in dirs
      ensures o.Completed? ==> forall n :: n in SKILLS ==> BackupOf(n) !in dirs
      ensures Calm(old(fates)) && Current(p, old(dirs)) ==> o.Completed?
    {
      hide SkillsBacked, Current, Tame, Calm;
      var ok, swapped, snapped, started := Forward(p, part, first, second);
      if ok { ok := Works(); }
      committed := ok;
      if !ok {
        o := Compensate(swapped, snapped, started, old(dirs));
        return;
      }
      receipt := Some(p);
      ghost var kept := dirs;
      ok := CleanUp(swapped);
      o := if ok then Completed else PostCommitCleanupFailed;
      forall n | ok && n in SOURCES ensures RollbackOf(n) !in dirs {
        if n !in swapped { assert RollbackOf(n) !in kept; }
      }
    }

    /** Remove every stage directory, this run's and any earlier one's, until a removal raises. */
    method Sweep() returns (ok: bool)
      modifies this`dirs, this`sweeps
      ensures forall d: Place :: !d.Staged? && !d.Stale? ==> At(dirs, d) == At(old(dirs), d)
      ensures ok ==> forall d :: d in dirs ==> !d.Staged? && !d.Stale?
      ensures Calm(old(sweeps)) || (forall d :: d in old(dirs) ==> !d.Staged? && !d.Stale?) ==> ok
      ensures NextFate(old(sweeps)) != Proceed && (exists d :: d in old(dirs) && (d.Staged? || d.Stale?)) ==> !ok
    {
      var pending := set d | d in dirs && (d.Staged? || d.Stale?);
      ok := true;
      while pending != {}
        invariant ok && pending == set d | d in dirs && (d.Staged? || d.Stale?)
        invariant forall d: Place :: !d.Staged? && !d.Stale? ==> At(dirs, d) == At(old(dirs), d)
        invariant Calm(old(sweeps)) ==> Calm(sweeps)
        invariant (dirs == old(dirs) && sweeps == old(sweeps)) || NextFate(old(sweeps)) == Proceed
        decreases pending
      {
        var d :| d in pending;
        ok := NextFate(sweeps) == Proceed;
        sweeps := LaterFates(sweeps);
        if !ok { return; }
        dirs, pending := dirs - {d}, pending - {d};
      }
      assert forall d :: d in dirs && (d.Staged? || d.Stale?) ==> d in pending;
    }

    /**
     Either the receipt is written and the new sources stay, whatever the cleaning up does, or
     both sources and both skills are what they were and the distribution was rolled back
     whenever it had been started. What is reported tells which, unless the final sweep failed;
     after the receipt it can fail only on a stage directory that an earlier run left behind.
     */
    method Apply(p: CutoverPlan, part: Tree, first: Option<Tree>, second: Option<Tree>)
      returns (o: Outcome, committed: bool)
      requires GoodPlan(p) && Settled(dirs)
      modifies this
      ensures receipt == if committed then Some(p) else old(receipt)
      ensures committed ==> Desired(dirs, old(dirs), p) && rollbacks == old(rollbacks)
      ensures committed ==> Current(p, old(dirs)) && Installed(dirs, first, second)
      ensures committed ==> applies == old(applies) + if p.external then 1 else 0
      ensures !committed ==> SourcesSame(dirs, old(dirs)) && SkillsSame(dirs, old(dirs))
                             && rollbacks - old(rollbacks) == applies - old(applies)
      ensures o.Completed? || o.PostCommitCleanupFailed? ==> committed
      ensures o.Failed? || o.DistributionRollbackFailed? ==> !committed
      ensures committed && NoStale(old(dirs)) ==> o.Completed? || o.PostCommitCleanupFailed?
      ensures applies <= old(applies) + 1
      ensures applies > old(applies) ==> p.external && Current(p, old(dirs))
      ensures o.DistributionRollbackFailed? ==> rollbacks == old(rollbacks) + 1 && !Tame(old(fates))
      ensures !o.SweepFailed? ==> forall d :: d in dirs ==> !d.Staged? && !d.Stale?
      ensures o.Completed? ==> forall n :: n in SOURCES ==> RollbackOf(n) !in dirs
      ensures o.Completed? ==> forall n :: n in SKILLS ==> BackupOf(n) !in dirs
      ensures Calm(old(fates)) && Current(p, old(dirs)) ==> committed
      ensures Calm(old(fates)) && Current(p, old(dirs)) && Calm(old(sweeps)) ==> o.Completed?
      ensures Calm(old(sweeps)) ==> !o.SweepFailed?
      ensures NextFate(old(sweeps)) != Proceed && !NoStale(old(dirs)) ==> o.SweepFailed?
    {
      o, committed := Attempt(p, part, first, second);
      ghost var stale := dirs;
      StaleIsThere(dirs, old(dirs));
      StagesAre(dirs);
      var ok := Sweep();
      SweptSame(dirs, stale, old(dirs), p);
      if !ok { o := SweepFailed; }
    }
  }

  /**
   One stage directory left behind is enough: without any other fault there is a sweep that
   fails after the receipt, and the caller sees neither success nor the post-commit error.
   */
  method StaleStageHidesTheCommit(dirs: Dirs, p: CutoverPlan, part: Tree, first: Option<Tree>, second: Option<Tree>)
    returns (o: Outcome, receipt: Option<CutoverPlan>)
    requires GoodPlan(p) && Settled(dirs) && Current(p, dirs) && !NoStale(dirs)
    ensures o == SweepFailed && receipt == Some(p)
  {
    var w := new Workstation(dirs, None, [], [RaiseBefore]);
    var committed;
    o, committed := w.Apply(p, part, first, second);
    receipt := w.receipt;
  }

  /** A source nobody swapped is what the plan saw if it is so now. */
  lemma RestSame(p: CutoverPlan, dirs: Dirs, was: Dirs, prepared: seq<Name>)
    requires GoodPlan(p) && SourcesKept(dirs, was, Names(prepared))
    requires forall n :: n in prepared && n in p.current ==> At(was, Target(n)) == p.current[n]
    requires forall n :: n in SOURCES && n !in prepared ==> At(dirs, Target(n)) == p.current[n]
    ensures Current(p, was)
  {
    forall n | n in SOURCES ensures At(was, Target(n)) == p.current[n] {
      if n !in prepared { assert At(dirs, Target(n)) == At(was, Target(n)); }
    }
  }

  lemma StagesAre(dirs: Dirs)
    ensures (exists d :: d in dirs && (d.Staged? || d.Stale?)) <==> !NoStale(dirs) || exists n :: Staged(n) in dirs
  {
    if d :| d in dirs && (d.Staged? || d.Stale?) { assert d == if d.Staged? then Staged(d.name) else Stale(d.name); }
  }

  lemma StaleIsThere(dirs: Dirs, was: Dirs)
    requires StaleSame(dirs, was)
    ensures NoStale(dirs) <==> NoStale(was)
  {
    forall n ensures Stale(n) in dirs <==> Stale(n) in was { assert At(dirs, Stale(n)) == At(was, Stale(n)); }
  }

  /** Sweeping stage directories changes neither sources nor skills. */
  lemma SweptSame(dirs: Dirs, before: Dirs, was: Dirs, p: CutoverPlan)
    requires forall d: Place :: !d.Staged? && !d.Stale? ==> At(dirs, d) == At(before, d)
    ensures Desired(before, was, p) ==> Desired(dirs, was, p)
    ensures SourcesSame(before, was) ==> SourcesSame(dirs, was)
    ensures SkillsSame(before, was) ==> SkillsSame(dirs, was)
    ensures forall n :: RollbackOf(n) in dirs <==> RollbackOf(n) in before
    ensures forall n :: BackupOf(n) in dirs <==> BackupOf(n) in before
  {
    forall n ensures RollbackOf(n) in dirs <==> RollbackOf(n) in before {
      assert At(dirs, RollbackOf(n)) == At(before, RollbackOf(n));
    }
    forall n ensures BackupOf(n) in dirs <==> BackupOf(n) in before {
      assert At(dirs, BackupOf(n)) == At(before, BackupOf(n));
    }
  }

  lemma StaleAside(dirs: Dirs, before: Dirs, was: Dirs)
    requires OnlySources(dirs, before)
    ensures StaleSame(before, was) ==> StaleSame(dirs, was)
    ensures before == was ==> StaleSame(dirs, was)
  {
  }

  lemma KeptTargets(dirs: Dirs, was: Dirs)
    requires SourcesKept(dirs, was, {})
    ensures forall n :: At(dirs, Target(n)) == At(was, Target(n))
  {
  }

  lemma NothingYet(dirs: Dirs)
    requires Settled(dirs)
    ensures SourcesKept(dirs, dirs, {}) && SkillsBacked(dirs, dirs, {}) && OnlySources(dirs, dirs)
  {
    forall n ensures RollbackOf(n) !in dirs { }
  }

  lemma StagedOnly(dirs: Dirs, before: Dirs, was: Dirs, n: Name)
    requires Only(dirs, before, {Staged(n)})
    requires SourcesKept(before, was, {}) && SkillsBacked(before, was, {}) && OnlySources(before, was)
    ensures SourcesKept(dirs, was, {}) && SkillsBacked(dirs, was, {}) && OnlySources(dirs, was)
    ensures forall m :: At(dirs, Target(m)) == At(before, Target(m))
    ensures forall m :: m != n ==> At(dirs, Staged(m)) == At(before, Staged(m))
  {
    forall m ensures At(dirs, Target(m)) == At(before, Target(m)) { }
    forall m ensures RollbackOf(m) in dirs <==> RollbackOf(m) in before {
      assert At(dirs, RollbackOf(m)) == At(before, RollbackOf(m));
    }
  }

  /** Of the staged directories, those swapped in are gone. */
  ghost predicate StagedLeft(dirs: Dirs, was: Dirs, gone: seq<Name>) {
    forall n :: Staged(n) in dirs ==> Staged(n) in was && n !in gone
  }

  lemma StagedGoes(dirs: Dirs, before: Dirs, was: Dirs, gone: seq<Name>, n: Name)
    requires Only(dirs, before, {Target(n), RollbackOf(n), Staged(n)})
    ensures StagedLeft(before, was, gone) && Staged(n) !in dirs ==> StagedLeft(dirs, was, gone + [n])
    ensures StagedLeft(dirs, dirs, [])
  {
    forall m | m != n ensures Staged(m) in dirs <==> Staged(m) in before {
      assert At(dirs, Staged(m)) == At(before, Staged(m));
    }
  }

  lemma SourcesOnly(dirs: Dirs, before: Dirs, was: Dirs, n: Name)
    requires Only(dirs, before, {Target(n), RollbackOf(n), Staged(n)})
    ensures OnlySources(before, was) ==> OnlySources(dirs, was)
    ensures OnlySources(dirs, dirs)
    ensures forall m :: m != n ==>
              At(dirs, Target(m)) == At(before, Target(m)) && At(dirs, Staged(m)) == At(before, Staged(m))
  {
  }

  lemma KeepsSkills(dirs: Dirs, before: Dirs, was: Dirs)
    requires OnlySources(dirs, before) && SkillsBacked(before, was, {})
    ensures SkillsBacked(dirs, was, {})
  {
  }

  lemma Untouched(dirs: Dirs, was: Dirs)
    requires SkillsBacked(dirs, was, {})
    ensures SkillsSame(dirs, was)
  {
  }

  lemma NoBackups(dirs: Dirs, before: Dirs)
    requires OnlySources(dirs, before) && forall n :: BackupOf(n) !in before
    ensures forall n :: BackupOf(n) !in dirs
  {
    forall n ensures BackupOf(n) !in dirs { assert At(dirs, BackupOf(n)) == At(before, BackupOf(n)); }
  }

  lemma KeptAside(dirs: Dirs, before: Dirs, was: Dirs, swapped: set<Name>)
    requires OnlySkills(dirs, before) && SourcesKept(before, was, swapped)
    ensures SourcesKept(dirs, was, swapped)
  {
    forall n
      ensures At(dirs, Target(n)) == At(before, Target(n)) && At(dirs, RollbackOf(n)) == At(before, RollbackOf(n))
    { }
  }

  /** Work on the skills leaves the sources as they are. */
  lemma SkillsAside(dirs: Dirs, before: Dirs, was: Dirs, swapped: set<Name>, p: CutoverPlan)
    requires OnlySkills(dirs, before) && SourcesKept(before, was, swapped)
    ensures SourcesKept(dirs, was, swapped) && (Desired(before, was, p) ==> Desired(dirs, was, p))
    ensures StaleSame(before, was) ==> StaleSame(dirs, was)
    ensures forall n :: Staged(n) in dirs <==> Staged(n) in before
  {
    forall n ensures Staged(n) in dirs <==> Staged(n) in before { assert At(dirs, Staged(n)) == At(before, Staged(n)); }
    forall n
      ensures At(dirs, Target(n)) == At(before, Target(n)) && At(dirs, RollbackOf(n)) == At(before, RollbackOf(n))
    { }
  }

  lemma InstalledSkills(dirs: Dirs, before: Dirs, was: Dirs, swapped: set<Name>, p: CutoverPlan)
    requires Only(dirs, before, {Skill(SKILLS[0]), Skill(SKILLS[1])})
    requires SourcesKept(before, was, swapped) && Desired(before, was, p) && SkillsBacked(before, was, Names(SKILLS))
    ensures SourcesKept(dirs, was, swapped) && Desired(dirs, was, p) && SkillsBacked(dirs, was, Names(SKILLS))
    ensures StaleSame(before, was) ==> StaleSame(dirs, was)
    ensures forall n :: Staged(n) in dirs <==> Staged(n) in before
  {
    SkillsAside(dirs, before, was, swapped, p);
    forall n ensures At(dirs, BackupOf(n)) == At(before, BackupOf(n)) { }
    forall n | n !in SKILLS ensures At(dirs, Skill(n)) == At(before, Skill(n)) { }
  }

  lemma SwappedIsDesired(dirs: Dirs, was: Dirs, p: CutoverPlan, prepared: seq<Name>)
    requires SourcesKept(dirs, was, Names(prepared))
    requires forall n :: n in prepared ==> n in p.desired && At(dirs, Target(n)) == Some(p.desired[n])
    requires forall n :: n in p.desired && n !in prepared ==> At(was, Target(n)) == Some(p.desired[n])
    ensures Desired(dirs, was, p)
  {
  }

  function Names(s: seq<Name>): set<Name> {
    set n | n in s
  }

  lemma NamesMore(s: seq<Name>, n: Name)
    ensures Names(s + [n]) == Names(s) + {n}
  {
  }

  /** Nothing but these places changed. */
  ghost predicate Only(dirs: Dirs, was: Dirs, places: set<Place>) {
    forall d: Place :: d !in places ==> At(dirs, d) == At(was, d)
  }

  ghost predicate OnlySources(dirs: Dirs, was: Dirs) {
    forall d: Place :: d.Skill? || d.BackupOf? || d.Stale? ==> At(dirs, d) == At(was, d)
  }

  ghost predicate OnlySkills(dirs: Dirs, was: Dirs) {
    forall d: Place :: !d.Skill? && !d.BackupOf? ==> At(dirs, d) == At(was, d)
  }
}
