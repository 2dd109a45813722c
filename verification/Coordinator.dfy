/**
 The coordinator itself: `recover` and `apply` as methods that change the documents, the
 journal directory and the tables one durable effect at a time. Before each effect the
 environment decides whether it happens, raises (before or after taking effect), or the
 process dies. Every run of these methods is a run of the protocol.
 */
module Coordinator {
  import opened Prelude
  import opened Faults
  import L = Ledger
  import opened Protocol
  import P = ProtocolProofs
  import A = Atomicity

  datatype Outcome = Completed | Failed(committed: bool) | Crashed

  datatype Plan = Plan(path: Path, existed: bool, before: Text, after: Text)

  function EntryOf(p: Plan): Entry {
    Entry(p.path,
          if p.existed then Present(p.before) else Absent,
          if p.after != "" || p.existed then Present(p.after) else Absent)
  }

  function EntriesOf(plans: seq<Plan>): seq<Entry> {
    seq(|plans|, i requires 0 <= i < |plans| => EntryOf(plans[i]))
  }

  /** Plans as the planners make them, one document each. */
  ghost predicate GoodPlans(plans: seq<Plan>) {
    && 1 <= |plans| <= 2 && (forall i, j :: 0 <= i < j < |plans| ==> plans[i].path != plans[j].path)
    && forall i :: 0 <= i < |plans| && !plans[i].existed ==> plans[i].before == ""
  }

  /** A global change writes the same bytes over the same bytes, in the source and in the target. */
  ghost predicate GlobalPlans(w: World, plans: seq<Plan>) {
    && |plans| == 2 && plans[0].path == w.source && plans[1].path == w.target
    && plans[0].before == plans[1].before && plans[0].after == plans[1].after
  }

  /** Every document is what its plan saw: these bytes, or no file where there was none. */
  ghost predicate AsPlanned(files: Files, plans: seq<Plan>) {
    forall i :: 0 <= i < |plans| ==>
      Read(files, plans[i].path) == if plans[i].existed then Present(plans[i].before) else Absent
  }

  /** Every document holds its planned bytes; only a file that was not there and stays empty is not made. */
  ghost predicate AllWritten(files: Files, plans: seq<Plan>) {
    forall i :: 0 <= i < |plans| ==>
      Read(files, plans[i].path) ==
      if plans[i].existed || plans[i].after != "" then Present(plans[i].after) else Absent
  }

  ghost predicate OthersKept(files: Files, was: Files, plans: seq<Plan>) {
    forall q :: (forall i :: 0 <= i < |plans| ==> plans[i].path != q) ==> Read(files, q) == Read(was, q)
  }

  lemma PlansAreEntries(w: World, plans: seq<Plan>)
    requires GoodPlans(plans)
    ensures WellEntries(EntriesOf(plans)) && NoHiddenChange(EntriesOf(plans))
    ensures Data(EntriesOf(plans)[0].after) == plans[0].after
    ensures GlobalPlans(w, plans) ==> GlobalPair(w, EntriesOf(plans))
    ensures AllAt(w, EntriesOf(plans), false) <==> AsPlanned(w.files, plans)
    ensures AllAt(w, EntriesOf(plans), true) <==> AllWritten(w.files, plans)
  {
    var es := EntriesOf(plans);
    assert forall i :: 0 <= i < |plans| ==> es[i] == EntryOf(plans[i]);
    forall i | 0 <= i < |plans| ensures es[i].path == plans[i].path { }
  }

  lemma NothingTouched(w0: World, w1: World)
    requires TouchesOnlyKnownStates(w0, w1) && w0.journals == map[]
    ensures forall p :: Read(w1.files, p) == Read(w0.files, p)
  {
  }

  ghost predicate Shown(w: World) {
    forall p :: Read(w.files, p) == Read(Replay(w.base, w.log), p)
  }

  /** One logged transaction changes its own targets only, and none changes nothing. */
  lemma OneChange(w0: World, w1: World, tx: L.TxId, event: L.EventId, plans: seq<Plan>)
    requires GoodPlans(plans) && Shown(w0) && Shown(w1) && w1.base == w0.base
    ensures w1.log == w0.log ==> forall p :: Read(w1.files, p) == Read(w0.files, p)
    ensures w1.log == w0.log + [Transaction(tx, event, EntriesOf(plans))] ==> OthersKept(w1.files, w0.files, plans)
  {
    hide Replay;
    var es := EntriesOf(plans);
    assert forall i :: 0 <= i < |plans| ==> es[i].path == plans[i].path;
    P.ReplayNext(w0.base, w0.log, Transaction(tx, event, es));
    forall q | forall i :: 0 <= i < |plans| ==> plans[i].path != q
      ensures Read(Overlay(Replay(w0.base, w0.log), es), q) == Read(Replay(w0.base, w0.log), q)
    {
      OverlayReads(Replay(w0.base, w0.log), es, q);
    }
  }

  /** Same bytes before and after means the same state: such a target is not written. */
  ghost predicate NoHiddenChange(es: seq<Entry>) {
    forall i :: 0 <= i < |es| && Data(es[i].after) == Data(es[i].before) ==> es[i].after == es[i].before
  }

  /** Every outstanding journal can be read and decided. */
  ghost predicate Recoverable(w: World) {
    && w.drifted == {}
    && forall tx :: tx in w.journals ==>
         w.journals[tx].phase != Unreadable && !A.EvidenceOf(w.sys.db, w.journals[tx], tx).Unproven?
  }

  /** History and tables as they were: recovery changes only documents and journals. */
  ghost predicate SameHistory(w0: World, w1: World) {
    && w1.log == w0.log && w1.base == w0.base && w1.spent == w0.spent && w1.sys == w0.sys && w1.used == w0.used
    && w1.source == w0.source && w1.target == w0.target && w1.drifted <= w0.drifted
  }

  ghost predicate SameButJournals(w0: World, w1: World) {
    w1 == w0.(journals := w1.journals, used := w1.used, drifted := w1.drifted) && w1.drifted <= w0.drifted
  }

  /** Only a target found in its journal's before or after state is ever overwritten. */
  ghost predicate TouchesOnlyKnownStates(w0: World, w1: World) {
    forall p :: Read(w1.files, p) != Read(w0.files, p) ==> exists tx, i :: KnownTarget(w0, tx, i, p)
  }

  ghost predicate KnownTarget(w: World, tx: L.TxId, i: int, p: Path) {
    && OwnedBy(w, tx, i, p) && w.journals[tx].phase != Unreadable
    && Read(w.files, p) in {w.journals[tx].entries[i].before, w.journals[tx].entries[i].after}
  }

  ghost predicate Finished(w0: World, w1: World, done: set<L.TxId>) {
    forall tx, i :: tx in done && tx in w0.journals && 0 <= i < |w0.journals[tx].entries| ==>
      FinishedTarget(w0, w1, tx, i)
  }

  ghost predicate FinishedTarget(w0: World, w1: World, tx: L.TxId, i: int)
    requires tx in w0.journals && 0 <= i < |w0.journals[tx].entries|
  {
    && w0.journals[tx].phase != Unreadable
    && Read(w1.files, w0.journals[tx].entries[i].path) == Settled(w0, tx, w0.journals[tx].entries[i])
  }

  ghost predicate Recovered(w0: World, w1: World, done: set<L.TxId>) {
    && SameHistory(w0, w1) && TouchesOnlyKnownStates(w0, w1)
    && done <= w0.journals.Keys && w1.journals == w0.journals - done
    && Finished(w0, w1, done)
  }

  lemma TouchesThen(w0: World, w1: World, w2: World, done: set<L.TxId>)
    requires Recovered(w0, w1, done)
    requires SameHistory(w1, w2) && TouchesOnlyKnownStates(w1, w2)
    ensures SameHistory(w0, w2) && TouchesOnlyKnownStates(w0, w2)
  {
    forall p | Read(w2.files, p) != Read(w0.files, p) ensures exists t, i :: KnownTarget(w0, t, i, p) {
      if Read(w1.files, p) == Read(w0.files, p) {
        var t, i :| KnownTarget(w1, t, i, p);
        assert KnownTarget(w0, t, i, p);
      }
    }
  }

  /** Recovering one more journal leaves those already recovered as they are. */
  lemma RecoveredThen(w0: World, w1: World, w2: World, done: set<L.TxId>, tx: L.TxId)
    requires Disjoint(w0) && Recovered(w0, w1, done) && tx in w1.journals && Recovered(w1, w2, {tx})
    ensures Recovered(w0, w2, done + {tx})
  {
    TouchesThen(w0, w1, w2, done);
    assert w2.journals == w0.journals - (done + {tx});
    forall t, i | t in done + {tx} && t in w0.journals && 0 <= i < |w0.journals[t].entries|
      ensures FinishedTarget(w0, w2, t, i)
    {
      var e := w0.journals[t].entries[i];
      if t == tx {
        assert FinishedTarget(w1, w2, t, i);
      } else {
        assert FinishedTarget(w0, w1, t, i);
      }
    }
  }

  ghost predicate NoneEdited(w: World, es: seq<Entry>) {
    forall i :: 0 <= i < |es| ==> es[i].path !in w.drifted
  }

  lemma {:induction false} NothingUnder(w: World, es: seq<Entry>)
    requires NoneEdited(w, es)
    ensures EditsUnder(w, es) == []
  {
    if es != [] { NothingUnder(w, es[..|es| - 1]); }
  }

  /** The plans are fresh, and the documents are still as planned. */
  ghost predicate MayBegin(w: World, tx: L.TxId, es: seq<Entry>, global: bool) {
    tx !in w.used && WellEntries(es) && AllAt(w, es, false) && (global ==> GlobalPair(w, es))
  }

  lemma {:induction false} NothingAside(w: World, es: seq<Entry>)
    requires AllAt(w, es, false)
    ensures SetAside(w, es) == [] && Stale(w, es) == {}
  {
    if es != [] { NothingAside(w, es[..|es| - 1]); }
  }

  /** With nothing edited between check and directory, only the journal is new. */
  lemma CheckThenBegin(w: World, tx: L.TxId, es: seq<Entry>, event: L.EventId, global: bool)
    requires MayBegin(w, tx, es, global) && w.journals == map[]
    ensures Enabled(w, Check(es)) && Enabled(Do(w, Check(es)), Begin(tx, es, event, global))
    ensures Do(Do(w, Check(es)), Begin(tx, es, event, global)) ==
            w.(journals := map[tx := Journal(es, Some(event), global, Unreadable)], used := w.used + {tx},
               seen := SawNothing)
  {
    hide L.Exec, L.Settle, SetAside, Stale;
    var w1 := Do(w, Check(es));
    NothingAside(w1, es);
    assert forall i :: 0 <= i < |es| ==> !Owned(w1, es[i].path);
    var w2 := Do(w1, Begin(tx, es, event, global));
    assert w2.log == w.log + [] && w2.drifted == w.drifted + {};
    assert w2.journals == map[tx := Journal(es, Some(event), global, Unreadable)];
  }

  /** With nothing edited between check and write, a target in a known state takes the settled one. */
  lemma LookThenRestore(w: World, tx: L.TxId, i: nat, committed: bool)
    requires tx in w.journals && i < |w.journals[tx].entries| && w.journals[tx].phase != Unreadable
    requires committed <==> tx in w.spent
    requires var e := w.journals[tx].entries[i]; Read(w.files, e.path) in {e.before, e.after}
    ensures Enabled(w, Look(tx, i, committed)) && Enabled(Do(w, Look(tx, i, committed)), Restore(tx, i, committed))
    ensures var e := w.journals[tx].entries[i];
            Do(Do(w, Look(tx, i, committed)), Restore(tx, i, committed)) ==
            w.(files := Write(w.files, e.path, if committed then e.after else e.before),
               drifted := w.drifted - {e.path}, seen := SawNothing)
  {
    hide L.Exec, L.Settle, GlobalPair, SetAside, Stale;
  }

  lemma RetireThenDelete(w: World, tx: L.TxId)
    requires tx in w.journals && Enabled(w, Retire(tx)) && NoneEdited(w, w.journals[tx].entries)
    ensures var w' := Do(w, Retire(tx));
            && w' == w.(journals := w.journals - {tx}, retired := w.retired + {tx}, drifted := w'.drifted,
                        seen := SawNothing)
            && w'.drifted <= w.drifted && Enabled(w', Delete(tx))
            && Do(w', Delete(tx)) == w'.(retired := w'.retired - {tx})
  {
    hide L.Exec, L.Settle, GlobalPair, SetAside, Stale;
    NothingUnder(w, w.journals[tx].entries);
  }

  lemma PlayMore(w: World, actions: seq<Action>, a: Action)
    requires Legal(w, actions) && Enabled(Play(w, actions), a)
    ensures Legal(w, actions + [a]) && Play(w, actions + [a]) == Do(Play(w, actions), a)
  {
    hide Enabled, Do;
    var longer := actions + [a];
    assert longer[..|longer| - 1] == actions;
  }

  class FileTransactionCoordinator {
    var files: Files
    var journals: map<L.TxId, Journal>
    var retired: set<L.TxId>
    var db: L.Db
    var fates: seq<Fate>
    ghost var world: World
    ghost var origin: World
    ghost var actions: seq<Action>
    ghost var dead: bool

    ghost predicate Valid()
      reads this
    {
      && files == world.files && journals == world.journals && retired == world.retired && db == world.sys.db
      && Init(origin) && Legal(origin, actions) && world == Play(origin, actions) && world.seen == SawNothing
    }

    constructor (files: Files, db: L.Db, fates: seq<Fate>, ghost w: World)
      requires Init(w) && w.files == files && w.sys.db == db && w.retired == {}
      ensures Valid() && world == w && this.fates == fates && !dead
    {
      this.files, journals, retired, this.db, this.fates := files, map[], {}, db, fates;
      world, origin, actions, dead := w, w, [], false;
    }

    lemma Holds()
      requires Valid()
      ensures Inv(world)
    {
      InitInv(origin);
      P.PlayInv(origin, actions);
    }

    lemma HoldsDisjoint()
      requires Valid()
      ensures Disjoint(world)
    {
      Holds();
    }

    lemma HoldsEntries(tx: L.TxId)
      requires Valid() && tx in journals
      ensures WellEntries(journals[tx].entries)
      ensures world.drifted == {} ==>
                forall i :: 0 <= i < |journals[tx].entries| ==>
                  var e := journals[tx].entries[i]; Read(files, e.path) in {e.before, e.after}
    {
      Holds();
      assert JournalOk(world, tx);
      forall i | 0 <= i < |journals[tx].entries| ensures TargetOk(world, tx, journals[tx].entries[i]) { }
    }

    lemma HoldsEvidence(tx: L.TxId)
      requires Valid() && tx in journals
      ensures A.EvidenceOf(db, journals[tx], tx).ProvenCommitted? ==> tx in world.spent
      ensures A.EvidenceOf(db, journals[tx], tx).ProvenRolledBack? ==> tx !in world.spent
    {
      Holds();
      A.EvidenceIsSound(world, tx);
    }

    method Draw() returns (f: Fate)
      requires !dead
      modifies this`fates, this`dead
      ensures f == NextFate(old(fates)) && fates == LaterFates(old(fates)) && (dead <==> f == Die)
    {
      f, fates := NextFate(fates), LaterFates(fates);
      dead := f.Die?;
    }

    /** A read, or any other step that can raise or be interrupted but changes nothing. */
    method Glance() returns (s: Signal)
      requires !dead
      modifies this`fates, this`dead
      ensures dead <==> s.Died?
      ensures fates == LaterFates(old(fates)) && (s.Done? <==> NextFate(old(fates)) == Proceed)
      ensures s.Died? <==> NextFate(old(fates)) == Die
    {
      var f := Draw();
      s := if f.Proceed? then Done else if f.Die? then Died else Raised;
    }

    /** One durable effect, `a`, already allowed by the protocol. */
    method Persist(files': Files, journals': map<L.TxId, Journal>, retired': set<L.TxId>, db': L.Db, ghost a: Action)
      returns (s: Signal)
      requires Valid() && !dead && Enabled(world, a) && !a.Check? && !a.Look?
      requires Do(world, a).files == files' && Do(world, a).journals == journals'
      requires Do(world, a).retired == retired' && Do(world, a).sys.db == db'
      modifies this
      ensures dead <==> s.Died?
      ensures Valid() && origin == old(origin)
      ensures world == if NextFate(old(fates)) in {Proceed, RaiseAfter} then Do(old(world), a) else old(world)
      ensures s.Done? <==> NextFate(old(fates)) == Proceed
      ensures s.Died? <==> NextFate(old(fates)) == Die
      ensures Calm(old(fates)) ==> Calm(fates) && s.Done?
      ensures Tame(old(fates)) ==> Tame(fates) && !s.Died? && (s.Raised? ==> Calm(fates))
    {
      hide Init, Possible, Effect, Inv, Legal, Play;
      var f := Draw();
      if f.Die? { return Died; }
      if f.RaiseBefore? { return Raised; }
      files, journals, retired, db := files', journals', retired', db';
      PlayMore(origin, actions, a);
      world, actions := Do(world, a), actions + [a];
      s := if f.RaiseAfter? then Raised else Done;
    }

    /** An effect that relies on a check made just before it, `look`. */
    method PersistChecked(files': Files, journals': map<L.TxId, Journal>, ghost look: Action, ghost a: Action)
      returns (s: Signal)
      requires Valid() && !dead && Enabled(world, look) && (look.Check? || look.Look?)
      requires Enabled(Do(world, look), a) && (a.Begin? || a.Restore?)
      requires var w := Do(Do(world, look), a);
               w.files == files' && w.journals == journals' && w.retired == retired && w.sys.db == db
      modifies this
      ensures dead <==> s.Died?
      ensures Valid() && origin == old(origin)
      ensures world == if NextFate(old(fates)) in {Proceed, RaiseAfter} then Do(Do(old(world), look), a) else old(world)
      ensures s.Done? <==> NextFate(old(fates)) == Proceed
      ensures s.Died? <==> NextFate(old(fates)) == Die
      ensures Calm(old(fates)) ==> Calm(fates) && s.Done?
      ensures Tame(old(fates)) ==> Tame(fates) && !s.Died? && (s.Raised? ==> Calm(fates))
    {
      hide Init, Possible, Effect, Inv, Legal, Play;
      var f := Draw();
      if f.Die? { return Died; }
      if f.RaiseBefore? { return Raised; }
      files, journals := files', journals';
      PlayMore(origin, actions, look);
      PlayMore(origin, actions + [look], a);
      world, actions := Do(Do(world, look), a), actions + [look] + [a];
      s := if f.RaiseAfter? then Raised else Done;
    }

    // ---------------------------------------------------------------- what happens between calls

    /** The next process, after one that died. */
    method Restart()
      modifies this`dead
      ensures !dead
    {
      dead := false;
    }

    /** Any other transaction of the runtime: captures with their pruning, proposals, discards. */
    method OtherTransaction(op: L.Op) returns (s: Signal)
      requires Valid() && !dead && Enabled(world, Ledger(op))
      requires op.DoCapture? ==> op.id !in world.sys.issued
      modifies this
      ensures dead <==> s.Died?
      ensures Valid() && origin == old(origin) && files == old(files) && journals == old(journals)
      ensures s.Done? && L.Attempt(old(db), op).Ok? ==> db == L.Attempt(old(db), op).value
      ensures s.Done? && L.Attempt(old(db), op).Err? ==> db == old(db)
    {
      var attempt := L.Attempt(db, op);
      s := Persist(files, journals, retired, if attempt.Ok? then attempt.value else db, Ledger(op));
    }

    /** A person edits or removes a document, whether or not a journal is outstanding on it. */
    method EditByHand(p: Path, f: File) returns (s: Signal)
      requires Valid() && !dead
      modifies this
      ensures dead <==> s.Died?
      ensures Valid() && origin == old(origin) && journals == old(journals) && db == old(db)
      ensures s.Done? ==> files == Write(old(files), p, f)
    {
      s := Persist(Write(files, p, f), journals, retired, db, UserEdit(p, f));
    }

    // ---------------------------------------------------------------- recover

    method Recover() returns (s: Signal)
      requires Valid() && !dead
      modifies this
      ensures dead <==> s.Died?
      ensures Valid() && origin == old(origin)
      ensures SameHistory(old(world), world) && TouchesOnlyKnownStates(old(world), world)
      ensures journals.Keys <= old(journals).Keys
      ensures s.Done? ==> journals == map[] && retired == {} && Finished(old(world), world, old(world).journals.Keys)
      ensures Calm(old(fates)) && Recoverable(old(world)) ==> s.Done? && Calm(fates)
      ensures Tame(old(fates)) && old(journals) == map[] ==> Tame(fates) && !s.Died?
    {
      hide Legal, Play, Init, L.Exec;
      s := SweepRetired();
      if !s.Done? { return; }
      HoldsDisjoint();
      ghost var start := old(world);
      ghost var done: set<L.TxId> := {};
      var pending := journals.Keys;
      while pending != {}
        invariant Valid() && origin == old(origin) && !dead
        invariant pending == journals.Keys && pending == start.journals.Keys - done
        invariant Recovered(start, world, done) && retired == {}
        invariant Calm(old(fates)) && Recoverable(old(world)) ==> Calm(fates) && Recoverable(world)
        invariant old(journals) == map[] && Tame(old(fates)) ==> Tame(fates)
        decreases pending
      {
        var tx :| tx in pending;
        ghost var before := world;
        s := RecoverOne(tx);
        TouchesThen(start, before, world, done);
        if !s.Done? { return; }
        RecoveredThen(start, before, world, done, tx);
        pending := pending - {tx};
        done := done + {tx};
      }
      s := Glance();
    }

    /** Directories already renamed hold no evidence; they are only deleted. */
    method SweepRetired() returns (s: Signal)
      requires Valid() && !dead
      modifies this
      ensures dead <==> s.Died?
      ensures Valid() && origin == old(origin)
      ensures world == old(world).(retired := world.retired)
      ensures s.Done? ==> retired == {}
      ensures Calm(old(fates)) ==> Calm(fates) && s.Done?
      ensures Tame(old(fates)) ==> Tame(fates) && !s.Died? && (s.Raised? ==> Calm(fates))
    {
      hide Legal, Play, Init, L.Exec, L.Settle;
      s := Done;
      var pending := retired;
      while pending != {}
        invariant Valid() && origin == old(origin) && s.Done? && !dead
        invariant world == old(world).(retired := world.retired) && pending == retired
        invariant Tame(old(fates)) ==> Tame(fates)
        invariant Calm(old(fates)) ==> Calm(fates)
        decreases pending
      {
        var tx :| tx in pending;
        s := Persist(files, journals, retired - {tx}, db, Delete(tx));
        if !s.Done? { return; }
        pending := pending - {tx};
      }
    }

    method RecoverOne(tx: L.TxId) returns (s: Signal)
      requires Valid() && !dead && tx in journals
      modifies this
      ensures dead <==> s.Died?
      ensures Valid() && origin == old(origin)
      ensures SameHistory(old(world), world) && TouchesOnlyKnownStates(old(world), world)
      ensures journals.Keys <= old(journals).Keys
      ensures s.Done? ==> Recovered(old(world), world, {tx}) && retired == old(retired) - {tx}
      ensures Calm(old(fates)) && Recoverable(old(world)) ==> s.Done? && Calm(fates) && Recoverable(world)
    {
      hide Legal, Play, Init, L.Exec, L.Settle;
      var j := journals[tx];
      if j.phase == Unreadable { return Raised; }
      s := Glance();
      if !s.Done? { return; }
      HoldsEvidence(tx);
      var committed := j.phase == Committed || L.TxRecorded(db, tx);
      if !committed && !(j.event.Some? && j.event.value in db.events) { return Raised; }
      s := RestoreTargets(tx, committed);
      if !s.Done? { return; }
      ghost var mid := world;
      s := Discard(tx);
      if s.Done? { DiscardRecovers(old(world), mid, world, tx); }
    }

    method RestoreTargets(tx: L.TxId, committed: bool) returns (s: Signal)
      requires Valid() && !dead && tx in journals && journals[tx].phase != Unreadable
      requires committed <==> tx in world.spent
      modifies this
      ensures dead <==> s.Died?
      ensures Valid() && origin == old(origin)
      ensures SameHistory(old(world), world) && TouchesOnlyKnownStates(old(world), world)
      ensures journals == old(journals) && retired == old(retired)
      ensures s.Done? ==> AllAt(world, journals[tx].entries, committed) && NoneEdited(world, journals[tx].entries)
      ensures Calm(old(fates)) && old(world).drifted == {} ==> Calm(fates) && s.Done?
    {
      hide Legal, Play, Init, Enabled, L.Exec, TouchesOnlyKnownStates;
      ghost var w0 := world;
      var es := journals[tx].entries;
      HoldsEntries(tx);
      s := Done;
      for i := 0 to |es|
        invariant Valid() && origin == old(origin) && s.Done? && !dead
        invariant SameHistory(w0, world) && journals == old(journals) && retired == old(retired)
        invariant forall k :: 0 <= k < i ==> Read(files, es[k].path) == if committed then es[k].after else es[k].before
        invariant RestoredUpTo(w0, world, es, i)
        invariant forall k :: 0 <= k < i ==> es[k].path !in world.drifted
        invariant Calm(old(fates)) && w0.drifted == {} ==> Calm(fates)
      {
        ghost var w1 := world;
        s := RestoreTarget(tx, i, committed);
        RestoredNext(w0, w1, world, es, i, committed);
        if !s.Done? {
          OnlyTargets(w0, world, tx, i + 1);
          return;
        }
      }
      OnlyTargets(w0, world, tx, |es|);
    }

    /** Read one target; overwrite it only if it holds the before or the after state. */
    method RestoreTarget(tx: L.TxId, i: nat, committed: bool) returns (s: Signal)
      requires Valid() && !dead && tx in journals && journals[tx].phase != Unreadable && i < |journals[tx].entries|
      requires committed <==> tx in world.spent
      modifies this
      ensures dead <==> s.Died?
      ensures Valid() && origin == old(origin)
      ensures SameHistory(old(world), world) && journals == old(journals) && retired == old(retired)
      ensures world.files == old(world).files || RestoredOne(old(world), world, journals[tx].entries[i], committed)
      ensures s.Done? ==> RestoredOne(old(world), world, journals[tx].entries[i], committed)
      ensures Calm(old(fates)) && old(world).drifted == {} ==> Calm(fates) && s.Done?
    {
      var e := journals[tx].entries[i];
      HoldsEntries(tx);
      if Read(files, e.path) !in {e.before, e.after} { return Raised; }
      hide Do, Enabled, Legal, Play, Init;
      LookThenRestore(world, tx, i, committed);
      s := PersistChecked(Write(files, e.path, if committed then e.after else e.before), journals,
                          Look(tx, i, committed), Restore(tx, i, committed));
    }

    /** Retire the journal by one rename, then delete it. */
    method Discard(tx: L.TxId) returns (s: Signal)
      requires Valid() && !dead && Enabled(world, Retire(tx)) && NoneEdited(world, journals[tx].entries)
      modifies this
      ensures dead <==> s.Died?
      ensures Valid() && origin == old(origin)
      ensures SameHistory(old(world), world) && files == old(files)
      ensures journals == old(journals) || journals == old(journals) - {tx}
      ensures s.Done? ==> journals == old(journals) - {tx} && retired == old(retired) - {tx}
      ensures world.drifted <= old(world).drifted
      ensures Calm(old(fates)) ==> Calm(fates) && s.Done?
      ensures Tame(old(fates)) ==> Tame(fates) && !s.Died? && (s.Raised? ==> Calm(fates))
    {
      RetireThenDelete(world, tx);
      hide Do, Enabled, Legal, Play, Init;
      s := Persist(files, journals - {tx}, retired + {tx}, db, Retire(tx));
      if !s.Done? { return; }
      s := Persist(files, journals, retired - {tx}, db, Delete(tx));
    }

    // ---------------------------------------------------------------- apply

    /**
     One journaled transaction. It reports a commit exactly when its own consumption was
     recorded, whatever was raised and wherever; when it reports none and its journal is gone,
     every document is as it meant before the call.
     */
    method Apply(tx: L.TxId, plans: seq<Plan>, request: L.Request, global: bool) returns (o: Outcome)
      requires Valid() && !dead && tx !in world.used && GoodPlans(plans)
      requires request.tx == Some(tx) && request.rebind == if global then Some(Sha256(plans[0].after)) else None
      requires global ==> GlobalPlans(world, plans)
      modifies this
      ensures dead <==> o.Crashed?
      ensures Valid() && origin == old(origin)
      ensures var committed := old(world).log + [Transaction(tx, request.approval.event, EntriesOf(plans))];
              && (o.Completed? || o == Failed(true) ==> world.log == committed && tx in world.spent)
              && (o == Failed(false) ==> world.log == old(world).log && tx !in world.spent)
              && (o.Crashed? ==> world.log in {old(world).log, committed})
      ensures o.Completed? ==> journals == map[] && AllWritten(files, plans)
      ensures journals == map[] ==> Shown(world)
      ensures old(journals) == map[] && journals == map[] ==>
                && (o == Failed(false) ==> forall p :: Read(files, p) == Read(old(files), p))
                && (o.Completed? || o == Failed(true) ==> OthersKept(files, old(files), plans))
      ensures Calm(old(fates)) && old(journals) == map[] && AsPlanned(old(files), plans) ==>
                journals == map[] && (o.Completed? <==> L.Settle(old(db), request).Ok?)
      ensures Tame(old(fates)) && old(journals) == map[] && L.Settle(old(db), request).Ok? ==>
                if o == Failed(false)
                then (forall p :: Read(files, p) == Read(old(files), p)) && (journals == map[] || Remnant(tx))
                else !o.Crashed? && AllWritten(files, plans)
    {
      hide Legal, Play, Init, L.Exec, L.Settle, Replay, EntriesOf, AllAt, GlobalPair, Shown, OthersKept,
           TouchesOnlyKnownStates, Finished;
      var es := EntriesOf(plans);
      PlansAreEntries(world, plans);
      HoldsQuiet();
      var s := RecoverAndCheck(es);
      HoldsQuiet();
      PlansAreEntries(world, plans);
      if !s.Done? {
        if old(journals) == map[] {
          OneChange(old(world), world, tx, request.approval.event, plans);
        }
        return if s.Died? then Crashed else Failed(false);
      }
      o := Execute(tx, es, request, global);
      HoldsQuiet();
      PlansAreEntries(world, plans);
      if old(journals) == map[] && journals == map[] {
        OneChange(old(world), world, tx, request.approval.event, plans);
      }
    }

    lemma HoldsQuiet()
      requires Valid()
      ensures journals == map[] ==> world.drifted == {}
      ensures journals == map[] ==> Shown(world)
      ensures world.spent.Keys <= world.used && world.base == origin.base
    {
      A.BaseKept(origin, actions);
      Holds();
      if journals == map[] {
        forall p ensures !Owned(world, p) { }
      }
    }

    /** All that is left of the attempt is a directory without a manifest. */
    ghost predicate Remnant(tx: L.TxId)
      reads this`journals
    {
      journals.Keys == {tx} && journals[tx].phase == Unreadable
    }

    /** Without a journal outstanding, recovery leaves the documents as they are. */
    method RecoverAndCheck(es: seq<Entry>) returns (s: Signal)
      requires Valid() && !dead
      modifies this
      ensures Valid() && origin == old(origin)
      ensures dead <==> s.Died?
      ensures SameHistory(old(world), world)
      ensures s.Done? ==> journals == map[] && AllAt(world, es, false)
      ensures old(journals) == map[] ==> journals == map[] && forall p :: Read(files, p) == Read(old(files), p)
      ensures Calm(old(fates)) && old(journals) == map[] && AllAt(old(world), es, false) ==> s.Done? && Calm(fates)
      ensures Tame(old(fates)) && old(journals) == map[] ==> Tame(fates) && !s.Died?
    {
      hide Legal, Play, Init, L.Exec, L.Settle, TouchesOnlyKnownStates, Finished, Calm, Tame;
      HoldsQuiet();
      s := Recover();
      if old(journals) == map[] { NothingTouched(old(world), world); }
      if s.Done? {
        s := AssertUnchanged(es);
      }
    }

    method AssertUnchanged(es: seq<Entry>) returns (s: Signal)
      requires Valid() && !dead
      modifies this`fates, this`dead
      ensures dead <==> s.Died?
      ensures Valid()
      ensures s.Done? ==> AllAt(world, es, false)
      ensures Calm(old(fates)) && AllAt(world, es, false) ==> Calm(fates) && s.Done?
      ensures Tame(old(fates)) ==> Tame(fates) && !s.Died?
    {
      s := Done;
      for i := 0 to |es|
        invariant Valid() && s.Done? && !dead
        invariant forall k :: 0 <= k < i ==> Read(files, es[k].path) == es[k].before
        invariant Tame(old(fates)) ==> Tame(fates)
        invariant Calm(old(fates)) ==> Calm(fates)
      {
        s := Glance();
        if !s.Done? { return; }
        if Read(files, es[i].path) != es[i].before { return Raised; }
      }
    }

    method Execute(tx: L.TxId, es: seq<Entry>, request: L.Request, global: bool) returns (o: Outcome)
      requires Valid() && !dead && journals == map[] && world.drifted == {}
      requires MayBegin(world, tx, es, global) && NoHiddenChange(es)
      requires request.tx == Some(tx) && request.rebind == if global then Some(Sha256(Data(es[0].after))) else None
      modifies this
      ensures dead <==> o.Crashed?
      ensures Valid() && origin == old(origin)
      ensures var committed := old(world).log + [Transaction(tx, request.approval.event, es)];
              && (o.Completed? || o == Failed(true) ==> world.log == committed && tx in world.spent)
              && (o == Failed(false) ==> world.log == old(world).log && tx !in world.spent)
              && (o.Crashed? ==> world.log in {old(world).log, committed})
      ensures o.Completed? ==> journals == map[] && AllAt(world, es, true)
      ensures Calm(old(fates)) ==> journals == map[] && (o.Completed? <==> L.Settle(old(db), request).Ok?)
      ensures Tame(old(fates)) && L.Settle(old(db), request).Ok? ==>
                && !o.Crashed?
                && (o == Failed(false) ==> journals == map[] || (files == old(files) && Remnant(tx)))
                && (o == Failed(true) ==> AllAt(world, es, true))
    {
      hide Legal, Play, Init, Inv, Do, Enabled, GlobalPair, L.Exec, L.Settle, Tame, Calm;
      HoldsQuiet();
      var s := WriteJournal(tx, es, request.approval.event, global);
      if !s.Done? {
        return if s.Died? then Crashed else Failed(false);
      }
      o := CommitOrUndo(tx, request);
    }

    /** Everything after the manifest is written: to the end, or back. */
    method CommitOrUndo(tx: L.TxId, request: L.Request) returns (o: Outcome)
      requires Valid() && !dead && journals.Keys == {tx} && tx !in world.spent && world.drifted == {}
      requires journals[tx].phase == Prepared && NoHiddenChange(journals[tx].entries) && journals[tx].entries != []
      requires request.tx == Some(tx) && journals[tx].event == Some(request.approval.event)
      requires request.rebind == RebindOf(journals[tx])
      modifies this
      ensures dead <==> o.Crashed?
      ensures Valid() && origin == old(origin)
      ensures var es := old(journals)[tx].entries;
              var committed := old(world).log + [Transaction(tx, request.approval.event, es)];
              && (o.Completed? || o == Failed(true) ==> world.log == committed && tx in world.spent)
              && (o == Failed(false) ==> world.log == old(world).log && tx !in world.spent)
              && (o.Crashed? ==> world.log in {old(world).log, committed})
      ensures o.Completed? ==> journals == map[] && AllAt(world, old(journals)[tx].entries, true)
      ensures Calm(old(fates)) ==> journals == map[] && (o.Completed? <==> L.Settle(old(db), request).Ok?)
      ensures Tame(old(fates)) && L.Settle(old(db), request).Ok? ==>
                && !o.Crashed? && (o == Failed(false) ==> journals == map[])
                && (o == Failed(true) ==> AllAt(world, old(journals)[tx].entries, true))
    {
      hide Legal, Play, Init, Inv, Do, Enabled, GlobalPair, WellEntries, L.Exec, L.Settle, Tame, Calm;
      var s := WriteAndCommit(tx, request);
      if s.Died? { return Crashed; }
      if s.Raised? {
        s := Rollback(tx);
        assert journals.Keys == {} ==> journals == map[];
        return if s.Died? then Crashed else Failed(false);
      }
      s := Finish(tx);
      assert journals.Keys == {} ==> journals == map[];
      o := if s.Done? then Completed else if s.Died? then Crashed else Failed(true);
    }

    /** From a written manifest to the commit: either all of it, or no commit. */
    method WriteAndCommit(tx: L.TxId, request: L.Request) returns (s: Signal)
      requires Valid() && !dead && tx in journals && tx !in world.spent && world.drifted == {}
      requires journals[tx].phase == Prepared && NoHiddenChange(journals[tx].entries) && journals[tx].entries != []
      requires request.tx == Some(tx) && journals[tx].event == Some(request.approval.event)
      requires request.rebind == RebindOf(journals[tx])
      modifies this
      ensures dead <==> s.Died?
      ensures Valid() && origin == old(origin)
      ensures journals.Keys == old(journals).Keys && journals[tx].entries == old(journals)[tx].entries
      ensures journals[tx].phase in {Prepared, FilesWritten}
      ensures !s.Done? ==> world.log == old(world).log && world.spent == old(world).spent && world.drifted == {}
      ensures s.Done? ==> journals[tx].phase == FilesWritten && AllAt(world, journals[tx].entries, true)
      ensures world.drifted == {}
      ensures s.Done? ==> world.log == old(world).log + [Transaction(tx, request.approval.event, journals[tx].entries)]
                          && tx in world.spent
      ensures Calm(old(fates)) ==> Calm(fates) && !s.Died? && (s.Done? <==> L.Settle(old(db), request).Ok?)
      ensures Tame(old(fates)) && L.Settle(old(db), request).Ok? ==>
                Tame(fates) && !s.Died? && (s.Raised? ==> Calm(fates))
    {
      hide Legal, Play, Init, L.Exec;
      s := WriteTargets(tx);
      if s.Done? {
        s := SetPhase(tx, FilesWritten, MarkWritten(tx));
        assert world.drifted == {};
      }
      if s.Done? {
        s := CommitDatabase(tx, request);
      }
    }

    /** After the commit: mark the journal, retire it, remove the empty root. */
    method Finish(tx: L.TxId) returns (s: Signal)
      requires Valid() && !dead && tx in journals && tx in world.spent && journals[tx].phase == FilesWritten
      requires AllAt(world, journals[tx].entries, true) && world.drifted == {}
      modifies this
      ensures dead <==> s.Died?
      ensures Valid() && origin == old(origin)
      ensures world.log == old(world).log && world.spent == old(world).spent && files == old(files)
      ensures s.Done? ==> journals == old(journals) - {tx}
      ensures Calm(old(fates)) ==> Calm(fates) && s.Done?
      ensures Tame(old(fates)) ==> Tame(fates) && !s.Died? && (s.Raised? ==> Calm(fates))
    {
      hide Legal, Play, Init, L.Exec;
      s := SetPhase(tx, Committed, MarkCommitted(tx));
      if s.Done? {
        s := Discard(tx);
      }
      if s.Done? {
        s := Glance();
      }
    }

    /** Write one phase into the manifest. */
    method SetPhase(tx: L.TxId, phase: Phase, ghost a: Action) returns (s: Signal)
      requires Valid() && !dead && tx in journals && Enabled(world, a)
      requires a == match phase
                    case Unreadable => Damage(tx)
                    case Prepared => WriteManifest(tx)
                    case FilesWritten => MarkWritten(tx)
                    case Committed => MarkCommitted(tx)
      modifies this
      ensures dead <==> s.Died?
      ensures Valid() && origin == old(origin)
      ensures SameButJournals(old(world), world) && files == old(files)
      ensures journals in {old(journals), old(journals)[tx := old(journals)[tx].(phase := phase)]}
      ensures s.Done? ==> journals == old(journals)[tx := old(journals)[tx].(phase := phase)]
      ensures Calm(old(fates)) ==> Calm(fates) && s.Done?
      ensures Tame(old(fates)) ==> Tame(fates) && !s.Died? && (s.Raised? ==> Calm(fates))
    {
      s := Persist(files, journals[tx := journals[tx].(phase := phase)], retired, db, a);
    }

    method MakeDirectory(tx: L.TxId, es: seq<Entry>, event: L.EventId, global: bool) returns (s: Signal)
      requires Valid() && !dead && journals == map[] && MayBegin(world, tx, es, global)
      modifies this
      ensures dead <==> s.Died?
      ensures Valid() && origin == old(origin)
      ensures SameButJournals(old(world), world) && files == old(files)
      ensures s.Done? ==> journals == map[tx := Journal(es, Some(event), global, Unreadable)]
      ensures s.Raised? ==>
                if NextFate(old(fates)).RaiseAfter?
                then journals == map[tx := Journal(es, Some(event), global, Unreadable)]
                else journals == map[] && NextFate(old(fates)) == RaiseBefore
      ensures s.Done? ==> NextFate(old(fates)) == Proceed
      ensures Calm(old(fates)) ==> Calm(fates) && s.Done?
      ensures Tame(old(fates)) ==> Tame(fates) && !s.Died? && (s.Raised? ==> Calm(fates))
    {
      hide Do, Enabled, Legal, Play, Init;
      CheckThenBegin(world, tx, es, event, global);
      s := PersistChecked(files, journals[tx := Journal(es, Some(event), global, Unreadable)],
                          Check(es), Begin(tx, es, event, global));
    }

    /** Both snapshots of every target, then the manifest, which makes the directory readable. */
    method WriteSnapshots(tx: L.TxId) returns (s: Signal)
      requires Valid() && !dead && tx in journals && journals[tx].phase == Unreadable && tx !in world.spent
      requires AllAt(world, journals[tx].entries, false)
      modifies this
      ensures dead <==> s.Died?
      ensures Valid() && origin == old(origin)
      ensures SameButJournals(old(world), world) && files == old(files)
      ensures journals in {old(journals), old(journals)[tx := old(journals)[tx].(phase := Prepared)]}
      ensures s.Done? ==> journals == old(journals)[tx := old(journals)[tx].(phase := Prepared)]
      ensures Calm(old(fates)) ==> Calm(fates) && s.Done?
      ensures Tame(old(fates)) ==> Tame(fates) && !s.Died? && (s.Raised? ==> Calm(fates))
    {
      s := Glance();
      if s.Done? {
        s := SetPhase(tx, Prepared, WriteManifest(tx));
      }
    }

    method WriteJournal(tx: L.TxId, es: seq<Entry>, event: L.EventId, global: bool) returns (s: Signal)
      requires Valid() && !dead && journals == map[] && tx !in world.spent && world.drifted == {}
      requires MayBegin(world, tx, es, global)
      modifies this
      ensures dead <==> s.Died?
      ensures Valid() && origin == old(origin)
      ensures SameButJournals(old(world), world) && files == old(files)
      ensures s.Done? ==> journals == map[tx := Journal(es, Some(event), global, Prepared)]
      ensures Calm(old(fates)) ==> Calm(fates) && s.Done?
      ensures Tame(old(fates)) ==> Tame(fates) && !s.Died?
      ensures Tame(old(fates)) && s.Raised? ==>
                if NextFate(old(fates)).RaiseAfter?
                then journals == map[tx := Journal(es, Some(event), global, Unreadable)]
                else journals == map[]
    {
      hide Valid, GlobalPair, WellEntries, Tame, Calm;
      s := MakeDirectory(tx, es, event, global);
      if s.Done? {
        s := SnapshotsOrNothing(tx);
      }
    }

    method SnapshotsOrNothing(tx: L.TxId) returns (s: Signal)
      requires Valid() && !dead && journals.Keys == {tx} && journals[tx].phase == Unreadable && tx !in world.spent
      requires AllAt(world, journals[tx].entries, false) && world.drifted == {}
      modifies this
      ensures dead <==> s.Died?
      ensures Valid() && origin == old(origin)
      ensures SameButJournals(old(world), world) && files == old(files)
      ensures s.Done? ==> journals == old(journals)[tx := old(journals)[tx].(phase := Prepared)]
      ensures Calm(old(fates)) ==> Calm(fates) && s.Done?
      ensures Tame(old(fates)) ==> Tame(fates) && !s.Died? && (s.Raised? ==> journals == map[])
    {
      hide Valid, GlobalPair, WellEntries, Calm;
      s := WriteSnapshots(tx);
      if s.Raised? {
        s := RemoveTree(tx);
        assert s.Done? ==> journals.Keys == {};
        if s.Done? { s := Raised; }
      }
    }

    /** `rmtree` with errors ignored: it may stop part way, leaving an unreadable directory. */
    method RemoveTree(tx: L.TxId) returns (s: Signal)
      requires Valid() && !dead && tx in journals && tx !in world.spent && AllAt(world, journals[tx].entries, false)
      requires journals[tx].phase in {Unreadable, Prepared} && world.drifted == {}
      modifies this
      ensures dead <==> s.Died?
      ensures Valid() && origin == old(origin)
      ensures SameButJournals(old(world), world) && files == old(files)
      ensures s.Done? ==> journals == old(journals) - {tx}
      ensures Calm(old(fates)) ==> s.Done? && Calm(fates)
    {
      hide Legal, Play, Init, L.Exec, L.Settle;
      s := Done;
      if journals[tx].phase == Prepared {
        s := SetPhase(tx, Unreadable, Damage(tx));
      }
      if s.Done? {
        NothingUnder(world, journals[tx].entries);
        s := Persist(files, journals - {tx}, retired, db, Abandon(tx));
      }
    }

    /** Write each target whose bytes change and read every one back. */
    method WriteTargets(tx: L.TxId) returns (s: Signal)
      requires Valid() && !dead && tx in journals && tx !in world.spent && world.drifted == {}
      requires journals[tx].phase == Prepared && NoHiddenChange(journals[tx].entries)
      modifies this
      ensures dead <==> s.Died?
      ensures Valid() && origin == old(origin)
      ensures world == old(world).(files := world.files)
      ensures s.Done? ==> AllAt(world, journals[tx].entries, true)
      ensures Calm(old(fates)) ==> Calm(fates) && s.Done?
      ensures Tame(old(fates)) ==> Tame(fates) && !s.Died? && (s.Raised? ==> Calm(fates))
    {
      hide Legal, Play, Init, Enabled, L.Exec;
      var es := journals[tx].entries;
      HoldsEntries(tx);
      s := Done;
      for i := 0 to |es|
        invariant Valid() && origin == old(origin) && s.Done? && !dead
        invariant world == old(world).(files := world.files)
        invariant forall k :: 0 <= k < i ==> Read(files, es[k].path) == es[k].after
        invariant forall k :: i <= k < |es| ==> Read(files, es[k].path) in {es[k].before, es[k].after}
        invariant Tame(old(fates)) ==> Tame(fates)
        invariant Calm(old(fates)) ==> Calm(fates)
      {
        s := WriteAndVerify(tx, i);
        if !s.Done? { return; }
      }
    }

    method WriteAndVerify(tx: L.TxId, i: nat) returns (s: Signal)
      requires Valid() && !dead && tx in journals && i < |journals[tx].entries|
      requires tx !in world.spent && world.drifted == {}
      requires journals[tx].phase == Prepared && NoHiddenChange(journals[tx].entries)
      requires var e := journals[tx].entries[i]; Read(files, e.path) in {e.before, e.after}
      modifies this
      ensures dead <==> s.Died?
      ensures Valid() && origin == old(origin)
      ensures world == old(world).(files := world.files)
      ensures forall p :: p != journals[tx].entries[i].path ==> Read(files, p) == Read(old(files), p)
      ensures s.Done? ==> Read(files, journals[tx].entries[i].path) == journals[tx].entries[i].after
      ensures Calm(old(fates)) ==> Calm(fates) && s.Done?
      ensures Tame(old(fates)) ==> Tame(fates) && !s.Died? && (s.Raised? ==> Calm(fates))
    {
      hide Legal, Play, Init, Enabled, L.Exec;
      var e := journals[tx].entries[i];
      if Data(e.after) != Data(e.before) {
        s := WriteTarget(tx, i);
        if !s.Done? { return; }
      }
      s := Glance();
      if !s.Done? { return; }
      if Data(Read(files, e.path)) != Data(e.after) { return Raised; }
    }

    method WriteTarget(tx: L.TxId, i: nat) returns (s: Signal)
      requires Valid() && !dead && tx in journals && i < |journals[tx].entries|
      requires tx !in world.spent && world.drifted == {}
      requires journals[tx].phase == Prepared
      modifies this
      ensures dead <==> s.Died?
      ensures Valid() && origin == old(origin)
      ensures world == old(world).(files := world.files)
      ensures files in {old(files), Write(old(files), journals[tx].entries[i].path, journals[tx].entries[i].after)}
      ensures s.Done? ==> files == Write(old(files), journals[tx].entries[i].path, journals[tx].entries[i].after)
      ensures Calm(old(fates)) ==> Calm(fates) && s.Done?
      ensures Tame(old(fates)) ==> Tame(fates) && !s.Died? && (s.Raised? ==> Calm(fates))
    {
      var e := journals[tx].entries[i];
      s := Persist(Write(files, e.path, e.after), journals, retired, db, WriteAfter(tx, i));
    }

    /**
     The commit point: consumption row, token and binding in one database transaction, which
     either happens or raises.
     */
    method CommitDatabase(tx: L.TxId, request: L.Request) returns (s: Signal)
      requires !dead
      requires tx in journals && journals[tx].entries != [] && journals[tx].phase == FilesWritten
      requires Valid() && tx !in world.spent && AllAt(world, journals[tx].entries, true)
      requires request.tx == Some(tx) && journals[tx].event == Some(request.approval.event)
      requires request.rebind == RebindOf(journals[tx])
      modifies this
      ensures dead <==> s.Died?
      ensures Valid() && origin == old(origin)
      ensures journals == old(journals) && files == old(files)
      ensures !s.Done? ==> world == old(world)
      ensures s.Done? ==> world == old(world).(
                sys := L.Exec(old(world).sys, L.DoSettle(request)),
                spent := old(world).spent[tx := request.approval.event],
                log := old(world).log + [Transaction(tx, request.approval.event, journals[tx].entries)])
      ensures Calm(old(fates)) ==> Calm(fates) && !s.Died? && (s.Done? <==> L.Settle(old(db), request).Ok?)
      ensures Tame(old(fates)) && L.Settle(old(db), request).Ok? ==>
                Tame(fates) && !s.Died? && (s.Raised? ==> Calm(fates))
    {
      var settled := L.Settle(db, request);
      if settled.Err? { return Raised; }
      if fates != [] && fates[0].RaiseAfter? {
        fates := fates[1..];
        return Raised;
      }
      s := Persist(files, journals, retired, settled.value, Commit(tx, request));
    }

    /** Undo in reverse order, then drop the journal; errors of the dropping are ignored. */
    method Rollback(tx: L.TxId) returns (s: Signal)
      requires Valid() && !dead && tx in journals && tx !in world.spent && world.drifted == {}
      requires journals[tx].phase in {Prepared, FilesWritten}
      modifies this
      ensures dead <==> s.Died?
      ensures Valid() && origin == old(origin)
      ensures world.log == old(world).log && world.spent == old(world).spent
      ensures s.Done? ==> AllAt(world, old(journals)[tx].entries, false)
      ensures Calm(old(fates)) ==> s.Done? && Calm(fates) && journals == old(journals) - {tx}
    {
      hide Legal, Play, Init, L.Settle, L.Exec;
      var es := journals[tx].entries;
      HoldsEntries(tx);
      s := Done;
      var i := |es|;
      while i > 0
        invariant 0 <= i <= |es| && Valid() && origin == old(origin) && s.Done? && !dead
        invariant world.log == old(world).log && world.spent == old(world).spent && world.drifted == {}
        invariant journals == old(journals)
        invariant forall k :: i <= k < |es| ==> Read(files, es[k].path) == es[k].before
        invariant Calm(old(fates)) ==> Calm(fates)
      {
        i := i - 1;
        HoldsEntries(tx);
        s := Persist(Write(files, es[i].path, es[i].before), journals, retired, db, Undo(tx, i));
        if !s.Done? { return; }
      }
      s := Discard(tx);
      if s.Raised? { s := Done; }
    }
  }

  ghost predicate RestoredOne(w0: World, w1: World, e: Entry, committed: bool) {
    && Read(w0.files, e.path) in {e.before, e.after}
    && w1.files == Write(w0.files, e.path, if committed then e.after else e.before)
    && w1.drifted == w0.drifted - {e.path}
  }

  /** Nothing beyond the first `n` targets was written, and each of those held a known state. */
  ghost predicate RestoredUpTo(w0: World, w1: World, es: seq<Entry>, n: int)
    requires 0 <= n <= |es|
  {
    forall p :: Read(w1.files, p) != Read(w0.files, p) ==>
                  exists k :: 0 <= k < n && es[k].path == p && Read(w0.files, p) in {es[k].before, es[k].after}
  }

  lemma RestoredNext(w0: World, w1: World, w2: World, es: seq<Entry>, n: nat, committed: bool)
    requires WellEntries(es) && n < |es| && RestoredUpTo(w0, w1, es, n)
    requires w2.files == w1.files || RestoredOne(w1, w2, es[n], committed)
    ensures RestoredUpTo(w0, w2, es, n + 1)
    ensures forall k :: 0 <= k < n ==> Read(w2.files, es[k].path) == Read(w1.files, es[k].path)
  {
    forall p | Read(w2.files, p) != Read(w0.files, p)
      ensures exists k :: 0 <= k < n + 1 && es[k].path == p && Read(w0.files, p) in {es[k].before, es[k].after}
    {
      if p != es[n].path {
        assert Read(w1.files, p) != Read(w0.files, p);
      } else {
        assert Read(w1.files, p) == Read(w0.files, p);
      }
    }
  }

  lemma OnlyTargets(w0: World, w1: World, tx: L.TxId, n: nat)
    requires tx in w0.journals && w0.journals[tx].phase != Unreadable && n <= |w0.journals[tx].entries|
    requires RestoredUpTo(w0, w1, w0.journals[tx].entries, n)
    ensures TouchesOnlyKnownStates(w0, w1)
  {
    forall p | Read(w1.files, p) != Read(w0.files, p) ensures exists t, i :: KnownTarget(w0, t, i, p) {
      var k :| 0 <= k < n && w0.journals[tx].entries[k].path == p
               && Read(w0.files, p) in {w0.journals[tx].entries[k].before, w0.journals[tx].entries[k].after};
      assert KnownTarget(w0, tx, k, p);
    }
  }

  lemma DiscardRecovers(w0: World, w1: World, w2: World, tx: L.TxId)
    requires tx in w0.journals && w0.journals[tx].phase != Unreadable
    requires SameHistory(w0, w1) && TouchesOnlyKnownStates(w0, w1) && w1.journals == w0.journals
    requires AllAt(w1, w1.journals[tx].entries, tx in w1.spent)
    requires SameHistory(w1, w2) && w2.files == w1.files && w2.journals == w1.journals - {tx}
    ensures Recovered(w0, w2, {tx})
  {
  }
}
