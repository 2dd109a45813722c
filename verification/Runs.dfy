/**
 Runs that show where a result stops: a project transaction on a global document, an edit
 between check and directory, and two executors whose journals name the same target.
 */
module Runs {
  import opened Prelude
  import L = Ledger
  import opened Protocol
  import P = ProtocolProofs
  import A = Atomicity
  import C = Coordinator

  /**
   A run of durable effects from one world to another. Executors one after another begin only on
   free targets; with `alone` false the locks and checks of the code are all there is.
   */
  ghost predicate Steps(w: World, actions: seq<Action>, w': World, alone: bool)
    decreases |actions|
  {
    if actions == [] then w == w'
    else
      && Possible(w, actions[0]) && (alone ==> Enabled(w, actions[0]))
      && Steps(Do(w, actions[0]), actions[1..], w', alone)
  }

  lemma StepFirst(w: World, a: Action, next: World, actions: seq<Action>, w': World, alone: bool)
    requires Possible(w, a) && (alone ==> Enabled(w, a)) && Do(w, a) == next && Steps(next, actions, w', alone)
    ensures Steps(w, [a] + actions, w', alone)
  {
    hide Possible, Enabled, Do;
    assert ([a] + actions)[1..] == actions;
  }

  lemma {:induction false} StepsJoin(w: World, a: seq<Action>, mid: World, b: seq<Action>, w': World, alone: bool)
    requires Steps(w, a, mid, alone) && Steps(mid, b, w', alone)
    ensures Steps(w, a + b, w', alone)
    decreases |a|
  {
    hide Possible, Enabled, Do;
    if a == [] {
      assert a + b == b;
    } else {
      StepsJoin(Do(w, a[0]), a[1..], mid, b, w', alone);
      assert (a + b)[1..] == a[1..] + b;
    }
  }

  /** Such a run of one executor at a time is a run of the protocol. */
  lemma {:induction false} StepsAreLegal(w0: World, done: seq<Action>, actions: seq<Action>, w': World)
    requires Legal(w0, done) && Steps(Play(w0, done), actions, w', true)
    ensures Legal(w0, done + actions) && Play(w0, done + actions) == w'
    decreases |actions|
  {
    hide Possible, Enabled, Do;
    if actions == [] {
      assert done + actions == done;
    } else {
      PlayOne(w0, done, actions[0]);
      StepsAreLegal(w0, done + [actions[0]], actions[1..], w');
      assert done + [actions[0]] + actions[1..] == done + actions;
    }
  }

  lemma PlayOne(w0: World, done: seq<Action>, a: Action)
    requires Legal(w0, done) && Enabled(Play(w0, done), a)
    ensures Legal(w0, done + [a]) && Play(w0, done + [a]) == Do(Play(w0, done), a)
  {
    C.PlayMore(w0, done, a);
  }

  // ------------------------------------------------------------------ one transaction from end to end

  /** The world after one undisturbed transaction on one document. */
  function AfterOne(w: World, tx: L.TxId, e: Entry, r: L.Request): World {
    w.(files := Write(w.files, e.path, e.after),
       sys := L.Exec(w.sys, L.DoSettle(r)),
       used := w.used + {tx},
       spent := w.spent[tx := r.approval.event],
       log := w.log + [Transaction(tx, r.approval.event, [e])])
  }

  ghost predicate Ready(w: World, tx: L.TxId, e: Entry, r: L.Request) {
    && tx !in w.used && tx !in w.spent && tx !in w.journals && tx !in w.retired
    && w.seen == SawNothing && e.path !in w.drifted && Read(w.files, e.path) == e.before
    && r.tx == Some(tx) && r.rebind.None? && L.Settle(w.sys.db, r).Ok?
  }

  function Journaled(w: World, tx: L.TxId, e: Entry, event: L.EventId, phase: Phase): World {
    w.(journals := w.journals[tx := Journal([e], Some(event), false, phase)], used := w.used + {tx})
  }

  /** Check, directory and manifest: where an executor that crashes leaves everybody else. */
  lemma UpToManifest(w: World, tx: L.TxId, e: Entry, event: L.EventId, alone: bool) returns (actions: seq<Action>)
    requires tx !in w.used && tx !in w.spent && w.seen == SawNothing && Read(w.files, e.path) == e.before
    requires alone ==> !Owned(w, e.path)
    ensures Steps(w, actions, Journaled(w, tx, e, event, Prepared), alone)
  {
    var begun := Begin(tx, [e], event, false);
    var w1 := Do(w, Check([e]));
    C.NothingAside(w1, [e]);
    assert Owned(w1, e.path) ==> Owned(w, e.path) by { P.SameOwners(w, w1); }
    var w2, w3 := Do(w1, begun), Journaled(w, tx, e, event, Prepared);
    assert w2 == Journaled(w, tx, e, event, Unreadable) by {
      assert w.log + [] == w.log && w.drifted + {} == w.drifted;
    }
    assert Do(w2, WriteManifest(tx)) == w3;
    StepFirst(w2, WriteManifest(tx), w3, [], w3, alone);
    StepFirst(w1, begun, w2, [WriteManifest(tx)] + [], w3, alone);
    StepFirst(w, Check([e]), w1, [begun] + ([WriteManifest(tx)] + []), w3, alone);
    actions := [Check([e])] + ([begun] + ([WriteManifest(tx)] + []));
  }

  /** Write, mark, commit. */
  lemma FromManifest(w: World, tx: L.TxId, e: Entry, r: L.Request, alone: bool) returns (actions: seq<Action>)
    requires Ready(w, tx, e, r)
    ensures Steps(Journaled(w, tx, e, r.approval.event, Prepared), actions,
                  Journaled(AfterOne(w, tx, e, r), tx, e, r.approval.event, FilesWritten), alone)
  {
    hide L.Settle, L.Exec;
    var event := r.approval.event;
    var w1 := Journaled(w, tx, e, event, Prepared);
    var w2, w4 := Do(w1, WriteAfter(tx, 0)), Journaled(AfterOne(w, tx, e, r), tx, e, event, FilesWritten);
    var w3 := Do(w2, MarkWritten(tx));
    assert w2.drifted == w.drifted;
    assert Do(w3, Commit(tx, r)) == w4;
    StepFirst(w3, Commit(tx, r), w4, [], w4, alone);
    StepFirst(w2, MarkWritten(tx), w3, [Commit(tx, r)] + [], w4, alone);
    StepFirst(w1, WriteAfter(tx, 0), w2, [MarkWritten(tx)] + ([Commit(tx, r)] + []), w4, alone);
    actions := [WriteAfter(tx, 0)] + ([MarkWritten(tx)] + ([Commit(tx, r)] + []));
  }

  /** Mark, retire, delete. */
  lemma FromCommit(w: World, tx: L.TxId, e: Entry, event: L.EventId, alone: bool) returns (actions: seq<Action>)
    requires tx in w.spent && tx !in w.journals && tx !in w.retired && e.path !in w.drifted && w.seen == SawNothing
    requires Read(w.files, e.path) == e.after
    ensures Steps(w.(journals := w.journals[tx := Journal([e], Some(event), false, FilesWritten)]), actions, w, alone)
  {
    var w0 := w.(journals := w.journals[tx := Journal([e], Some(event), false, FilesWritten)]);
    var w1 := Do(w0, MarkCommitted(tx));
    var w2 := Do(w1, Retire(tx));
    assert [e][..0] == [] && EditsUnder(w1, [e]) == [];
    assert w1.drifted - Paths([e]) == w1.drifted;
    assert w2 == w.(retired := w.retired + {tx});
    assert Do(w2, Delete(tx)) == w;
    StepFirst(w2, Delete(tx), w, [], w, alone);
    StepFirst(w1, Retire(tx), w2, [Delete(tx)] + [], w, alone);
    StepFirst(w0, MarkCommitted(tx), w1, [Retire(tx)] + ([Delete(tx)] + []), w, alone);
    actions := [MarkCommitted(tx)] + ([Retire(tx)] + ([Delete(tx)] + []));
  }

  lemma FullRun(w: World, tx: L.TxId, e: Entry, r: L.Request, alone: bool) returns (actions: seq<Action>)
    requires Ready(w, tx, e, r) && (alone ==> !Owned(w, e.path))
    ensures Steps(w, actions, AfterOne(w, tx, e, r), alone)
  {
    var w', event := AfterOne(w, tx, e, r), r.approval.event;
    var w1, w2 := Journaled(w, tx, e, event, Prepared), Journaled(w', tx, e, event, FilesWritten);
    var front := UpToManifest(w, tx, e, event, alone);
    var middle := FromManifest(w, tx, e, r, alone);
    assert w2 == w'.(journals := w'.journals[tx := Journal([e], Some(event), false, FilesWritten)]);
    var back := FromCommit(w', tx, e, event, alone);
    hide Ready, Steps;
    StepsJoin(w, front, w1, middle, w2, alone);
    StepsJoin(w, front + middle, w2, back, w', alone);
    actions := front + middle + back;
  }

  // ------------------------------------------------------------------ a project on a global document

  /** A Store with one prompt that may approve, and a bound global pair. */
  function SmallDb(data: Text): L.Db {
    L.EmptyDb(0).(events := map["e" := L.Event("s", "p", 0)],
                  sessions := map["s" := L.Session("p", Some("e"), 0)],
                  binding := Some(L.Binding(Sha256(data), Sha256(data))))
  }

  function SmallWorld(data: Text): World {
    var files := map["source" := data, "target" := data];
    World(files, map[], {}, L.Start(SmallDb(data)), {}, map[], files, [], {}, SawNothing, "source", "target")
  }

  function SmallRequest(tx: L.TxId): L.Request {
    L.Request(None, L.Approval("e", "s", "p"), "rule.deploy", Some(tx), None, 0)
  }

  lemma SmallReady(data: Text, tx: L.TxId, e: Entry)
    requires e.path == "target" && e.before == Present(data)
    ensures Init(SmallWorld(data)) && Ready(SmallWorld(data), tx, e, SmallRequest(tx))
    ensures A.Parity(SmallWorld(data), SmallWorld(data).files)
  {
    var db := SmallDb(data);
    assert L.Wellformed(db);
    assert L.Consume(db, L.Approval("e", "s", "p"), "rule.deploy", Some(tx), 0).Ok?;
  }

  /**
   A run from parity that ends quiet without it: one project transaction whose target is the
   global target, as for a project rooted at the host's own directory.
   */
  lemma ProjectBreaksParity() returns (w: World, actions: seq<Action>)
    ensures Init(w) && A.Parity(w, w.files) && Legal(w, actions)
    ensures Play(w, actions).journals == map[] && Play(w, actions).source == w.source
    ensures !A.Parity(Play(w, actions), Play(w, actions).files)
  {
    var e := Entry("target", Present("a"), Present("b"));
    w := SmallWorld("a");
    SmallReady("a", "t", e);
    actions := FullRun(w, "t", e, SmallRequest("t"), true);
    assert Legal(w, []);
    StepsAreLegal(w, [], actions, AfterOne(w, "t", e, SmallRequest("t")));
    assert [] + actions == actions;
    assert "a"[0] != "b"[0];
  }

  // ------------------------------------------------------------------ an edit nobody saw

  /** The edit is there and in the history, and the directory has just been made. */
  function Overlooked(w: World, tx: L.TxId, e: Entry, c: File, event: L.EventId, phase: Phase): World {
    Journaled(w, tx, e, event, phase).(
      files := Write(w.files, e.path, c), drifted := {e.path},
      log := w.log + [Edit(e.path, c), Aside(e.path, e.before)])
  }

  lemma UpToOverlooked(w: World, tx: L.TxId, e: Entry, c: File, event: L.EventId) returns (actions: seq<Action>)
    requires w.seen == SawNothing && w.journals == map[] && w.drifted == {} && tx !in w.used && tx !in w.spent
    requires Read(w.files, e.path) == e.before && c != e.before
    ensures Steps(w, actions, Overlooked(w, tx, e, c, event, Unreadable), true)
  {
    hide L.Exec, L.Settle;
    var es, begun, w3 := [e], Begin(tx, [e], event, false), Overlooked(w, tx, e, c, event, Unreadable);
    assert es[..0] == [] && 0 <= 0 < |es|;
    var w1 := Do(w, Check(es));
    assert !Owned(w1, e.path);
    var w2 := Do(w1, UserEdit(e.path, c));
    assert w2.log == w.log + [Edit(e.path, c)] && !Owned(w2, e.path);
    assert Read(w2.files, e.path) == c && es[0] == e;
    assert e.path in Stale(w2, es) && Stale(w2, es) <= {e.path};
    assert SetAside(w2, es[..|es| - 1]) == [] && SetAside(w2, es) == [] + [Aside(e.path, e.before)];
    assert Do(w2, begun) == w3 by {
      assert w2.log + [Aside(e.path, e.before)] == w3.log && w2.drifted + {e.path} == {e.path};
    }
    StepFirst(w2, begun, w3, [], w3, true);
    StepFirst(w1, UserEdit(e.path, c), w2, [begun] + [], w3, true);
    StepFirst(w, Check(es), w1, [UserEdit(e.path, c)] + ([begun] + []), w3, true);
    actions := [Check(es)] + ([UserEdit(e.path, c)] + ([begun] + []));
  }

  lemma FromUndone(w: World, tx: L.TxId, e: Entry, event: L.EventId) returns (actions: seq<Action>)
    requires w.seen == SawNothing && tx !in w.spent && tx !in w.retired && tx !in w.journals && e.path !in w.drifted
    requires Read(w.files, e.path) == e.before && tx in w.used
    ensures Steps(w.(journals := w.journals[tx := Journal([e], Some(event), false, Prepared)]), actions, w, true)
  {
    hide L.Exec, L.Settle;
    var w0 := w.(journals := w.journals[tx := Journal([e], Some(event), false, Prepared)]);
    assert [e][..0] == [] && EditsUnder(w0, [e]) == [];
    var w1 := Do(w0, Retire(tx));
    assert w1 == w.(retired := w.retired + {tx}) by {
      assert w0.log + [] == w0.log && w0.drifted - Paths([e]) == w0.drifted;
    }
    assert Do(w1, Delete(tx)) == w;
    StepFirst(w1, Delete(tx), w, [], w, true);
    StepFirst(w0, Retire(tx), w1, [Delete(tx)] + [], w, true);
    actions := [Retire(tx)] + ([Delete(tx)] + []);
  }

  /** Manifest, write, undo. */
  lemma WriteAndUndo(w: World, tx: L.TxId, e: Entry, c: File, event: L.EventId)
    returns (actions: seq<Action>, w': World)
    requires w.seen == SawNothing && tx !in w.spent
    ensures w' == Overlooked(w, tx, e, c, event, Prepared).(files := w'.files, drifted := {})
    ensures Read(w'.files, e.path) == e.before
    ensures Steps(Overlooked(w, tx, e, c, event, Unreadable), actions, w', true)
  {
    hide L.Exec, L.Settle;
    var w3, w4 := Overlooked(w, tx, e, c, event, Unreadable), Overlooked(w, tx, e, c, event, Prepared);
    assert Do(w3, WriteManifest(tx)) == w4;
    var w5 := Do(w4, WriteAfter(tx, 0));
    assert w5 == w4.(files := Write(w4.files, e.path, e.after), drifted := {});
    w' := Do(w5, Undo(tx, 0));
    StepFirst(w5, Undo(tx, 0), w', [], w', true);
    StepFirst(w4, WriteAfter(tx, 0), w5, [Undo(tx, 0)] + [], w', true);
    StepFirst(w3, WriteManifest(tx), w4, [WriteAfter(tx, 0)] + ([Undo(tx, 0)] + []), w', true);
    actions := [WriteManifest(tx)] + ([WriteAfter(tx, 0)] + ([Undo(tx, 0)] + []));
  }

  /**
   Between the check and the directory a person writes `c`; the transaction writes its document
   and is rolled back. All is quiet, the document is what it was before, and the edit is gone.
   */
  lemma UnseenEditIsLost(w: World, tx: L.TxId, e: Entry, c: File, event: L.EventId)
    returns (actions: seq<Action>, w': World)
    requires w.seen == SawNothing && w.journals == map[] && w.drifted == {}
    requires tx !in w.used && tx !in w.spent && tx !in w.retired && Read(w.files, e.path) == e.before && c != e.before
    ensures Steps(w, actions, w', true) && w'.journals == map[]
    ensures w'.log == w.log + [Edit(e.path, c), Aside(e.path, e.before)]
    ensures Read(w'.files, e.path) == e.before && Read(Replay(w.base, w.log + [Edit(e.path, c)]), e.path) == c
  {
    hide Steps, Replay;
    var first := UpToOverlooked(w, tx, e, c, event);
    var second, mid := WriteAndUndo(w, tx, e, c, event);
    w' := mid.(journals := map[]);
    assert mid == w'.(journals := w'.journals[tx := Journal([e], Some(event), false, Prepared)]);
    var third := FromUndone(w', tx, e, event);
    StepsJoin(w, first, Overlooked(w, tx, e, c, event, Unreadable), second, mid, true);
    StepsJoin(w, first + second, mid, third, w', true);
    actions := first + second + third;
    P.ReplayNext(w.base, w.log, Edit(e.path, c));
  }

  // ------------------------------------------------------------------ two executors on one target

  /** Recovery can decide journal `tx`, and finds each of its targets in a state it knows. */
  ghost predicate Accepts(w: World, tx: L.TxId)
    requires tx in w.journals
  {
    && !A.EvidenceOf(w.sys.db, w.journals[tx], tx).Unproven?
    && forall i :: 0 <= i < |w.journals[tx].entries| ==>
         Possible(w, Look(tx, i, A.EvidenceOf(w.sys.db, w.journals[tx], tx).ProvenCommitted?))
  }

  /** What still happens when every executor recovers first and is refused at target `p` of `t`. */
  predicate WhileRefused(a: Action, p: Path) {
    || a.Check? || a.Look? || a.Restore? || a.Retire? || a.Delete? || a.Ledger?
    || (a.UserEdit? && a.path != p)
  }

  ghost predicate Refusing(w: World, t: L.TxId, i: nat) {
    && w.journals.Keys == {t} && t !in w.spent && i < |w.journals[t].entries| && WellEntries(w.journals[t].entries)
    && (var e := w.journals[t].entries[i];
        e.path !in w.drifted && Read(w.files, e.path) !in {e.before, e.after})
    && (w.seen.SawTarget? ==> w.seen.tx != t || w.seen.i != i)
  }

  lemma RecoverySteps(w: World, t: L.TxId, e: Entry, event: L.EventId) returns (w1: World, w2: World)
    requires t !in w.journals && t !in w.spent && t !in w.retired && e.path !in w.drifted && w.seen == SawNothing
    requires Read(w.files, e.path) in {e.before, e.after}
    ensures var w0 := w.(journals := w.journals[t := Journal([e], Some(event), false, Prepared)]);
            && Possible(w0, Look(t, 0, false)) && w1 == Do(w0, Look(t, 0, false))
            && Possible(w1, Restore(t, 0, false)) && w2 == Do(w1, Restore(t, 0, false))
            && w2 == w0.(files := Write(w.files, e.path, e.before))
  {
    hide L.Exec, L.Settle;
    var w0 := w.(journals := w.journals[t := Journal([e], Some(event), false, Prepared)]);
    w1 := Do(w0, Look(t, 0, false));
    w2 := Do(w1, Restore(t, 0, false));
    assert w.drifted - {e.path} == w.drifted;
  }

  /** The document the first executor meant to change, put back by whoever recovers its journal. */
  lemma Recovery(w: World, t: L.TxId, e: Entry, event: L.EventId) returns (actions: seq<Action>)
    requires t !in w.journals && t !in w.spent && t !in w.retired && e.path !in w.drifted && w.seen == SawNothing
    requires Read(w.files, e.path) in {e.before, e.after} && t in w.used
    ensures Steps(w.(journals := w.journals[t := Journal([e], Some(event), false, Prepared)]), actions,
                  w.(files := Write(w.files, e.path, e.before)), true)
  {
    hide Do, Possible;
    var w0 := w.(journals := w.journals[t := Journal([e], Some(event), false, Prepared)]);
    var w1, w2 := RecoverySteps(w, t, e, event);
    var w3 := w.(files := Write(w.files, e.path, e.before));
    var rest := FromUndone(w3, t, e, event);
    assert w2 == w3.(journals := w3.journals[t := Journal([e], Some(event), false, Prepared)]);
    StepFirst(w1, Restore(t, 0, false), w2, rest, w3, true);
    StepFirst(w0, Look(t, 0, false), w1, [Restore(t, 0, false)] + rest, w3, true);
    actions := [Look(t, 0, false)] + ([Restore(t, 0, false)] + rest);
  }

  lemma {:induction false} AloneOrNot(w: World, actions: seq<Action>, w': World)
    requires Steps(w, actions, w', true)
    ensures Steps(w, actions, w', false)
    decreases |actions|
  {
    hide Do, Possible, Enabled;
    if actions != [] { AloneOrNot(Do(w, actions[0]), actions[1..], w'); }
  }

  /** An executor with a written journal crashed, before its first write or after it. */
  function Crashed(w: World, t: L.TxId, e: Entry, event: L.EventId, wrote: bool): World {
    Journaled(if wrote then w.(files := Write(w.files, e.path, e.after)) else w, t, e, event, Prepared)
  }

  lemma CrashRun(w: World, t: L.TxId, e: Entry, event: L.EventId, wrote: bool) returns (actions: seq<Action>)
    requires t !in w.used && t !in w.spent && w.seen == SawNothing && Read(w.files, e.path) == e.before
    requires e.path !in w.drifted
    ensures Steps(w, actions, Crashed(w, t, e, event, wrote), false)
  {
    actions := UpToManifest(w, t, e, event, false);
    if wrote {
      var w1, w2 := Journaled(w, t, e, event, Prepared), Crashed(w, t, e, event, true);
      assert Do(w1, WriteAfter(t, 0)) == w2 by { assert w.drifted - {e.path} == w.drifted; }
      StepFirst(w1, WriteAfter(t, 0), w2, [], w2, false);
      StepsJoin(w, actions, w1, [WriteAfter(t, 0)] + [], w2, false);
      actions := actions + ([WriteAfter(t, 0)] + []);
    }
  }

  /** `u` has recovered; `t` writes its journal, on the same document, and crashes; `u` commits. */
  lemma BothRun(w: World, t: L.TxId, u: L.TxId, et: Entry, eu: Entry, event: L.EventId, r: L.Request, wrote: bool)
    returns (actions: seq<Action>)
    requires t !in w.used && t !in w.spent && Read(w.files, et.path) == et.before && et.path !in w.drifted
    requires w.seen == SawNothing && Ready(Crashed(w, t, et, event, wrote), u, eu, r)
    ensures Steps(w, actions, AfterOne(Crashed(w, t, et, event, wrote), u, eu, r), false)
  {
    var crashed := Crashed(w, t, et, event, wrote);
    var first := CrashRun(w, t, et, event, wrote);
    var second := FullRun(crashed, u, eu, r, false);
    StepsJoin(w, first, crashed, second, AfterOne(crashed, u, eu, r), false);
    actions := first + second;
  }

  /**
   Recovery before the locks is not enough for two executors at once: `u` has recovered already
   when `t` writes its journal and crashes, and `u` then commits a change of the same document.
   The next recovery goes on exactly when the prompt of `t` survives and what `u` wrote is one of
   the two states of `t`'s journal; then it puts the document of `t` back, and the document `u`
   committed is lost exactly when both made the same change. In all other cases it refuses, and a
   document in a third state keeps it refusing (`RefusedForGood`).
   */
  lemma SharedTargetLosesACommit(w: World, t: L.TxId, u: L.TxId, et: Entry, eu: Entry, event: L.EventId,
                                 r: L.Request, wrote: bool)
    returns (actions: seq<Action>, committed: World, more: seq<Action>, w': World)
    requires w.journals == map[] && w.seen == SawNothing && et.path !in w.drifted && et.path == eu.path
    requires t !in w.used + {u} && t !in w.spent && t !in w.retired && Read(w.files, et.path) == et.before
    requires Ready(Crashed(w, t, et, event, wrote), u, eu, r) && !L.TxRecorded(w.sys.db, t)
    ensures Steps(w, actions, committed, false) && committed == AfterOne(Crashed(w, t, et, event, wrote), u, eu, r)
    ensures L.TxRecorded(committed.sys.db, u) && committed.journals.Keys == {t}
    ensures Read(committed.files, eu.path) == Read(Replay(committed.base, committed.log), eu.path) == eu.after
    ensures Accepts(committed, t) <==> event in w.sys.db.events && eu.after in {et.before, et.after}
    ensures eu.after !in {et.before, et.after} ==> Refusing(committed, t, 0)
    ensures Accepts(committed, t) ==>
              && Steps(committed, more, w', false) && w'.journals == map[]
              && w'.sys == committed.sys && w'.log == committed.log && w'.base == committed.base
              && (Read(w'.files, eu.path) != eu.after <==> eu.after == et.after && et.after != et.before)
  {
    hide Accepts, Refusing, Steps, Replay, Do, Possible;
    committed := AfterOne(Crashed(w, t, et, event, wrote), u, eu, r);
    actions := BothRun(w, t, u, et, eu, event, r, wrote);
    SettleLeavesProof(w, t, u, event, r);
    CommittedAccepts(w, t, u, et, eu, event, r, wrote);
    CommittedShows(w, t, u, et, eu, event, r, wrote);
    more, w' := [], committed;
    hide L.Exec, L.Settle, L.TxRecorded;
    if Accepts(committed, t) {
      var quiet := committed.(journals := map[]);
      more := Recovery(quiet, t, et, event);
      w' := quiet.(files := Write(quiet.files, et.path, et.before));
      AloneOrNot(committed, more, w');
    }
  }

  lemma LookAt(w: World, t: L.TxId, e: Entry, event: L.EventId)
    requires t in w.journals && w.journals[t] == Journal([e], Some(event), false, Prepared) && t !in w.spent
    requires !L.TxRecorded(w.sys.db, t)
    ensures Accepts(w, t) <==> event in w.sys.db.events && Read(w.files, e.path) in {e.before, e.after}
  {
    hide L.Exec, L.Settle, L.TxRecorded;
    var verdict := A.EvidenceOf(w.sys.db, w.journals[t], t);
    assert !verdict.ProvenCommitted? && (verdict.ProvenRolledBack? <==> event in w.sys.db.events);
    assert Possible(w, Look(t, 0, false)) <==> Read(w.files, e.path) in {e.before, e.after};
  }

  lemma CommittedAccepts(w: World, t: L.TxId, u: L.TxId, et: Entry, eu: Entry, event: L.EventId, r: L.Request,
                         wrote: bool)
    requires w.journals == map[] && et.path == eu.path && t !in w.used + {u} && t !in w.spent
    requires Ready(Crashed(w, t, et, event, wrote), u, eu, r) && !L.TxRecorded(w.sys.db, t)
    ensures var committed := AfterOne(Crashed(w, t, et, event, wrote), u, eu, r);
            && (Accepts(committed, t) <==> event in w.sys.db.events && eu.after in {et.before, et.after})
            && (eu.after !in {et.before, et.after} ==> Refusing(committed, t, 0))
  {
    SettleLeavesProof(w, t, u, event, r);
    var committed := AfterOne(Crashed(w, t, et, event, wrote), u, eu, r);
    hide L.Exec, L.Settle, L.TxRecorded, L.Inv;
    assert Read(committed.files, et.path) == eu.after;
    assert committed.journals[t] == Journal([et], Some(event), false, Prepared);
    LookAt(committed, t, et, event);
  }

  lemma CommittedShows(w: World, t: L.TxId, u: L.TxId, et: Entry, eu: Entry, event: L.EventId, r: L.Request,
                       wrote: bool)
    ensures var committed := AfterOne(Crashed(w, t, et, event, wrote), u, eu, r);
            Read(committed.files, eu.path) == Read(Replay(committed.base, committed.log), eu.path) == eu.after
  {
    hide L.Exec, L.Settle, Replay;
    var done := Transaction(u, r.approval.event, [eu]);
    var committed := AfterOne(Crashed(w, t, et, event, wrote), u, eu, r);
    assert committed.base == w.base && committed.log == w.log + [done];
    P.ReplayNext(w.base, w.log, done);
    OverlayReads(Replay(w.base, w.log), [eu], eu.path);
    assert [eu][0].path == eu.path;
    assert Read(committed.files, eu.path) == eu.after;
  }

  lemma SettleLeavesProof(w: World, t: L.TxId, u: L.TxId, event: L.EventId, r: L.Request)
    requires r.tx == Some(u) && t != u && L.Settle(w.sys.db, r).Ok? && !L.TxRecorded(w.sys.db, t)
    ensures var db := L.Exec(w.sys, L.DoSettle(r)).db;
            L.TxRecorded(db, u) && !L.TxRecorded(db, t) && (event in db.events <==> event in w.sys.db.events)
  {
    L.SettleEffect(w.sys.db, r);
    var db := L.Exec(w.sys, L.DoSettle(r)).db;
    assert L.RefDigest(r.approval.event) in db.consumptions
           && db.consumptions[L.RefDigest(r.approval.event)].tx == Some(u);
  }

  /** It happens in a Store as small as can be. */
  lemma LostCommitHappens() returns (w: World, actions: seq<Action>, w': World)
    ensures Init(w) && Steps(w, actions, w', false) && w'.journals == map[]
    ensures L.TxRecorded(w'.sys.db, "u") && Read(w'.files, "target") != Read(Replay(w'.base, w'.log), "target")
  {
    var e := Entry("target", Present("a"), Present("b"));
    w := SmallWorld("a");
    SmallReady("a", "u", e);
    assert !L.TxRecorded(w.sys.db, "t");
    assert "a"[0] != "b"[0];
    var first, committed, second;
    first, committed, second, w' := SharedTargetLosesACommit(w, "t", "u", e, e, "e", SmallRequest("u"), false);
    StepsJoin(w, first, committed, second, w', false);
    actions := first + second;
  }

  // ------------------------------------------------------------------ recovery that refuses

  lemma RefusingStep(w: World, a: Action, t: L.TxId, i: nat)
    requires Refusing(w, t, i) && Possible(w, a) && WhileRefused(a, w.journals[t].entries[i].path)
    ensures Refusing(Do(w, a), t, i) && Do(w, a).journals == w.journals
    ensures var p := w.journals[t].entries[i].path; Read(Do(w, a).files, p) == Read(w.files, p)
  {
    hide L.Exec, L.Settle;
  }

  lemma RefusingRefuses(w: World, t: L.TxId, i: nat)
    requires Refusing(w, t, i)
    ensures !Accepts(w, t)
    ensures var e := w.journals[t].entries[i];
            forall f: File :: w.journals[t].phase != Unreadable ==>
              (Possible(Do(w, UserEdit(e.path, f)), Look(t, i, false)) <==> f in {e.before, e.after})
  {
    hide L.Exec, L.Settle;
    assert !Possible(w, Look(t, i, true)) && !Possible(w, Look(t, i, false));
  }

  /**
   Once a target of a journal that never committed holds neither of its two states, recovery is
   refused there over every run, so the document stays as it is and no transaction begins, until
   somebody edits that very document; and then exactly an edit to one of the two states helps.
   */
  lemma {:induction false} RefusedForGood(w: World, actions: seq<Action>, w': World, t: L.TxId, i: nat)
    requires Refusing(w, t, i) && Steps(w, actions, w', false)
    requires forall k :: 0 <= k < |actions| ==> WhileRefused(actions[k], w.journals[t].entries[i].path)
    ensures Refusing(w', t, i) && w'.journals == w.journals && !Accepts(w', t)
    ensures var e := w.journals[t].entries[i];
            && Read(w'.files, e.path) == Read(w.files, e.path)
            && forall f: File :: w.journals[t].phase != Unreadable ==>
                 (Possible(Do(w', UserEdit(e.path, f)), Look(t, i, false)) <==> f in {e.before, e.after})
    decreases |actions|
  {
    if actions == [] {
      RefusingRefuses(w, t, i);
    } else {
      RefusingStep(w, actions[0], t, i);
      assert forall k :: 0 <= k < |actions| - 1 ==> actions[1..][k] == actions[k + 1];
      hide Possible, Do, Refusing, Accepts;
      RefusedForGood(Do(w, actions[0]), actions[1..], w', t, i);
    }
  }
}
