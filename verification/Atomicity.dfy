/** The main results about the journaled transaction, drawn from the protocol's invariant. */
module Atomicity {
  import opened Prelude
  import L = Ledger
  import opened Protocol
  import opened ProtocolProofs

  // ------------------------------------------------------------------ refinement

  lemma LogEffect(w: World, a: Action)
    requires Enabled(w, a)
    ensures Do(w, a).base == w.base && Do(w, a).source == w.source && Do(w, a).target == w.target
    ensures Do(w, a).log ==
            if a.Commit? then w.log + [Transaction(a.tx, a.request.approval.event, w.journals[a.tx].entries)]
                            else if a.UserEdit? && !Owned(w, a.path) then w.log + [Edit(a.path, a.file)]
                            else if a.Begin? then w.log + SetAside(w, a.entries)
                            else if a.Retire? || a.Abandon? then w.log + EditsUnder(w, w.journals[a.tx].entries)
                            else w.log
    ensures !a.Commit? && !a.Ledger? ==> Do(w, a).sys == w.sys
  {
    hide L.Exec, L.Settle, AllAt, AllAtOrEdited, GlobalPair, EditsUnder, SetAside;
  }

  lemma DoMeans(w: World, a: Action)
    requires Inv(w) && Enabled(w, a)
    ensures Means(Do(w, a), Replay(Do(w, a).base, Do(w, a).log))
  {
    DoInv(w, a);
  }

  lemma CommitRecords(w: World, a: Action)
    requires Enabled(w, a) && a.Commit?
    ensures L.TxRecorded(Do(w, a).sys.db, a.tx)
  {
    L.SettleEffect(w.sys.db, a.request);
    var d := L.RefDigest(a.request.approval.event);
    assert d in Do(w, a).sys.db.consumptions && Do(w, a).sys.db.consumptions[d].tx == Some(a.tx);
  }

  /** Targets edited meanwhile show the edit, all other documents are as before. */
  ghost predicate ShowsEdits(w: World, es: seq<Entry>, abs: Files, abs': Files) {
    forall p :: Read(abs', p) == if p in w.drifted && p in Paths(es) then Read(w.files, p) else Read(abs, p)
  }

  /** Targets edited since they were checked are back in their planned state, all others are as before. */
  ghost predicate SetsAside(w: World, es: seq<Entry>, abs: Files, abs': Files) {
    && (forall p :: p !in Stale(w, es) ==> Read(abs', p) == Read(abs, p))
    && (forall i :: 0 <= i < |es| && es[i].path in Stale(w, es) ==> Read(abs', es[i].path) == es[i].before)
  }

  /**
   Refinement of the atomic machine: of all durable steps only the database commit changes
   what the documents mean, and it changes every target of its journal in one go. A person's
   edit counts at once for a document under no journal. It stops counting when a journal takes
   the document without having seen it, and counts again when the journal goes, unless the
   executor wrote over it before; so does an edit made under the journal.
   */
  lemma StepRefinesAtomicMachine(w: World, a: Action)
    requires Inv(w) && Enabled(w, a)
    ensures var abs, abs' := Replay(w.base, w.log), Replay(Do(w, a).base, Do(w, a).log);
            && Means(Do(w, a), abs')
            && (a.Commit? ==> abs' == Overlay(abs, w.journals[a.tx].entries) && L.TxRecorded(Do(w, a).sys.db, a.tx))
            && (a.UserEdit? && !Owned(w, a.path) ==> abs' == Write(abs, a.path, a.file))
            && (a.Begin? ==> SetsAside(w, a.entries, abs, abs'))
            && (a.Retire? || a.Abandon? ==> ShowsEdits(w, w.journals[a.tx].entries, abs, abs'))
            && (!a.Commit? && !a.Begin? && !a.Retire? && !a.Abandon? && !(a.UserEdit? && !Owned(w, a.path)) ==>
                  abs' == abs)
  {
    hide Inv, Means, Replay, EditsUnder, SetAside, Effect, GlobalPair, AllAt, AllAtOrEdited, L.TxRecorded,
         L.Settle, L.Exec, L.Inv;
    DoMeans(w, a);
    LogEffect(w, a);
    if a.Commit? {
      ReplayNext(w.base, w.log, Transaction(a.tx, a.request.approval.event, w.journals[a.tx].entries));
      CommitRecords(w, a);
    } else if a.UserEdit? && !Owned(w, a.path) {
      ReplayNext(w.base, w.log, Edit(a.path, a.file));
    } else if a.Begin? {
      forall p { AsideReplay(w, w.base, w.log, a.entries, p); }
    } else if a.Retire? || a.Abandon? {
      forall p { EditsReplay(w, w.base, w.log, w.journals[a.tx].entries, p); }
    }
  }

  /**
   Atomicity over whole runs with crashes anywhere: whenever no journal is outstanding the
   documents are exactly the initial ones overlaid, in order, by the transactions that were
   consumed, each in full or not at all, and by the edits, those set aside left out.
   */
  lemma QuietFilesAreReplay(w0: World, actions: seq<Action>)
    requires Init(w0) && Legal(w0, actions)
    ensures var w := Play(w0, actions);
            && w.base == w0.files
            && (w.journals == map[] ==> forall p :: Read(w.files, p) == Read(Replay(w0.files, w.log), p))
            && (forall tx :: tx in w.spent <==> Logged(w.log, tx))
            && (forall i, j :: 0 <= i < j < |w.log| && w.log[i].Transaction? && w.log[j].Transaction? ==>
                  w.log[i].tx != w.log[j].tx)
  {
    InitInv(w0);
    PlayInv(w0, actions);
    BaseKept(w0, actions);
    var w := Play(w0, actions);
    if w.journals == map[] {
      forall p ensures Read(w.files, p) == Read(Replay(w0.files, w.log), p) {
        assert !Owned(w, p);
      }
    }
  }

  lemma DoKeepsBase(w: World, a: Action)
    requires Enabled(w, a)
    ensures Do(w, a).base == w.base && Do(w, a).source == w.source && Do(w, a).target == w.target
  {
    hide L.Exec;
  }

  lemma {:induction false} BaseKept(w0: World, actions: seq<Action>)
    requires Legal(w0, actions)
    ensures Play(w0, actions).base == w0.base
    ensures Play(w0, actions).source == w0.source && Play(w0, actions).target == w0.target
  {
    hide Enabled, Do;
    if actions != [] {
      BaseKept(w0, actions[..|actions| - 1]);
      DoKeepsBase(Play(w0, actions[..|actions| - 1]), actions[|actions| - 1]);
    }
  }

  /** At every instant of every run, a target nobody else has touched is whole. */
  lemma TargetsNeverTorn(w0: World, actions: seq<Action>, tx: L.TxId, i: nat)
    requires Init(w0) && Legal(w0, actions)
    requires var w := Play(w0, actions);
             tx in w.journals && i < |w.journals[tx].entries| && w.journals[tx].entries[i].path !in w.drifted
    ensures var w := Play(w0, actions);
            var e := w.journals[tx].entries[i];
            if tx in w.spent then Read(w.files, e.path) == e.after else Read(w.files, e.path) in {e.before, e.after}
  {
    InitInv(w0);
    PlayInv(w0, actions);
    var w := Play(w0, actions);
    assert JournalOk(w, tx);
    assert TargetOk(w, tx, w.journals[tx].entries[i]);
  }

  // ------------------------------------------------------------------ recovery's evidence

  datatype Evidence = ProvenCommitted | ProvenRolledBack | Unproven

  /** What `recover` concludes from the manifest and the two tables it can still read. */
  function EvidenceOf(db: L.Db, j: Journal, tx: L.TxId): Evidence {
    if j.phase == Committed || L.TxRecorded(db, tx) then ProvenCommitted
    else if j.event.Some? && j.event.value in db.events then ProvenRolledBack
    else Unproven
  }

  /**
   With captures and pruning interleaved anywhere, a missing row proves "not committed" only
   beside a surviving prompt; the verdict is never wrong, and it is withheld exactly when the
   manifest says nothing and both the row and the prompt are gone.
   */
  lemma EvidenceIsSound(w: World, tx: L.TxId)
    requires Inv(w) && tx in w.journals
    ensures EvidenceOf(w.sys.db, w.journals[tx], tx).ProvenCommitted? ==> tx in w.spent
    ensures EvidenceOf(w.sys.db, w.journals[tx], tx).ProvenRolledBack? ==> tx !in w.spent
    ensures tx in w.spent && w.spent[tx] in w.sys.db.events ==>
            EvidenceOf(w.sys.db, w.journals[tx], tx).ProvenCommitted?
  {
    assert JournalOk(w, tx);
    if d :| d in w.sys.db.consumptions && w.sys.db.consumptions[d].tx == Some(tx) {
      assert tx in w.spent;
    }
  }

  // ------------------------------------------------------------------ parity of the global pair

  ghost predicate Parity(w: World, files: Files) {
    && Data(Read(files, w.source)) == Data(Read(files, w.target))
    && (w.sys.db.binding.Some? ==>
          w.sys.db.binding.value == L.Binding(Sha256(Data(Read(files, w.source))), Sha256(Data(Read(files, w.target)))))
  }

  /** Nobody but a global transaction writes the global pair. */
  ghost predicate LeavesGlobalPairAlone(w: World, a: Action) {
    && (a.UserEdit? ==> a.path != w.source && a.path != w.target)
    && (a.Begin? && !a.global ==> ProjectOnly(w, a.entries))
  }

  /** What the executor last checked at `p` still stands there. */
  ghost predicate Sighted(w: World, p: Path) {
    w.seen.SawPlanned? ==>
      forall i :: 0 <= i < |w.seen.entries| && w.seen.entries[i].path == p ==>
        Read(w.files, p) == w.seen.entries[i].before
  }

  lemma StepSighted(w: World, a: Action, p: Path)
    requires Enabled(w, a) && Sighted(w, p) && !(a.UserEdit? && a.path == p)
    ensures Sighted(Do(w, a), p)
  {
    hide L.Exec, L.Settle;
  }

  /** Only an edit made after the check can be set aside when the journal begins. */
  lemma {:induction false} OnlyEditsGoStale(w0: World, actions: seq<Action>, p: Path)
    requires Sighted(w0, p) && Legal(w0, actions)
    requires forall i :: 0 <= i < |actions| && actions[i].UserEdit? ==> actions[i].path != p
    ensures Sighted(Play(w0, actions), p)
    ensures forall a: Action :: a.Begin? && Enabled(Play(w0, actions), a) ==> p !in Stale(Play(w0, actions), a.entries)
  {
    hide Do;
    if actions != [] {
      OnlyEditsGoStale(w0, actions[..|actions| - 1], p);
      StepSighted(Play(w0, actions[..|actions| - 1]), actions[|actions| - 1], p);
    }
  }

  ghost predicate ProjectsApart(w: World) {
    && w.source !in w.drifted && w.target !in w.drifted
    && forall tx :: tx in w.journals && !w.journals[tx].global ==> ProjectOnly(w, w.journals[tx].entries)
  }

  lemma LedgerKeepsBinding(s: L.Sys, op: L.Op)
    requires op.DoSettle? ==> op.request.rebind.None?
    ensures L.Exec(s, op).db.binding == s.db.binding
  {
    if op.DoSettle? && L.Settle(s.db, op.request).Ok? { L.SettleEffect(s.db, op.request); }
  }

  lemma CommitParity(w: World, a: Action)
    requires Inv(w) && a.Commit? && Enabled(w, a) && Parity(w, Replay(w.base, w.log)) && ProjectsApart(w)
    ensures Parity(Do(w, a), Replay(w.base, Do(w, a).log))
  {
    hide Replay, Means, RowsOk, HistoryOk, Disjoint, L.Settle, TargetOk, Witnessed, L.Inv;
    var es, abs := w.journals[a.tx].entries, Replay(w.base, w.log);
    assert JournalOk(w, a.tx);
    CommitMeans(w, a);
    L.SettleEffect(w.sys.db, a.request);
    OverlayReads(abs, es, w.source);
    OverlayReads(abs, es, w.target);
    if w.journals[a.tx].global { assert es[0].path == w.source && es[1].path == w.target; }
  }

  lemma StepParity(w: World, a: Action)
    requires Inv(w) && Enabled(w, a) && LeavesGlobalPairAlone(w, a) && Parity(w, Replay(w.base, w.log))
             && ProjectsApart(w) && Sighted(w, w.source) && Sighted(w, w.target)
    ensures Parity(Do(w, a), Replay(w.base, Do(w, a).log))
  {
    hide Replay, Means, RowsOk, HistoryOk, JournalOk, Disjoint, L.Exec, L.Settle, SetAside, EditsUnder;
    if a.Commit? { CommitParity(w, a); }
    else {
      LogEffect(w, a);
      if a.Ledger? { LedgerKeepsBinding(w.sys, a.op); }
      if a.UserEdit? && !Owned(w, a.path) { ReplayNext(w.base, w.log, Edit(a.path, a.file)); }
      if a.Begin? {
        AsideReplay(w, w.base, w.log, a.entries, w.source);
        AsideReplay(w, w.base, w.log, a.entries, w.target);
      }
      if a.Retire? || a.Abandon? {
        EditsReplay(w, w.base, w.log, w.journals[a.tx].entries, w.source);
        EditsReplay(w, w.base, w.log, w.journals[a.tx].entries, w.target);
      }
    }
  }

  lemma StepApart(w: World, a: Action)
    requires Enabled(w, a) && LeavesGlobalPairAlone(w, a) && ProjectsApart(w)
    requires Sighted(w, w.source) && Sighted(w, w.target)
    ensures ProjectsApart(Do(w, a))
  {
    hide L.Exec, L.Settle;
  }

  lemma {:induction false} RunParity(w0: World, actions: seq<Action>)
    requires Init(w0) && Parity(w0, w0.files) && Legal(w0, actions)
    requires forall i :: 0 <= i < |actions| ==> LeavesGlobalPairAlone(w0, actions[i])
    ensures var w := Play(w0, actions); Parity(w, Replay(w.base, w.log)) && ProjectsApart(w)
  {
    BaseKept(w0, actions);
    if actions != [] {
      var n := |actions| - 1;
      RunParity(w0, actions[..n]);
      BaseKept(w0, actions[..n]);
      InitInv(w0);
      PlayInv(w0, actions[..n]);
      OnlyEditsGoStale(w0, actions[..n], w0.source);
      OnlyEditsGoStale(w0, actions[..n], w0.target);
      StepParity(Play(w0, actions[..n]), actions[n]);
      StepApart(Play(w0, actions[..n]), actions[n]);
    }
  }

  /**
   From parity, over every run of global and project transactions, crashes, recoveries and
   ledger operations: with no journal outstanding, source and target hold the same bytes and
   both digests of the binding are theirs.
   */
  lemma QuietParity(w0: World, actions: seq<Action>)
    requires Init(w0) && Parity(w0, w0.files) && Legal(w0, actions)
    requires forall i :: 0 <= i < |actions| ==> LeavesGlobalPairAlone(w0, actions[i])
    requires Play(w0, actions).journals == map[]
    ensures Parity(Play(w0, actions), Play(w0, actions).files)
  {
    RunParity(w0, actions);
    QuietFilesAreReplay(w0, actions);
    BaseKept(w0, actions);
    InitInv(w0);
  }

  /**
   A project transaction keeps parity exactly when its target is neither global document or it
   leaves that document's bytes as they were: a project rooted at the host's own directory does not.
   */
  lemma ProjectKeepsParityExactly(w: World, abs: Files, e: Entry)
    requires Parity(w, abs) && w.source != w.target
    ensures Parity(w, Overlay(abs, [e])) <==>
            (e.path !in {w.source, w.target} || Data(e.after) == Data(Read(abs, e.path)))
  {
    assert [e][..0] == [];
    assert Overlay(abs, [e]) == Write(abs, e.path, e.after);
  }
}
