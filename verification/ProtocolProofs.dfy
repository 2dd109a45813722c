/** What every run of the journal protocol keeps. */
module ProtocolProofs {
  import opened Prelude
  import L = Ledger
  import opened Protocol

  lemma ReplayNext(base: Files, log: seq<Change>, c: Change)
    ensures Replay(base, log + [c]) == Advance(Replay(base, log), c)
  {
    assert (log + [c])[..|log + [c]| - 1] == log;
  }

  lemma BeginInv(w: World, a: Action)
    requires Inv(w) && a.Begin? && Enabled(w, a)
    ensures Inv(Effect(w, a))
  {
    hide L.Inv, Replay, Means, HistoryOk, SetAside;
    var w' := Effect(w, a);
    forall tx | tx in w'.journals ensures JournalOk(w', tx) { BeginTargets(w, a, tx); }
    forall p | p in w'.drifted ensures Owned(w', p) { BeginOwners(w, a, p); }
    AsidesAreAsides(w, a.entries);
    NoTransactionsKeepHistory(w, w', SetAside(w, a.entries));
    assert Disjoint(w') by {
      forall t, u, i, j | t in w'.journals && u in w'.journals && t != u
                          && 0 <= i < |w'.journals[t].entries| && 0 <= j < |w'.journals[u].entries|
        ensures w'.journals[t].entries[i].path != w'.journals[u].entries[j].path
      {
        if t == a.tx { assert JournalOk(w, u); assert OwnedBy(w, u, j, w.journals[u].entries[j].path); }
        if u == a.tx { assert JournalOk(w, t); assert OwnedBy(w, t, i, w.journals[t].entries[i].path); }
      }
    }
    BeginMeans(w, a);
  }

  lemma UnusedIsUnspent(w: World, tx: L.TxId)
    requires HistoryOk(w) && tx !in w.used
    ensures tx !in w.spent
  {
  }

  /** Targets that changed since the check are marked as edited, so each journal still describes its own. */
  lemma BeginTargets(w: World, a: Action, tx: L.TxId)
    requires Inv(w) && a.Begin? && Enabled(w, a) && tx in Effect(w, a).journals
    ensures JournalOk(Effect(w, a), tx)
  {
    hide L.Inv, Replay, Means, RowsOk, HistoryOk, Disjoint, SetAside;
    var w' := Effect(w, a);
    if tx != a.tx {
      assert JournalOk(w, tx);
      forall i | 0 <= i < |w.journals[tx].entries| ensures TargetOk(w', tx, w.journals[tx].entries[i]) {
        assert TargetOk(w, tx, w.journals[tx].entries[i]);
      }
    } else {
      UnusedIsUnspent(w, tx);
      forall i | 0 <= i < |a.entries| ensures TargetOk(w', tx, a.entries[i]) { }
    }
  }

  lemma BeginOwners(w: World, a: Action, p: Path)
    requires Inv(w) && a.Begin? && Enabled(w, a)
    requires Owned(w, p) || p in Stale(w, a.entries) || p in w.drifted
    ensures Owned(Effect(w, a), p)
  {
    hide L.Inv, Replay, Means, RowsOk, HistoryOk, Disjoint, SetAside;
    if p in Stale(w, a.entries) {
      var i :| 0 <= i < |a.entries| && a.entries[i].path == p;
      assert OwnedBy(Effect(w, a), a.tx, i, p);
    } else {
      var tx, i :| OwnedBy(w, tx, i, p);
      assert JournalOk(w, tx);
      assert OwnedBy(Effect(w, a), tx, i, p);
    }
  }

  lemma {:induction false} AsidesAreAsides(w: World, es: seq<Entry>)
    ensures forall c :: c in SetAside(w, es) ==> c.Aside?
  {
    if es != [] { AsidesAreAsides(w, es[..|es| - 1]); }
  }

  lemma AsideNext(w: World, base: Files, log: seq<Change>, es: seq<Entry>)
    requires es != []
    ensures var e, before := es[|es| - 1], Replay(base, log + SetAside(w, es[..|es| - 1]));
            Replay(base, log + SetAside(w, es)) ==
              if Read(w.files, e.path) != e.before then Write(before, e.path, e.before) else before
  {
    hide Replay, Read, Write;
    var e, earlier := es[|es| - 1], SetAside(w, es[..|es| - 1]);
    if Read(w.files, e.path) != e.before {
      assert log + (earlier + [Aside(e.path, e.before)]) == log + earlier + [Aside(e.path, e.before)];
      ReplayNext(base, log + earlier, Aside(e.path, e.before));
    } else {
      assert earlier + [] == earlier;
    }
  }

  /** Setting edits aside brings each stale target back to its planned state, and nothing else. */
  lemma {:induction false} AsideReplay(w: World, base: Files, log: seq<Change>, es: seq<Entry>, p: Path)
    requires forall i, j :: 0 <= i < j < |es| ==> es[i].path != es[j].path
    ensures var now := Read(Replay(base, log + SetAside(w, es)), p);
            && (p !in Stale(w, es) ==> now == Read(Replay(base, log), p))
            && forall i :: 0 <= i < |es| && es[i].path == p && p in Stale(w, es) ==> now == es[i].before
  {
    hide Replay;
    if es == [] {
      assert log + [] == log;
    } else {
      hide SetAside, Stale;
      var init, e := es[..|es| - 1], es[|es| - 1];
      AsideReplay(w, base, log, init, p);
      AsideNext(w, base, log, es);
      StaleSplits(w, es, p);
      forall i | 0 <= i < |init| ensures init[i] == es[i] { }
    }
  }

  lemma StaleSplits(w: World, es: seq<Entry>, p: Path)
    requires es != []
    ensures var e := es[|es| - 1];
            p in Stale(w, es) <==> p in Stale(w, es[..|es| - 1]) || (p == e.path && Read(w.files, p) != e.before)
  {
    var init := es[..|es| - 1];
    forall i | 0 <= i < |init| && init[i].path == p && Read(w.files, p) != init[i].before ensures p in Stale(w, es) {
      assert es[i] == init[i];
    }
    if i :| 0 <= i < |init| && es[i].path == p && Read(w.files, p) != es[i].before {
      assert init[i] == es[i];
    }
  }

  lemma BeginMeans(w: World, a: Action)
    requires Inv(w) && a.Begin? && Enabled(w, a)
    ensures Means(Effect(w, a), Replay(w.base, Effect(w, a).log))
  {
    hide L.Inv, Replay, RowsOk, Disjoint, HistoryOk, SetAside;
    var w' := Effect(w, a);
    var earlier, abs := Replay(w.base, w.log), Replay(w.base, w'.log);
    forall tx, i | tx in w'.journals && 0 <= i < |w'.journals[tx].entries|
      ensures Read(abs, w'.journals[tx].entries[i].path) == Settled(w', tx, w'.journals[tx].entries[i])
    {
      var e := w'.journals[tx].entries[i];
      AsideReplay(w, w.base, w.log, a.entries, e.path);
      if tx == a.tx {
        UnusedIsUnspent(w, tx);
        assert !Owned(w, a.entries[i].path);
        assert e.path in Stale(w, a.entries) || Read(w.files, e.path) == e.before;
      } else {
        assert JournalOk(w, tx) && OwnedBy(w, tx, i, e.path);
        assert Read(earlier, w.journals[tx].entries[i].path) == Settled(w, tx, w.journals[tx].entries[i]);
      }
    }
    forall p | !Owned(w', p) ensures Read(abs, p) == Read(w'.files, p) {
      AsideReplay(w, w.base, w.log, a.entries, p);
      if Owned(w, p) || p in Stale(w, a.entries) { BeginOwners(w, a, p); }
    }
  }

  /** Changing only the phase of one journal changes no owner and no meaning. */
  lemma RephaseInv(w: World, tx: L.TxId, phase: Phase)
    requires Inv(w) && tx in w.journals
    requires JournalOk(Rephase(w, tx, phase), tx)
    ensures Inv(Rephase(w, tx, phase))
  {
    hide L.Inv, Replay, Means, RowsOk, HistoryOk, Disjoint;
    var w' := Rephase(w, tx, phase);
    forall t | t in w'.journals ensures JournalOk(w', t) {
      if t != tx {
        assert JournalOk(w, t);
        forall i | 0 <= i < |w.journals[t].entries| ensures TargetOk(w', t, w.journals[t].entries[i]) {
          assert TargetOk(w, t, w.journals[t].entries[i]);
        }
      }
    }
    PhasesMeanNothing(w, w');
  }

  lemma PhasesMeanNothing(w: World, w': World)
    requires Inv(w) && w' == w.(journals := w'.journals) && w.journals.Keys == w'.journals.Keys
    requires forall tx :: tx in w.journals ==> w.journals[tx].entries == w'.journals[tx].entries
    ensures L.Inv(w'.sys) && Disjoint(w') && RowsOk(w') && HistoryOk(w') && Means(w', Replay(w'.base, w'.log))
    ensures forall p :: p in w'.drifted ==> Owned(w', p)
  {
    hide L.Inv, Replay, JournalOk;
    SameOwners(w, w');
  }

  lemma SameOwners(w: World, w': World)
    requires w.journals.Keys == w'.journals.Keys
    requires forall tx :: tx in w.journals ==> w.journals[tx].entries == w'.journals[tx].entries
    ensures forall p :: Owned(w, p) <==> Owned(w', p)
  {
    forall p ensures Owned(w, p) <==> Owned(w', p) {
      if tx, i :| OwnedBy(w, tx, i, p) { assert OwnedBy(w', tx, i, p); }
      if tx, i :| OwnedBy(w', tx, i, p) { assert OwnedBy(w, tx, i, p); }
    }
  }

  /** A change of files and drift marks alone: the invariant is the targets' and the meaning. */
  lemma FilesInv(w: World, w': World)
    requires Inv(w) && w' == w.(files := w'.files, drifted := w'.drifted)
    requires forall p :: p in w'.drifted ==> Owned(w, p)
    requires forall t, k :: t in w.journals && 0 <= k < |w.journals[t].entries| ==>
             TargetOk(w', t, w.journals[t].entries[k])
    requires forall p :: !Owned(w, p) ==> Read(w'.files, p) == Read(w.files, p)
    ensures Inv(w')
  {
    hide L.Inv, Replay;
    SameOwners(w, w');
    forall t | t in w'.journals ensures JournalOk(w', t) {
      assert JournalOk(w, t);
    }
  }

  /** Writing one target of one journal, with a state that journal allows. */
  lemma WriteTargetInv(w: World, tx: L.TxId, i: nat, f: File, w': World)
    requires Inv(w) && tx in w.journals && i < |w.journals[tx].entries|
    requires var e := w.journals[tx].entries[i];
             && w' == w.(files := Write(w.files, e.path, f), drifted := w'.drifted)
             && w'.drifted in {w.drifted, w.drifted - {e.path}}
             && f in {e.before, e.after} && w.journals[tx].phase != Unreadable
             && (tx in w.spent ==> f == e.after)
    ensures Inv(w')
  {
    hide L.Inv, Replay, Means, RowsOk, HistoryOk;
    var e := w.journals[tx].entries[i];
    forall t, k | t in w.journals && 0 <= k < |w.journals[t].entries|
      ensures TargetOk(w', t, w.journals[t].entries[k])
    {
      assert JournalOk(w, t);
      assert TargetOk(w, t, w.journals[t].entries[k]);
      assert JournalOk(w, tx);
    }
    assert OwnedBy(w, tx, i, e.path);
    FilesInv(w, w');
  }

  lemma ForgetOwners(w: World, tx: L.TxId)
    requires Inv(w) && tx in w.journals
    ensures var w' := Forget(w, tx);
            && (forall p :: Owned(w', p) ==> Owned(w, p))
            && (forall p :: Owned(w, p) && !Owned(w', p) ==> exists i :: OwnedBy(w, tx, i, p))
            && (forall p :: p in w'.drifted ==> Owned(w', p))
  {
    var w' := Forget(w, tx);
    forall p ensures Owned(w', p) ==> Owned(w, p) {
      if t, i :| OwnedBy(w', t, i, p) { assert OwnedBy(w, t, i, p); }
    }
    forall p | Owned(w, p) && !Owned(w', p) ensures exists i :: OwnedBy(w, tx, i, p) {
      var t, i :| OwnedBy(w, t, i, p);
      if t != tx { assert OwnedBy(w', t, i, p); }
    }
    forall p | p in w'.drifted ensures Owned(w', p) {
      var t, i :| OwnedBy(w, t, i, p);
      assert p !in Paths(w.journals[tx].entries);
      assert t != tx;
      assert OwnedBy(w', t, i, p);
    }
  }

  /** A journal may go once each of its targets holds the state it settles to. */
  lemma ForgetInv(w: World, tx: L.TxId)
    requires Inv(w) && tx in w.journals
    requires AllAtOrEdited(w, w.journals[tx].entries, tx in w.spent)
    ensures Inv(Forget(w, tx))
  {
    hide L.Inv, Replay, HistoryOk, Means, EditsUnder;
    var w' := Forget(w, tx);
    ForgetOwners(w, tx);
    ForgetHistory(w, tx);
    ForgetMeans(w, tx);
    forall t | t in w'.journals ensures JournalOk(w', t) {
      assert JournalOk(w, t);
      forall k | 0 <= k < |w.journals[t].entries| ensures TargetOk(w', t, w.journals[t].entries[k]) {
        assert TargetOk(w, t, w.journals[t].entries[k]);
        var p := w.journals[t].entries[k].path;
        assert p !in Paths(w.journals[tx].entries);
      }
    }
  }

  lemma {:induction false} EditsAreEdits(w: World, es: seq<Entry>)
    ensures forall c :: c in EditsUnder(w, es) ==> c.Edit?
  {
    if es != [] { EditsAreEdits(w, es[..|es| - 1]); }
  }

  /** Other changes in the log leave the transactions in it as they are. */
  lemma NoTransactionsKeepHistory(w: World, w': World, edits: seq<Change>)
    requires HistoryOk(w) && (forall c :: c in edits ==> !c.Transaction?)
    requires w'.log == w.log + edits && w'.spent == w.spent && w.used <= w'.used && w'.sys.issued == w.sys.issued
    ensures HistoryOk(w')
  {
    forall i | |w.log| <= i < |w'.log| ensures !w'.log[i].Transaction? { assert w'.log[i] in edits; }
    forall tx | tx in w'.spent ensures Logged(w'.log, tx) {
      var i :| 0 <= i < |w.log| && w.log[i].Transaction? && w.log[i].tx == tx;
      assert w'.log[i] == w.log[i];
    }
  }

  lemma ForgetHistory(w: World, tx: L.TxId)
    requires HistoryOk(w) && tx in w.journals
    ensures HistoryOk(Forget(w, tx))
  {
    EditsAreEdits(w, w.journals[tx].entries);
    NoTransactionsKeepHistory(w, Forget(w, tx), EditsUnder(w, w.journals[tx].entries));
  }

  lemma EditsNext(w: World, base: Files, log: seq<Change>, es: seq<Entry>)
    requires es != []
    ensures var q, before := es[|es| - 1].path, Replay(base, log + EditsUnder(w, es[..|es| - 1]));
            Replay(base, log + EditsUnder(w, es)) ==
              if q in w.drifted then Write(before, q, Read(w.files, q)) else before
  {
    hide Replay, Read, Write;
    var q, earlier := es[|es| - 1].path, EditsUnder(w, es[..|es| - 1]);
    if q in w.drifted {
      assert log + (earlier + [Edit(q, Read(w.files, q))]) == log + earlier + [Edit(q, Read(w.files, q))];
      ReplayNext(base, log + earlier, Edit(q, Read(w.files, q)));
    } else {
      assert earlier + [] == earlier;
    }
  }

  /** Replaying the edits under a journal shows each edited target as it stands, and nothing else. */
  lemma {:induction false} EditsReplay(w: World, base: Files, log: seq<Change>, es: seq<Entry>, p: Path)
    ensures Read(Replay(base, log + EditsUnder(w, es)), p) ==
            if p in w.drifted && p in Paths(es) then Read(w.files, p) else Read(Replay(base, log), p)
  {
    hide Replay;
    if es == [] {
      assert log + [] == log;
    } else {
      hide EditsUnder;
      var init, q := es[..|es| - 1], es[|es| - 1].path;
      EditsReplay(w, base, log, init, p);
      EditsNext(w, base, log, es);
      assert Paths(es) == Paths(init) + {q} by {
        forall i | 0 <= i < |init| ensures init[i].path in Paths(es) { assert es[i].path == init[i].path; }
        forall i | 0 <= i < |init| ensures es[i].path in Paths(init) { assert init[i].path in Paths(init); }
      }
    }
  }

  lemma ForgetMeans(w: World, tx: L.TxId)
    requires Inv(w) && tx in w.journals
    requires AllAtOrEdited(w, w.journals[tx].entries, tx in w.spent)
    ensures Means(Forget(w, tx), Replay(w.base, Forget(w, tx).log))
  {
    hide L.Inv, Replay, RowsOk, HistoryOk, JournalOk, EditsUnder;
    var w', es := Forget(w, tx), w.journals[tx].entries;
    var earlier, abs := Replay(w.base, w.log), Replay(w.base, w'.log);
    ForgetOwners(w, tx);
    forall t, i | t in w'.journals && 0 <= i < |w'.journals[t].entries|
      ensures Read(abs, w'.journals[t].entries[i].path) == Settled(w', t, w'.journals[t].entries[i])
    {
      var p := w.journals[t].entries[i].path;
      EditsReplay(w, w.base, w.log, es, p);
      assert p !in Paths(es);
      assert Read(earlier, p) == Settled(w, t, w.journals[t].entries[i]);
    }
    forall p | !Owned(w', p) ensures Read(abs, p) == Read(w'.files, p) {
      EditsReplay(w, w.base, w.log, es, p);
      if Owned(w, p) {
        var i :| OwnedBy(w, tx, i, p);
        assert p in Paths(es);
        assert Read(earlier, es[i].path) == Settled(w, tx, es[i]);
      } else {
        assert p !in w.drifted;
      }
    }
  }

  // ------------------------------------------------------------------ ledger transactions

  /** A ledger transaction can drop a consumption row only together with its prompt. */
  lemma LedgerWitness(s: L.Sys, op: L.Op, tx: L.TxId, e: L.EventId)
    requires L.Inv(s) && e in s.issued
    requires L.TxRecorded(s.db, tx) || e !in s.db.events
    requires forall d :: d in s.db.consumptions && s.db.consumptions[d].tx == Some(tx) ==>
             s.db.consumptions[d].event == e
    ensures L.TxRecorded(L.Exec(s, op).db, tx) || e !in L.Exec(s, op).db.events
  {
    var s' := L.Exec(s, op);
    if s' == s { return; }
    match op
    case DoCapture(id, session, scope, now) =>
      L.CaptureKeeps(s.db, id, session, scope, now);
      var mid := s.db.(events := s.db.events[id := L.Event(session, scope, now)],
                       sessions := s.db.sessions[session := L.Session(scope, Some(id), now)]);
      L.PruneWellformed(mid, now);
      if e in s'.db.events {
        var d :| d in s.db.consumptions && s.db.consumptions[d].tx == Some(tx);
        L.PruneKeepsRows(mid, now, d);
        assert d in s'.db.consumptions && s'.db.consumptions[d].tx == Some(tx);
      }
    case DoPropose(_, _, _, _, _) =>
      if d :| d in s.db.consumptions && s.db.consumptions[d].tx == Some(tx) {
        assert d in s'.db.consumptions && s'.db.consumptions[d].tx == Some(tx);
      }
    case DoSettle(r) =>
      L.SettleEffect(s.db, r);
      if d :| d in s.db.consumptions && s.db.consumptions[d].tx == Some(tx) {
        assert d in s'.db.consumptions && s'.db.consumptions[d].tx == Some(tx);
      }
  }

  /** Rows that name a transaction are written by that transaction's own settlement only. */
  lemma LedgerRows(s: L.Sys, op: L.Op, d: Digest)
    requires L.Inv(s) && d in L.Exec(s, op).db.consumptions
    ensures (d in s.db.consumptions && L.Exec(s, op).db.consumptions[d] == s.db.consumptions[d])
         || (op.DoSettle? && L.Exec(s, op).db.consumptions[d].tx == op.request.tx
             && L.Exec(s, op).db.consumptions[d].event == op.request.approval.event)
  {
    var s' := L.Exec(s, op);
    if s' == s { return; }
    match op
    case DoCapture(id, session, scope, now) =>
      assert s'.db.consumptions.Keys <= s.db.consumptions.Keys;
    case DoPropose(_, _, _, _, _) =>
    case DoSettle(r) => L.SettleEffect(s.db, r);
  }

  lemma LedgerRowsOk(w: World, op: L.Op)
    requires Inv(w) && Enabled(w, Ledger(op))
    ensures RowsOk(Effect(w, Ledger(op)))
  {
    hide L.Exec, L.Settle, Replay, Means, JournalOk, HistoryOk, Disjoint;
    var w' := Effect(w, Ledger(op));
    forall d | d in w'.sys.db.consumptions && w'.sys.db.consumptions[d].tx.Some?
      ensures d in w.sys.db.consumptions && w'.sys.db.consumptions[d] == w.sys.db.consumptions[d]
    {
      LedgerRows(w.sys, op, d);
    }
  }

  lemma LedgerJournal(w: World, op: L.Op, tx: L.TxId)
    requires Inv(w) && Enabled(w, Ledger(op)) && tx in w.journals
    ensures JournalOk(Effect(w, Ledger(op)), tx)
  {
    hide L.Exec, L.Settle, Replay, Means, Disjoint, WellEntries;
    var w' := Effect(w, Ledger(op));
    assert JournalOk(w, tx);
    forall i | 0 <= i < |w.journals[tx].entries| ensures TargetOk(w', tx, w.journals[tx].entries[i]) {
      assert TargetOk(w, tx, w.journals[tx].entries[i]);
    }
    if tx in w.spent { LedgerWitness(w.sys, op, tx, w.spent[tx]); }
  }

  /** Prompts drawn stay drawn. */
  lemma LedgerHistory(w: World, op: L.Op)
    requires HistoryOk(w) && Enabled(w, Ledger(op))
    ensures HistoryOk(Effect(w, Ledger(op)))
  {
    hide L.Settle;
    assert w.sys.issued <= L.Exec(w.sys, op).issued;
  }

  lemma LedgerInv(w: World, op: L.Op)
    requires Inv(w) && Enabled(w, Ledger(op))
    ensures Inv(Effect(w, Ledger(op)))
  {
    hide L.Exec, L.Settle, Replay, JournalOk, RowsOk, HistoryOk;
    var w' := Effect(w, Ledger(op));
    L.ExecInv(w.sys, op);
    LedgerRowsOk(w, op);
    LedgerHistory(w, op);
    forall tx | tx in w'.journals ensures JournalOk(w', tx) { LedgerJournal(w, op, tx); }
    SameOwners(w, w');
  }

  // ------------------------------------------------------------------ the commit point

  lemma CommitJournals(w: World, a: Action)
    requires Inv(w) && a.Commit? && Enabled(w, a)
    ensures forall tx :: tx in Effect(w, a).journals ==> JournalOk(Effect(w, a), tx)
  {
    var w' := Effect(w, a);
    L.SettleEffect(w.sys.db, a.request);
    forall tx | tx in w'.journals ensures JournalOk(w', tx) {
      assert JournalOk(w, tx);
      forall i | 0 <= i < |w.journals[tx].entries| ensures TargetOk(w', tx, w.journals[tx].entries[i]) {
        assert TargetOk(w, tx, w.journals[tx].entries[i]);
      }
      if tx == a.tx {
        var d := L.RefDigest(a.request.approval.event);
        assert d in w'.sys.db.consumptions && w'.sys.db.consumptions[d].tx == Some(tx);
      } else if tx in w.spent {
        LedgerWitness(w.sys, L.DoSettle(a.request), tx, w.spent[tx]);
      }
    }
  }

  lemma CommitRows(w: World, a: Action)
    requires Inv(w) && a.Commit? && Enabled(w, a)
    ensures RowsOk(Effect(w, a))
  {
    L.SettleEffect(w.sys.db, a.request);
    assert JournalOk(w, a.tx);
    var rows, rows' := w.sys.db.consumptions, Effect(w, a).sys.db.consumptions;
    forall d | d in rows' && rows'[d].tx.Some?
      ensures d == L.RefDigest(a.request.approval.event) || (d in rows && rows'[d] == rows[d])
    {
    }
  }

  lemma LoggedGrows(log: seq<Change>, c: Change, tx: L.TxId)
    requires Logged(log, tx)
    ensures Logged(log + [c], tx)
  {
    var i :| 0 <= i < |log| && log[i].Transaction? && log[i].tx == tx;
    assert (log + [c])[i] == log[i];
  }

  /** A transaction recorded for the first time is logged once. */
  lemma RecordKeepsHistory(w: World, w': World, tx: L.TxId, event: L.EventId, es: seq<Entry>)
    requires HistoryOk(w) && tx in w.used && tx !in w.spent && event in w'.sys.issued
    requires w.sys.issued <= w'.sys.issued && w'.used == w.used && w'.spent == w.spent[tx := event]
    requires w'.log == w.log + [Transaction(tx, event, es)]
    ensures HistoryOk(w')
  {
    assert w'.log[|w.log|] == Transaction(tx, event, es);
    forall t | t in w'.spent ensures Logged(w'.log, t) {
      if t != tx { LoggedGrows(w.log, Transaction(tx, event, es), t); }
    }
    forall i | 0 <= i < |w.log| && w.log[i].Transaction? ensures w.log[i].tx != tx { assert w.log[i].tx in w.spent; }
    assert forall i :: 0 <= i < |w.log| ==> w'.log[i] == w.log[i];
  }

  lemma CommitHistory(w: World, a: Action)
    requires Inv(w) && a.Commit? && Enabled(w, a)
    ensures HistoryOk(Effect(w, a))
  {
    hide Replay, Means, RowsOk, Disjoint, HistoryOk, L.Settle;
    L.SettleEffect(w.sys.db, a.request);
    assert JournalOk(w, a.tx);
    RecordKeepsHistory(w, Effect(w, a), a.tx, a.request.approval.event, w.journals[a.tx].entries);
  }

  lemma CommitLog(w: World, a: Action)
    requires a.Commit? && Enabled(w, a)
    ensures Replay(w.base, Effect(w, a).log) == Overlay(Replay(w.base, w.log), w.journals[a.tx].entries)
  {
    hide Replay, Overlay, L.Settle, L.Exec;
    ReplayNext(w.base, w.log, Transaction(a.tx, a.request.approval.event, w.journals[a.tx].entries));
  }

  /** The one step that changes the meaning writes every target of one journal at once. */
  lemma CommitMeans(w: World, a: Action)
    requires Inv(w) && a.Commit? && Enabled(w, a)
    ensures Replay(w.base, Effect(w, a).log) == Overlay(Replay(w.base, w.log), w.journals[a.tx].entries)
    ensures Means(Effect(w, a), Replay(w.base, Effect(w, a).log))
  {
    hide L.Inv, L.Settle, L.Exec, RowsOk, HistoryOk, TargetOk, Witnessed, GlobalPair, Replay, Overlay;
    CommitLog(w, a);
    var w', es := Effect(w, a), w.journals[a.tx].entries;
    var earlier, abs := Replay(w.base, w.log), Replay(w.base, w'.log);
    assert JournalOk(w, a.tx);
    SameOwners(w, w');
    forall tx, i | tx in w'.journals && 0 <= i < |w'.journals[tx].entries|
      ensures Read(abs, w'.journals[tx].entries[i].path) == Settled(w', tx, w'.journals[tx].entries[i])
    {
      OverlayReads(earlier, es, w.journals[tx].entries[i].path);
      assert Read(earlier, w.journals[tx].entries[i].path) == Settled(w, tx, w.journals[tx].entries[i]);
    }
    forall p | !Owned(w', p) ensures Read(abs, p) == Read(w'.files, p) {
      OverlayReads(earlier, es, p);
      forall i | 0 <= i < |es| ensures es[i].path != p {
        assert OwnedBy(w', a.tx, i, es[i].path);
      }
    }
  }

  lemma CommitInv(w: World, a: Action)
    requires Inv(w) && a.Commit? && Enabled(w, a)
    ensures Inv(Effect(w, a))
  {
    L.ExecInv(w.sys, L.DoSettle(a.request));
    CommitJournals(w, a);
    CommitRows(w, a);
    CommitHistory(w, a);
    CommitMeans(w, a);
    SameOwners(w, Effect(w, a));
  }

  // ------------------------------------------------------------------ edits

  lemma EditTarget(w: World, a: Action, tx: L.TxId, i: nat)
    requires Inv(w) && a.UserEdit? && tx in w.journals && i < |w.journals[tx].entries|
    ensures TargetOk(Effect(w, a), tx, w.journals[tx].entries[i])
  {
    hide L.Inv, Replay, Means, RowsOk, HistoryOk, Disjoint;
    assert JournalOk(w, tx);
    var e := w.journals[tx].entries[i];
    assert TargetOk(w, tx, e);
    assert OwnedBy(w, tx, i, e.path);
    if e.path == a.path { assert Owned(w, a.path); }
  }

  lemma EditTargets(w: World, a: Action)
    requires Inv(w) && a.UserEdit?
    ensures forall tx :: tx in w.journals ==> JournalOk(Effect(w, a), tx)
  {
    hide L.Inv, Replay, Means, RowsOk, HistoryOk, Disjoint;
    forall tx | tx in w.journals ensures JournalOk(Effect(w, a), tx) {
      assert JournalOk(w, tx);
      forall i | 0 <= i < |w.journals[tx].entries| ensures TargetOk(Effect(w, a), tx, w.journals[tx].entries[i]) {
        EditTarget(w, a, tx, i);
      }
    }
  }

  lemma EditInv(w: World, a: Action)
    requires Inv(w) && a.UserEdit?
    ensures Inv(Effect(w, a))
  {
    hide L.Inv, Replay, RowsOk, HistoryOk, Disjoint, JournalOk;
    var w' := Effect(w, a);
    SameOwners(w, w');
    EditTargets(w, a);
    EditRows(w, a);
    if !Owned(w, a.path) {
      EditMeans(w, a);
      EditHistory(w, a);
    } else {
      forall p | !Owned(w, p) ensures Read(w'.files, p) == Read(w.files, p) { }
    }
  }

  lemma EditRows(w: World, a: Action)
    requires Inv(w) && a.UserEdit?
    ensures Disjoint(Effect(w, a)) && RowsOk(Effect(w, a)) && L.Inv(Effect(w, a).sys)
    ensures Owned(w, a.path) ==> HistoryOk(Effect(w, a))
  {
    hide L.Inv, Replay, Means, JournalOk;
  }

  lemma EditHistory(w: World, a: Action)
    requires Inv(w) && a.UserEdit? && !Owned(w, a.path)
    ensures HistoryOk(Effect(w, a))
  {
    forall tx | tx in w.spent ensures Logged(Effect(w, a).log, tx) {
      LoggedGrows(w.log, Edit(a.path, a.file), tx);
    }
  }

  lemma EditMeans(w: World, a: Action)
    requires Inv(w) && a.UserEdit? && !Owned(w, a.path)
    ensures Means(Effect(w, a), Replay(w.base, Effect(w, a).log))
  {
    var w' := Effect(w, a);
    SameOwners(w, w');
    assert w'.log[..|w'.log| - 1] == w.log;
    var earlier, abs := Replay(w.base, w.log), Replay(w.base, w'.log);
    assert abs == Write(earlier, a.path, a.file);
    forall tx, i | tx in w'.journals && 0 <= i < |w'.journals[tx].entries|
      ensures Read(abs, w'.journals[tx].entries[i].path) == Settled(w', tx, w'.journals[tx].entries[i])
    {
      assert OwnedBy(w, tx, i, w.journals[tx].entries[i].path);
      assert Read(earlier, w.journals[tx].entries[i].path) == Settled(w, tx, w.journals[tx].entries[i]);
    }
  }

  // ------------------------------------------------------------------ every run

  lemma PhaseInv(w: World, a: Action)
    requires Inv(w) && Enabled(w, a) && (a.WriteManifest? || a.Damage? || a.MarkWritten? || a.MarkCommitted?)
    ensures Inv(Effect(w, a))
  {
    var phase := if a.WriteManifest? then Prepared else if a.Damage? then Unreadable
                 else if a.MarkWritten? then FilesWritten else Committed;
    assert JournalOk(w, a.tx);
    assert Effect(w, a) == Rephase(w, a.tx, phase);
    forall i | 0 <= i < |w.journals[a.tx].entries|
      ensures TargetOk(Effect(w, a), a.tx, w.journals[a.tx].entries[i])
    {
      assert TargetOk(w, a.tx, w.journals[a.tx].entries[i]);
    }
    assert a.MarkWritten? ==> a.tx !in w.spent;
    RephaseInv(w, a.tx, phase);
  }

  lemma TargetInv(w: World, a: Action)
    requires Inv(w) && Enabled(w, a) && (a.WriteAfter? || a.Restore? || a.Undo?)
    ensures Inv(Effect(w, a))
  {
    var e := w.journals[a.tx].entries[a.i];
    var after := a.WriteAfter? || (a.Restore? && a.committed);
    WriteTargetInv(w, a.tx, a.i, if after then e.after else e.before, Effect(w, a));
  }

  /** Retired directories mean nothing. */
  lemma RetiredInv(w: World, retired: set<L.TxId>)
    requires Inv(w)
    ensures Inv(w.(retired := retired))
  {
    var w' := w.(retired := retired);
    SameOwners(w, w');
    forall tx | tx in w'.journals ensures JournalOk(w', tx) {
      assert JournalOk(w, tx);
      forall i | 0 <= i < |w.journals[tx].entries| ensures TargetOk(w', tx, w.journals[tx].entries[i]) {
        assert TargetOk(w, tx, w.journals[tx].entries[i]);
      }
    }
  }

  /** What an executor remembers means nothing. */
  lemma SightInv(w: World, seen: Sight)
    requires Inv(w)
    ensures Inv(w.(seen := seen))
  {
    hide L.Inv, Replay;
    var w' := w.(seen := seen);
    SameOwners(w, w');
    forall tx | tx in w'.journals ensures JournalOk(w', tx) {
      assert JournalOk(w, tx);
      forall i | 0 <= i < |w.journals[tx].entries| ensures TargetOk(w', tx, w.journals[tx].entries[i]) {
        assert TargetOk(w, tx, w.journals[tx].entries[i]);
      }
    }
  }

  lemma EffectInv(w: World, a: Action)
    requires Inv(w) && Enabled(w, a)
    ensures Inv(Effect(w, a))
  {
    hide Inv;
    if a.Begin? { BeginInv(w, a); }
    else if a.WriteManifest? || a.Damage? || a.MarkWritten? || a.MarkCommitted? { PhaseInv(w, a); }
    else if a.WriteAfter? || a.Restore? || a.Undo? { TargetInv(w, a); }
    else if a.Abandon? { ForgetInv(w, a.tx); }
    else if a.Commit? { CommitInv(w, a); }
    else if a.Retire? { ForgetInv(w, a.tx); RetiredInv(Forget(w, a.tx), Effect(w, a).retired); }
    else if a.Delete? { RetiredInv(w, Effect(w, a).retired); }
    else if a.Ledger? { LedgerInv(w, a.op); }
    else if a.UserEdit? { EditInv(w, a); }
  }

  lemma DoInv(w: World, a: Action)
    requires Inv(w) && Enabled(w, a)
    ensures Inv(Do(w, a))
  {
    hide Inv, Effect;
    EffectInv(w, a);
    SightInv(Effect(w, a), Seeing(w, a));
  }

  lemma {:induction false} PlayInv(w: World, actions: seq<Action>)
    requires Inv(w) && Legal(w, actions)
    ensures Inv(Play(w, actions))
  {
    if actions != [] {
      PlayInv(w, actions[..|actions| - 1]);
      DoInv(Play(w, actions[..|actions| - 1]), actions[|actions| - 1]);
    }
  }
}
