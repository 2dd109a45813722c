/** What becomes of an edit by hand when a journal holds the document, and exactly when it is lost. */
module Edits {
  import opened Prelude
  import L = Ledger
  import opened Protocol
  import opened ProtocolProofs
  import A = Atomicity

  /** The executor, or a recovery, writes target `i` of journal `tx`. */
  predicate Writes(a: Action, tx: L.TxId, i: nat) {
    (a.WriteAfter? || a.Undo? || a.Restore?) && a.tx == tx && a.i == i
  }

  ghost predicate Outstanding(w: World, tx: L.TxId, i: nat) {
    tx in w.journals && i < |w.journals[tx].entries|
  }

  /** Target `i` of journal `tx` holds an edit nobody has written over. */
  ghost predicate Pending(w: World, tx: L.TxId, i: nat) {
    Outstanding(w, tx, i) && w.journals[tx].entries[i].path in w.drifted
  }

  predicate EditsPath(a: Action, p: Path) {
    a.UserEdit? && a.path == p
  }

  /** A target edited between the check and the directory holds an edit from the moment its journal begins. */
  lemma UnseenEditIsPending(w: World, a: Action, i: nat)
    requires Enabled(w, a) && a.Begin? && i < |a.entries| && Read(w.files, a.entries[i].path) != a.entries[i].before
    ensures Pending(Do(w, a), a.tx, i) && Do(w, a).files == w.files
  {
    assert a.entries[i].path in Stale(w, a.entries);
  }

  /** So does a target edited under its journal. */
  lemma EditUnderJournalIsPending(w: World, a: Action, tx: L.TxId, i: nat)
    requires Outstanding(w, tx, i) && EditsPath(a, w.journals[tx].entries[i].path)
    ensures Pending(Do(w, a), tx, i) && Read(Do(w, a).files, a.path) == a.file
  {
    assert OwnedBy(w, tx, i, a.path);
  }

  // ------------------------------------------------------------------ one step

  lemma OthersWriteElsewhere(w: World, a: Action, tx: L.TxId, i: nat)
    requires Inv(w) && Enabled(w, a) && Outstanding(w, tx, i)
    requires (a.WriteAfter? || a.Undo? || a.Restore?) && !Writes(a, tx, i)
    ensures w.journals[a.tx].entries[a.i].path != w.journals[tx].entries[i].path
  {
    assert JournalOk(w, tx);
  }

  lemma OthersForgetElsewhere(w: World, t: L.TxId, tx: L.TxId, i: nat)
    requires Inv(w) && Outstanding(w, tx, i) && t in w.journals && t != tx
    ensures w.journals[tx].entries[i].path !in Paths(w.journals[t].entries)
  {
    assert Disjoint(w);
  }

  lemma OthersBeginElsewhere(w: World, a: Action, tx: L.TxId, i: nat)
    requires Inv(w) && Enabled(w, a) && a.Begin? && Outstanding(w, tx, i)
    ensures w.journals[tx].entries[i].path !in Stale(w, a.entries) && a.tx != tx
  {
    assert JournalOk(w, tx);
    assert OwnedBy(w, tx, i, w.journals[tx].entries[i].path);
  }

  /** While its journal stands, a target and its mark change by an edit or by the journal's own writes only. */
  lemma StepKeepsEdit(w: World, a: Action, tx: L.TxId, i: nat)
    requires Inv(w) && Enabled(w, a) && Outstanding(w, tx, i) && tx in Do(w, a).journals
    requires !EditsPath(a, w.journals[tx].entries[i].path)
    ensures Outstanding(Do(w, a), tx, i) && Do(w, a).journals[tx].entries == w.journals[tx].entries
    ensures var p, w' := w.journals[tx].entries[i].path, Do(w, a);
            && (Writes(a, tx, i) ==> p !in w'.drifted)
            && (!Writes(a, tx, i) ==> (p in w'.drifted <==> p in w.drifted) && Read(w'.files, p) == Read(w.files, p))
  {
    hide Inv, L.Exec, L.Settle, AllAt, AllAtOrEdited, GlobalPair, EditsUnder, SetAside, Stale;
    if a.Begin? { OthersBeginElsewhere(w, a, tx, i); }
    if (a.WriteAfter? || a.Undo? || a.Restore?) && !Writes(a, tx, i) { OthersWriteElsewhere(w, a, tx, i); }
    if (a.Retire? || a.Abandon?) && a.tx != tx { OthersForgetElsewhere(w, a.tx, tx, i); }
  }

  // ------------------------------------------------------------------ every run

  /** A journal that is there and is there later was there in between: ids are drawn once. */
  lemma StepForgetsForGood(w: World, a: Action, tx: L.TxId)
    requires Enabled(w, a) && tx in w.used
    ensures tx in Do(w, a).used && (tx in Do(w, a).journals ==> tx in w.journals)
  {
    hide L.Exec, L.Settle, AllAt, AllAtOrEdited, GlobalPair, EditsUnder, SetAside, Stale;
  }

  lemma {:induction false} UsedStaysUsed(w: World, actions: seq<Action>, tx: L.TxId)
    requires Legal(w, actions) && tx in w.used
    ensures tx in Play(w, actions).used
  {
    hide Do, Enabled;
    if actions != [] {
      UsedStaysUsed(w, actions[..|actions| - 1], tx);
      StepForgetsForGood(Play(w, actions[..|actions| - 1]), actions[|actions| - 1], tx);
    }
  }

  /**
   Over any run in which nobody edits the target again and its journal still stands, an edit
   stays there, byte for byte, exactly if the journal's owner and its recoveries never write it.
   */
  lemma {:induction false} EditStaysExactly(w: World, actions: seq<Action>, tx: L.TxId, i: nat)
    requires Inv(w) && Legal(w, actions) && Pending(w, tx, i) && tx in Play(w, actions).journals
    requires forall k :: 0 <= k < |actions| ==> !EditsPath(actions[k], w.journals[tx].entries[i].path)
    ensures var w' := Play(w, actions);
            && Outstanding(w', tx, i) && w'.journals[tx].entries == w.journals[tx].entries
            && (Pending(w', tx, i) <==> forall k :: 0 <= k < |actions| ==> !Writes(actions[k], tx, i))
            && (Pending(w', tx, i) ==>
                  Read(w'.files, w.journals[tx].entries[i].path) == Read(w.files, w.journals[tx].entries[i].path))
  {
    hide Do, Enabled, Inv;
    if actions != [] {
      var n := |actions| - 1;
      var mid := Play(w, actions[..n]);
      assert tx in w.used by { JournalIsUsed(w, tx); }
      UsedStaysUsed(w, actions[..n], tx);
      StepForgetsForGood(mid, actions[n], tx);
      EditStaysExactly(w, actions[..n], tx, i);
      PlayInv(w, actions[..n]);
      StepKeepsEdit(mid, actions[n], tx, i);
      assert forall k :: 0 <= k < n ==> actions[..n][k] == actions[k];
    }
  }

  lemma JournalIsUsed(w: World, tx: L.TxId)
    requires Inv(w) && tx in w.journals
    ensures tx in w.used
  {
    assert JournalOk(w, tx);
  }

  lemma ForgottenIsSettled(w: World, gone: Action, i: nat)
    requires Inv(w) && Enabled(w, gone) && (gone.Retire? || gone.Abandon?) && Outstanding(w, gone.tx, i)
    ensures var e, w' := w.journals[gone.tx].entries[i], Do(w, gone);
            && Read(w'.files, e.path) == Read(Replay(w'.base, w'.log), e.path)
            && Read(w'.files, e.path) == Read(w.files, e.path)
            && (!Pending(w, gone.tx, i) ==> Read(w.files, e.path) == Settled(w, gone.tx, e))
  {
    var e, w' := w.journals[gone.tx].entries[i], Do(w, gone);
    DoInv(w, gone);
    assert e.path in Paths(w.journals[gone.tx].entries);
    forall t, k | t in w'.journals && 0 <= k < |w'.journals[t].entries|
      ensures w'.journals[t].entries[k].path != e.path
    {
      OthersForgetElsewhere(w, gone.tx, t, k);
    }
    assert !Owned(w', e.path);
  }

  /**
   The fate of an edit to a document under a journal, whether it was made under the journal or
   between the check and the directory. When the journal goes, the document and the history
   that has been recorded show the edit if the journal never wrote that target after it;
   otherwise they show what the journal settles to. So the edit is lost exactly when the target
   was written after it and settles to something else.
   */
  lemma EditLostExactly(w: World, actions: seq<Action>, gone: Action, tx: L.TxId, i: nat)
    requires Inv(w) && Legal(w, actions) && Pending(w, tx, i)
    requires forall k :: 0 <= k < |actions| ==> !EditsPath(actions[k], w.journals[tx].entries[i].path)
    requires Enabled(Play(w, actions), gone) && (gone.Retire? || gone.Abandon?) && gone.tx == tx
    ensures var e, w' := w.journals[tx].entries[i], Do(Play(w, actions), gone);
            var written := exists k :: 0 <= k < |actions| && Writes(actions[k], tx, i);
            var settled := Settled(Play(w, actions), tx, e);
            && Read(w'.files, e.path) == Read(Replay(w'.base, w'.log), e.path)
            && Read(w'.files, e.path) == (if written then settled else Read(w.files, e.path))
            && (Read(w'.files, e.path) != Read(w.files, e.path) <==> written && settled != Read(w.files, e.path))
  {
    hide Do, Inv, Legal, Play, Replay, Settled;
    EditStaysExactly(w, actions, tx, i);
    PlayInv(w, actions);
    ForgottenIsSettled(Play(w, actions), gone, i);
  }
}
