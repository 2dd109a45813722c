/**
 The journaled file transaction as a protocol over durable state. An action is one durable
 effect of `apply`, `recover`, another ledger transaction or a person's editor, or a check whose
 result the executor relies on in its next effect; edits and ledger transactions may fall between
 the two. A crash is simply the absence of the next action.
 */
module Protocol {
  import opened Prelude
  import L = Ledger

  type Path = string

  datatype File = Absent | Present(data: Text)

  function Data(f: File): Text {
    if f.Present? then f.data else ""
  }

  type Files = map<Path, Text>

  function Read(files: Files, p: Path): File {
    if p in files then Present(files[p]) else Absent
  }

  function Write(files: Files, p: Path, f: File): Files {
    match f
    case Absent => files - {p}
    case Present(d) => files[p := d]
  }

  /** One line of a manifest with its two snapshots. */
  datatype Entry = Entry(path: Path, before: File, after: File)

  /** `Unreadable`: the directory exists but its manifest or a snapshot is missing. */
  datatype Phase = Unreadable | Prepared | FilesWritten | Committed

  /** A manifest of the first contract version carries no source event. */
  datatype Journal = Journal(entries: seq<Entry>, event: Option<L.EventId>, global: bool, phase: Phase)

  /**
   A change of the documents, as someone reading only their meaning would list it. `Aside` puts
   back the planned state of a target somebody edited after the executor had checked it: from
   then on the edit counts as one made under the journal.
   */
  datatype Change =
    | Transaction(tx: L.TxId, event: L.EventId, entries: seq<Entry>)
    | Edit(path: Path, file: File)
    | Aside(path: Path, file: File)

  /** What the executor at work has checked last. */
  datatype Sight =
    | SawNothing
    | SawPlanned(entries: seq<Entry>)
    | SawTarget(tx: L.TxId, i: nat, committed: bool)

  /**
   `files`, `journals`, `retired` and `sys.db` are durable. The rest is history: every
   transaction id ever drawn, which of them were ever consumed and for which prompt, the
   documents the run began with, the changes since, and the targets edited under a journal.
   Only `seen` is in an executor's memory; a crashed executor never uses it again.
   */
  datatype World = World(
    files: Files,
    journals: map<L.TxId, Journal>,
    retired: set<L.TxId>,
    sys: L.Sys,
    used: set<L.TxId>,
    spent: map<L.TxId, L.EventId>,
    base: Files,
    log: seq<Change>,
    drifted: set<Path>,
    seen: Sight,
    source: Path,
    target: Path)

  datatype Action =
    | Check(entries: seq<Entry>)
    | Begin(tx: L.TxId, entries: seq<Entry>, event: L.EventId, global: bool)
    | WriteManifest(tx: L.TxId)
    | Damage(tx: L.TxId)
    | Abandon(tx: L.TxId)
    | WriteAfter(tx: L.TxId, i: nat)
    | MarkWritten(tx: L.TxId)
    | Commit(tx: L.TxId, request: L.Request)
    | MarkCommitted(tx: L.TxId)
    | Look(tx: L.TxId, i: nat, committed: bool)
    | Restore(tx: L.TxId, i: nat, committed: bool)
    | Undo(tx: L.TxId, i: nat)
    | Retire(tx: L.TxId)
    | Delete(tx: L.TxId)
    | Ledger(op: L.Op)
    | UserEdit(path: Path, file: File)

  // ------------------------------------------------------------------ guards and effects

  ghost predicate WellEntries(es: seq<Entry>) {
    1 <= |es| <= 2 && forall i, j :: 0 <= i < j < |es| ==> es[i].path != es[j].path
  }

  ghost predicate Owned(w: World, p: Path) {
    exists tx, i :: OwnedBy(w, tx, i, p)
  }

  ghost predicate OwnedBy(w: World, tx: L.TxId, i: int, p: Path) {
    tx in w.journals && 0 <= i < |w.journals[tx].entries| && w.journals[tx].entries[i].path == p
  }

  function Settled(w: World, tx: L.TxId, e: Entry): File {
    if tx in w.spent then e.after else e.before
  }

  ghost predicate AllAt(w: World, es: seq<Entry>, after: bool) {
    forall i :: 0 <= i < |es| ==> Read(w.files, es[i].path) == if after then es[i].after else es[i].before
  }

  /** The same, apart from targets edited by hand meanwhile, which nobody looks at again. */
  ghost predicate AllAtOrEdited(w: World, es: seq<Entry>, after: bool) {
    forall i :: 0 <= i < |es| ==>
      es[i].path in w.drifted || Read(w.files, es[i].path) == if after then es[i].after else es[i].before
  }

  /** The checks of `_global_paths_and_assert_parity` and `_assert_same_global_plan`. */
  ghost predicate GlobalPair(w: World, es: seq<Entry>) {
    && |es| == 2 && es[0].path == w.source && es[1].path == w.target
    && Data(es[0].before) == Data(es[1].before)
    && Data(es[0].after) == Data(es[1].after)
  }

  ghost predicate ProjectOnly(w: World, es: seq<Entry>) {
    forall i :: 0 <= i < |es| ==> es[i].path != w.source && es[i].path != w.target
  }

  function RebindOf(j: Journal): Option<Digest>
    requires j.entries != []
  {
    if j.global then Some(Sha256(Data(j.entries[0].after))) else None
  }

  /** What the code of one executor checks before each effect; the locks and `recover` apart. */
  ghost predicate Possible(w: World, a: Action) {
    match a
    case Check(es) => AllAt(w, es, false)
    case Begin(tx, es, event, global) =>
      tx !in w.used && WellEntries(es) && w.seen == SawPlanned(es) && (global ==> GlobalPair(w, es))
    case WriteManifest(tx) =>
      && tx in w.journals && w.journals[tx].phase == Unreadable && tx !in w.spent
      && AllAtOrEdited(w, w.journals[tx].entries, false)
    case Damage(tx) =>
      && tx in w.journals && w.journals[tx].phase == Prepared && tx !in w.spent
      && AllAtOrEdited(w, w.journals[tx].entries, false)
    case Abandon(tx) =>
      tx in w.journals && tx !in w.spent && AllAtOrEdited(w, w.journals[tx].entries, false)
    case WriteAfter(tx, i) =>
      tx in w.journals && i < |w.journals[tx].entries| && w.journals[tx].phase == Prepared && tx !in w.spent
    case MarkWritten(tx) =>
      && tx in w.journals && w.journals[tx].phase == Prepared && tx !in w.spent
      && AllAtOrEdited(w, w.journals[tx].entries, true)
    case Commit(tx, r) =>
      && tx in w.journals && w.journals[tx].phase == FilesWritten && tx !in w.spent
      && AllAtOrEdited(w, w.journals[tx].entries, true)
      && w.journals[tx].entries != []
      && r.tx == Some(tx) && w.journals[tx].event == Some(r.approval.event) && r.rebind == RebindOf(w.journals[tx])
      && L.Settle(w.sys.db, r).Ok?
    case MarkCommitted(tx) =>
      tx in w.journals && w.journals[tx].phase == FilesWritten && tx in w.spent
    case Look(tx, i, committed) =>
      && tx in w.journals && i < |w.journals[tx].entries| && w.journals[tx].phase != Unreadable
      && (committed <==> tx in w.spent)
      && (var e := w.journals[tx].entries[i]; Read(w.files, e.path) in {e.before, e.after})
    case Restore(tx, i, committed) =>
      && tx in w.journals && i < |w.journals[tx].entries| && w.journals[tx].phase != Unreadable
      && (committed <==> tx in w.spent) && w.seen == SawTarget(tx, i, committed)
    case Undo(tx, i) =>
      && tx in w.journals && i < |w.journals[tx].entries| && w.journals[tx].phase in {Prepared, FilesWritten}
      && tx !in w.spent
    case Retire(tx) =>
      && tx in w.journals && w.journals[tx].phase != Unreadable
      && AllAtOrEdited(w, w.journals[tx].entries, tx in w.spent)
    case Delete(tx) => tx in w.retired
    case Ledger(op) => op.DoSettle? ==> op.request.tx.None? && op.request.rebind.None?
    case UserEdit(p, f) => true
  }

  /** Executors one after another: a transaction begins only on targets no journal owns. */
  ghost predicate Enabled(w: World, a: Action) {
    Possible(w, a) && (a.Begin? ==> forall i :: 0 <= i < |a.entries| ==> !Owned(w, a.entries[i].path))
  }

  function Rephase(w: World, tx: L.TxId, phase: Phase): World
    requires tx in w.journals
  {
    w.(journals := w.journals[tx := w.journals[tx].(phase := phase)])
  }

  /** A check is good for the executor's next effect only; what others do meanwhile does not end it. */
  function Seeing(w: World, a: Action): Sight {
    match a
    case Check(es) => SawPlanned(es)
    case Look(tx, i, committed) => SawTarget(tx, i, committed)
    case Ledger(_) => w.seen
    case UserEdit(_, _) => w.seen
    case _ => SawNothing
  }

  ghost function Do(w: World, a: Action): World
    requires Possible(w, a)
  {
    Effect(w, a).(seen := Seeing(w, a))
  }

  ghost function Effect(w: World, a: Action): World
    requires Possible(w, a)
  {
    match a
    case Check(_) => w
    case Look(_, _, _) => w
    case Begin(tx, es, event, global) =>
      w.(journals := w.journals[tx := Journal(es, Some(event), global, Unreadable)], used := w.used + {tx},
         drifted := w.drifted + Stale(w, es), log := w.log + SetAside(w, es))
    case WriteManifest(tx) => Rephase(w, tx, Prepared)
    case Damage(tx) => Rephase(w, tx, Unreadable)
    case Abandon(tx) => Forget(w, tx)
    case WriteAfter(tx, i) =>
      var e := w.journals[tx].entries[i];
      w.(files := Write(w.files, e.path, e.after), drifted := w.drifted - {e.path})
    case MarkWritten(tx) => Rephase(w, tx, FilesWritten)
    case Commit(tx, r) =>
      w.(sys := L.Exec(w.sys, L.DoSettle(r)),
         spent := w.spent[tx := r.approval.event],
         log := w.log + [Transaction(tx, r.approval.event, w.journals[tx].entries)])
    case MarkCommitted(tx) => Rephase(w, tx, Committed)
    case Restore(tx, i, committed) =>
      var e := w.journals[tx].entries[i];
      w.(files := Write(w.files, e.path, if committed then e.after else e.before), drifted := w.drifted - {e.path})
    case Undo(tx, i) =>
      var e := w.journals[tx].entries[i];
      w.(files := Write(w.files, e.path, e.before), drifted := w.drifted - {e.path})
    case Retire(tx) => Forget(w, tx).(retired := w.retired + {tx})
    case Delete(tx) => w.(retired := w.retired - {tx})
    case Ledger(op) => w.(sys := L.Exec(w.sys, op))
    case UserEdit(p, f) =>
      if Owned(w, p) then w.(files := Write(w.files, p, f), drifted := w.drifted + {p})
      else w.(files := Write(w.files, p, f), log := w.log + [Edit(p, f)])
  }

  /** A journal goes, and edits made to its targets meanwhile come into their own. */
  ghost function Forget(w: World, tx: L.TxId): World
    requires tx in w.journals
  {
    w.(journals := w.journals - {tx}, drifted := w.drifted - Paths(w.journals[tx].entries),
       log := w.log + EditsUnder(w, w.journals[tx].entries))
  }

  function EditsUnder(w: World, es: seq<Entry>): seq<Change> {
    if es == [] then []
    else
      var p := es[|es| - 1].path;
      EditsUnder(w, es[..|es| - 1]) + if p in w.drifted then [Edit(p, Read(w.files, p))] else []
  }

  /** Planned targets that no longer hold the state the executor checked. */
  function Stale(w: World, es: seq<Entry>): set<Path> {
    set i | 0 <= i < |es| && Read(w.files, es[i].path) != es[i].before :: es[i].path
  }

  function SetAside(w: World, es: seq<Entry>): seq<Change> {
    if es == [] then []
    else
      var e := es[|es| - 1];
      SetAside(w, es[..|es| - 1]) + if Read(w.files, e.path) != e.before then [Aside(e.path, e.before)] else []
  }

  function Paths(es: seq<Entry>): set<Path> {
    set i | 0 <= i < |es| :: es[i].path
  }

  ghost predicate Legal(w: World, actions: seq<Action>)
    decreases |actions|, 0
  {
    actions == [] ||
    (Legal(w, actions[..|actions| - 1]) && Enabled(Play(w, actions[..|actions| - 1]), actions[|actions| - 1]))
  }

  ghost function Play(w: World, actions: seq<Action>): World
    requires Legal(w, actions)
    decreases |actions|, 1
  {
    if actions == [] then w
    else Do(Play(w, actions[..|actions| - 1]), actions[|actions| - 1])
  }

  // ------------------------------------------------------------------ what the documents mean

  function Overlay(files: Files, es: seq<Entry>): Files {
    if es == [] then files
    else Write(Overlay(files, es[..|es| - 1]), es[|es| - 1].path, es[|es| - 1].after)
  }

  /** One change, a transaction writing all its targets at once. */
  function Advance(files: Files, c: Change): Files {
    match c
    case Transaction(_, _, es) => Overlay(files, es)
    case Edit(p, f) => Write(files, p, f)
    case Aside(p, f) => Write(files, p, f)
  }

  /** The documents after each change in turn. */
  function Replay(base: Files, log: seq<Change>): Files {
    if log == [] then base else Advance(Replay(base, log[..|log| - 1]), log[|log| - 1])
  }

  lemma {:induction false} OverlayReads(files: Files, es: seq<Entry>, p: Path)
    requires forall i, j :: 0 <= i < j < |es| ==> es[i].path != es[j].path
    ensures forall i :: 0 <= i < |es| && es[i].path == p ==> Read(Overlay(files, es), p) == es[i].after
    ensures (forall i :: 0 <= i < |es| ==> es[i].path != p) ==> Read(Overlay(files, es), p) == Read(files, p)
  {
    if es != [] {
      OverlayReads(files, es[..|es| - 1], p);
    }
  }

  /** Documents under a journal mean what that journal will settle to; the others mean themselves. */
  ghost predicate Means(w: World, abs: Files) {
    && (forall tx, i :: tx in w.journals && 0 <= i < |w.journals[tx].entries| ==>
          Read(abs, w.journals[tx].entries[i].path) == Settled(w, tx, w.journals[tx].entries[i]))
    && (forall p :: !Owned(w, p) ==> Read(abs, p) == Read(w.files, p))
  }

  // ------------------------------------------------------------------ the invariant

  ghost predicate JournalOk(w: World, tx: L.TxId)
    requires tx in w.journals
  {
    var j := w.journals[tx];
    && tx in w.used && WellEntries(j.entries)
    && (j.global ==> GlobalPair(w, j.entries))
    && (forall i :: 0 <= i < |j.entries| ==> TargetOk(w, tx, j.entries[i]))
    && (j.phase == Committed ==> tx in w.spent)
    && (tx in w.spent ==> j.phase in {FilesWritten, Committed} && j.event == Some(w.spent[tx]) && Witnessed(w, tx))
  }

  /** The key invariant: a committed target already holds its after state. */
  ghost predicate TargetOk(w: World, tx: L.TxId, e: Entry)
    requires tx in w.journals
  {
    e.path !in w.drifted ==>
      var now := Read(w.files, e.path);
      && (tx in w.spent ==> now == e.after)
      && (tx !in w.spent ==> now in {e.before, e.after})
      && (w.journals[tx].phase == Unreadable ==> now == e.before)
  }

  /** The consumption row outlives everything but its own prompt. */
  ghost predicate Witnessed(w: World, tx: L.TxId)
    requires tx in w.spent
  {
    L.TxRecorded(w.sys.db, tx) || w.spent[tx] !in w.sys.db.events
  }

  ghost predicate Disjoint(w: World) {
    forall t, u, i, j :: t in w.journals && u in w.journals && t != u
                         && 0 <= i < |w.journals[t].entries| && 0 <= j < |w.journals[u].entries|
                         ==> w.journals[t].entries[i].path != w.journals[u].entries[j].path
  }

  ghost predicate RowsOk(w: World) {
    forall d :: d in w.sys.db.consumptions && w.sys.db.consumptions[d].tx.Some? ==>
                  var tx := w.sys.db.consumptions[d].tx.value;
                  && tx in w.used
                  && (tx in w.journals ==> tx in w.spent && w.spent[tx] == w.sys.db.consumptions[d].event)
  }

  ghost predicate HistoryOk(w: World) {
    && w.spent.Keys <= w.used
    && (forall tx :: tx in w.spent ==> w.spent[tx] in w.sys.issued)
    && (forall i :: 0 <= i < |w.log| && w.log[i].Transaction? ==>
          w.log[i].tx in w.spent && w.spent[w.log[i].tx] == w.log[i].event)
    && (forall tx :: tx in w.spent ==> Logged(w.log, tx))
    && (forall i, j :: 0 <= i < j < |w.log| && w.log[i].Transaction? && w.log[j].Transaction? ==>
          w.log[i].tx != w.log[j].tx)
  }

  ghost predicate Logged(log: seq<Change>, tx: L.TxId) {
    exists i :: 0 <= i < |log| && log[i].Transaction? && log[i].tx == tx
  }

  ghost predicate Inv(w: World) {
    && L.Inv(w.sys)
    && (forall tx :: tx in w.journals ==> JournalOk(w, tx))
    && Disjoint(w)
    && RowsOk(w)
    && HistoryOk(w)
    && (forall p :: p in w.drifted ==> Owned(w, p))
    && Means(w, Replay(w.base, w.log))
  }

  /** A Store and documents with no transaction outstanding. */
  ghost predicate Init(w: World) {
    && L.Wellformed(w.sys.db) && w.sys == L.Start(w.sys.db)
    && w.journals == map[] && w.spent == map[] && w.log == [] && w.base == w.files && w.drifted == {}
    && w.seen == SawNothing
    && (forall d :: d in w.sys.db.consumptions && w.sys.db.consumptions[d].tx.Some? ==>
          w.sys.db.consumptions[d].tx.value in w.used)
  }

  lemma InitInv(w: World)
    requires Init(w)
    ensures Inv(w)
  {
  }
}
