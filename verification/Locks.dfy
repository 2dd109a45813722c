/**
 Any number of executors, each taking the locks of its paths in one global order. Case folding
 is an abstract function; a lock file stands for its folded path.
 */
module Locks {
  import opened Prelude
  import opened Strings

  type Fold = Text -> Text

  /** An executor: its paths, their locks in order, how many it holds, and whether it is letting go. */
  datatype Executor = Executor(paths: set<Text>, plan: seq<Text>, held: nat, leaving: bool)

  type Pool = map<nat, Executor>

  ghost predicate Ascending(s: seq<Text>) {
    forall i, j :: 0 <= i < j < |s| ==> LexLess(s[i], s[j])
  }

  function Folded(fold: Fold, paths: set<Text>): set<Text> {
    set p | p in paths :: fold(p)
  }

  ghost predicate PlanFor(fold: Fold, paths: set<Text>, plan: seq<Text>) {
    Ascending(plan) && forall x :: x in plan <==> x in Folded(fold, paths)
  }

  // ------------------------------------------------------------------ the sorted plan

  method SortedLocks(fold: Fold, paths: set<Text>) returns (plan: seq<Text>)
    ensures PlanFor(fold, paths, plan)
  {
    plan := [];
    var rest := Folded(fold, paths);
    while rest != {}
      invariant rest <= Folded(fold, paths) && Ascending(plan)
      invariant forall x :: x in plan <==> x in Folded(fold, paths) && x !in rest
    {
      var x :| x in rest;
      rest := rest - {x};
      plan := InsertLock(plan, x);
    }
  }

  method InsertLock(s: seq<Text>, x: Text) returns (t: seq<Text>)
    requires Ascending(s) && x !in s
    ensures Ascending(t) && forall y :: y in t <==> y == x || y in s
  {
    var k := 0;
    while k < |s| && LexLess(s[k], x)
      invariant 0 <= k <= |s| && forall i :: 0 <= i < k ==> LexLess(s[i], x)
    {
      k := k + 1;
    }
    t := s[..k] + [x] + s[k..];
    forall j | k <= j < |s| ensures LexLess(x, s[j]) {
      LexTotal(x, s[k]);
      assert s[k] in s;
      if j > k { LexTransitive(x, s[k], s[j]); }
    }
    hide LexLess;
    assert s == s[..k] + s[k..];
  }

  // ------------------------------------------------------------------ steps

  datatype Step =
    | Start(pid: nat, paths: set<Text>, plan: seq<Text>)
    | Acquire(pid: nat)
    | Leave(pid: nat)
    | Release(pid: nat)
    | Finish(pid: nat)
    | Crash(pid: nat)

  ghost predicate Holds(e: Executor, lock: Text) {
    exists i :: 0 <= i < e.held && i < |e.plan| && e.plan[i] == lock
  }

  /** The lock an executor takes next. */
  function Next(e: Executor): Text {
    if e.held < |e.plan| then e.plan[e.held] else ""
  }

  ghost predicate Waiting(e: Executor) {
    !e.leaving && e.held < |e.plan|
  }

  ghost predicate Inside(e: Executor) {
    !e.leaving && e.held == |e.plan|
  }

  ghost predicate Free(s: Pool, pid: nat, lock: Text) {
    forall q :: q in s && q != pid ==> !Holds(s[q], lock)
  }

  /**
   What the lock files and the executor's own code allow. A crash, or an error while waiting,
   can come at any time.
   */
  ghost predicate Enabled(fold: Fold, s: Pool, a: Step) {
    match a
    case Start(pid, paths, plan) => pid !in s && PlanFor(fold, paths, plan)
    case Acquire(pid) => pid in s && Waiting(s[pid]) && Free(s, pid, Next(s[pid]))
    case Leave(pid) => pid in s && !s[pid].leaving
    case Release(pid) => pid in s && s[pid].leaving && s[pid].held > 0
    case Finish(pid) => pid in s && s[pid].leaving && s[pid].held == 0
    case Crash(pid) => pid in s
  }

  ghost function Do(s: Pool, a: Step): Pool
    requires !a.Start? ==> a.pid in s
    requires a.Release? ==> s[a.pid].held > 0
  {
    match a
    case Start(pid, paths, plan) => s[pid := Executor(paths, plan, 0, false)]
    case Acquire(pid) => s[pid := s[pid].(held := s[pid].held + 1)]
    case Leave(pid) => s[pid := s[pid].(leaving := true)]
    case Release(pid) => s[pid := s[pid].(held := s[pid].held - 1)]
    case Finish(pid) => s - {pid}
    case Crash(pid) => s - {pid}
  }

  ghost predicate Legal(fold: Fold, steps: seq<Step>)
    decreases |steps|, 0
  {
    steps == [] ||
    (Legal(fold, steps[..|steps| - 1])
     && Enabled(fold, After(fold, steps[..|steps| - 1]), steps[|steps| - 1]))
  }

  ghost function After(fold: Fold, steps: seq<Step>): Pool
    requires Legal(fold, steps)
    decreases |steps|, 1
  {
    if steps == [] then map[] else Do(After(fold, steps[..|steps| - 1]), steps[|steps| - 1])
  }

  // ------------------------------------------------------------------ the invariant

  ghost predicate Sound(fold: Fold, e: Executor) {
    PlanFor(fold, e.paths, e.plan) && e.held <= |e.plan|
  }

  ghost predicate Exclusive(s: Pool) {
    forall p, q, lock :: p in s && q in s && Holds(s[p], lock) && Holds(s[q], lock) ==> p == q
  }

  ghost predicate Inv(fold: Fold, s: Pool) {
    (forall p :: p in s ==> Sound(fold, s[p])) && Exclusive(s)
  }

  lemma HoldsMore(e: Executor, lock: Text)
    requires e.held < |e.plan|
    ensures Holds(e.(held := e.held + 1), lock) <==> Holds(e, lock) || lock == Next(e)
  {
    var f := e.(held := e.held + 1);
    if Holds(e, lock) { var i :| 0 <= i < e.held && i < |e.plan| && e.plan[i] == lock; assert f.plan[i] == lock; }
    if lock == Next(e) { assert f.plan[e.held] == lock; }
  }

  lemma HoldsLess(e: Executor, lock: Text)
    requires e.held > 0
    ensures Holds(e.(held := e.held - 1), lock) ==> Holds(e, lock)
  {
  }

  lemma StepInv(fold: Fold, s: Pool, a: Step)
    requires Inv(fold, s) && Enabled(fold, s, a)
    ensures Inv(fold, Do(s, a))
  {
    var t := Do(s, a);
    forall p, lock | p in t && Holds(t[p], lock)
      ensures p in s && (Holds(s[p], lock) || (a.Acquire? && p == a.pid && lock == Next(s[p])))
    {
      if a.Acquire? && p == a.pid { HoldsMore(s[p], lock); }
      if a.Release? && p == a.pid { HoldsLess(s[p], lock); }
    }
  }

  lemma {:induction false} RunInv(fold: Fold, steps: seq<Step>)
    requires Legal(fold, steps)
    ensures Inv(fold, After(fold, steps))
  {
    if steps != [] {
      RunInv(fold, steps[..|steps| - 1]);
      StepInv(fold, After(fold, steps[..|steps| - 1]), steps[|steps| - 1]);
    }
  }

  // ------------------------------------------------------------------ the two results

  /** Two executors that share a path, up to case, are never both inside. */
  lemma MutualExclusion(fold: Fold, steps: seq<Step>, p: nat, q: nat, a: Text, b: Text)
    requires Legal(fold, steps)
    requires var s := After(fold, steps); p in s && q in s && p != q && Inside(s[p]) && Inside(s[q])
    requires a in After(fold, steps)[p].paths && b in After(fold, steps)[q].paths
    ensures fold(a) != fold(b)
  {
    var s := After(fold, steps);
    RunInv(fold, steps);
    assert fold(a) in Folded(fold, s[p].paths) && fold(b) in Folded(fold, s[q].paths);
    assert fold(a) in s[p].plan && fold(b) in s[q].plan;
    InsideHolds(s[p], fold(a));
    InsideHolds(s[q], fold(b));
  }

  lemma InsideHolds(e: Executor, lock: Text)
    requires Inside(e) && lock in e.plan
    ensures Holds(e, lock)
  {
    var i :| 0 <= i < |e.plan| && e.plan[i] == lock;
  }

  /** `p` waits for a lock that `q` holds. */
  ghost predicate BlockedBy(s: Pool, p: nat, q: nat) {
    p in s && q in s && p != q && Waiting(s[p]) && Holds(s[q], Next(s[p]))
  }

  /** Whoever holds up another and waits as well waits for a later lock. */
  lemma BlockerWaitsLater(fold: Fold, s: Pool, p: nat, q: nat)
    requires Inv(fold, s) && BlockedBy(s, p, q) && Waiting(s[q])
    ensures LexLess(Next(s[p]), Next(s[q]))
  {
    var lock := Next(s[p]);
    var i :| 0 <= i < s[q].held && i < |s[q].plan| && s[q].plan[i] == lock;
    assert Sound(fold, s[q]);
  }

  /** Among finitely many waiting executors one waits for the last lock of all. */
  lemma {:induction false} LastWaiter(s: Pool, w: set<nat>) returns (p: nat)
    requires w != {} && forall q :: q in w ==> q in s && Waiting(s[q])
    ensures p in w && forall q :: q in w ==> !LexLess(Next(s[p]), Next(s[q]))
    decreases |w|
  {
    p :| p in w;
    if w == {p} {
      LexIrreflexive(Next(s[p]));
    } else {
      var r := LastWaiter(s, w - {p});
      var mine, theirs := Next(s[p]), Next(s[r]);
      if LexLess(mine, theirs) {
        LexNotBoth(mine, theirs);
        p := r;
      } else {
        LexIrreflexive(mine);
        forall q | q in w && q != p ensures !LexLess(mine, Next(s[q])) {
          NotBefore(mine, theirs, Next(s[q]));
        }
      }
    }
  }

  lemma LexNotBoth(a: Text, b: Text)
    ensures LexLess(a, b) ==> !LexLess(b, a)
  {
    LexIrreflexive(a);
    if LexLess(a, b) && LexLess(b, a) { LexTransitive(a, b, a); }
  }

  lemma NotBefore(a: Text, b: Text, c: Text)
    requires !LexLess(a, b) && !LexLess(b, c)
    ensures !LexLess(a, c)
  {
    LexTotal(a, b);
    if LexLess(a, c) && LexLess(b, a) { LexTransitive(b, a, c); }
  }

  /** In no reachable state is there a group of executors each waiting for another of the group. */
  lemma NoDeadlock(fold: Fold, steps: seq<Step>, w: set<nat>)
    requires Legal(fold, steps) && w != {}
    ensures exists p :: p in w && forall q :: q in w ==> !BlockedBy(After(fold, steps), p, q)
  {
    var s := After(fold, steps);
    RunInv(fold, steps);
    if p :| p in w && !(p in s && Waiting(s[p])) {
      assert forall q :: q in w ==> !BlockedBy(s, p, q);
    } else {
      var p := LastWaiter(s, w);
      forall q | q in w ensures !BlockedBy(s, p, q) {
        if BlockedBy(s, p, q) { BlockerWaitsLater(fold, s, p, q); }
      }
    }
  }

  /** So as long as anyone waits, someone can take a lock, or someone is past waiting. */
  lemma SomeoneProceeds(fold: Fold, steps: seq<Step>)
    requires Legal(fold, steps) && After(fold, steps) != map[]
    ensures exists p :: p in After(fold, steps) &&
              (!Waiting(After(fold, steps)[p]) || Enabled(fold, After(fold, steps), Acquire(p)))
  {
    var s := After(fold, steps);
    assert s.Keys == {} ==> s == map[];
    NoDeadlock(fold, steps, s.Keys);
    var p :| p in s.Keys && forall q :: q in s.Keys ==> !BlockedBy(s, p, q);
    if Waiting(s[p]) {
      forall q | q in s && q != p ensures !Holds(s[q], Next(s[p])) { assert !BlockedBy(s, p, q); }
      assert Enabled(fold, s, Acquire(p));
    }
  }
}
