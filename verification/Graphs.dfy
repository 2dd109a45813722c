/** The containment check of the project map: a counting sort that visits parents before children. */
module Graphs {
  import opened Prelude

  // ------------------------------------------------------------------ walks

  type Links = map<Text, seq<Text>>

  predicate Link(kids: Links, a: Text, b: Text) {
    a in kids && b in kids[a]
  }

  ghost predicate Walk(kids: Links, p: seq<Text>) {
    p != [] && forall i :: 0 <= i < |p| - 1 ==> Link(kids, p[i], p[i + 1])
  }

  /** A walk of at least one step that comes back to where it began. */
  ghost predicate Cycle(kids: Links, p: seq<Text>) {
    |p| >= 2 && Walk(kids, p) && p[0] == p[|p| - 1]
  }

  ghost predicate Acyclic(kids: Links) {
    forall p :: !Cycle(kids, p)
  }

  ghost predicate Closed(kids: Links) {
    forall a, b :: Link(kids, a, b) ==> b in kids
  }

  // ------------------------------------------------------------------ containment

  /** The parents of a node that are still to be visited. */
  function Left(kids: Links, n: Text, done: set<Text>): set<Text> {
    set p | p in kids && n in kids[p] && p !in done
  }

  /** Every node comes after all its parents. */
  ghost predicate Topological(kids: Links, order: seq<Text>) {
    forall i, p :: 0 <= i < |order| && Link(kids, p, order[i]) ==> p in order[..i]
  }

  lemma {:induction false} WalkBackwards(kids: Links, order: seq<Text>, p: seq<Text>, i: nat)
    requires Topological(kids, order) && Walk(kids, p) && i < |order| && order[i] == p[|p| - 1]
    ensures p[0] in order[..i + 1]
    ensures |p| >= 2 ==> p[0] in order[..i]
    decreases |p|
  {
    if |p| >= 2 {
      var q := p[..|p| - 1];
      assert Link(kids, p[|p| - 2], p[|p| - 1]);
      assert q[|q| - 1] in order[..i];
      var j :| 0 <= j < i && order[j] == q[|q| - 1];
      WalkBackwards(kids, order, q, j);
      assert order[..j + 1] <= order[..i];
    }
  }

  ghost predicate NoRepeats(s: seq<Text>) {
    forall i, j :: 0 <= i < j < |s| ==> s[i] != s[j]
  }

  lemma OrderedIsAcyclic(kids: Links, order: seq<Text>)
    requires Topological(kids, order) && NoRepeats(order) && Closed(kids) && forall n :: n in kids ==> n in order
    ensures Acyclic(kids)
  {
    forall p | |p| >= 2 && Walk(kids, p) ensures p[0] != p[|p| - 1] {
      assert Link(kids, p[|p| - 2], p[|p| - 1]);
      var i :| 0 <= i < |order| && order[i] == p[|p| - 1];
      WalkBackwards(kids, order, p, i);
    }
  }

  ghost predicate ParentIn(kids: Links, s: set<Text>, x: Text) {
    exists y :: y in s && Link(kids, y, x)
  }

  /** In a set where everyone has a parent in the set, walks of any length lead backwards. */
  lemma {:induction false} LongWalk(kids: Links, s: set<Text>, n: nat) returns (p: seq<Text>)
    requires s != {} && forall x :: x in s ==> ParentIn(kids, s, x)
    ensures |p| == n + 1 && Walk(kids, p) && forall i :: 0 <= i <= n ==> p[i] in s
  {
    if n == 0 {
      var x :| x in s;
      p := [x];
    } else {
      var q := LongWalk(kids, s, n - 1);
      assert ParentIn(kids, s, q[0]);
      var y :| y in s && Link(kids, y, q[0]);
      p := [y] + q;
    }
  }

  lemma {:induction false} Pigeonhole(p: seq<Text>, s: set<Text>)
    requires forall i :: 0 <= i < |p| ==> p[i] in s
    ensures NoRepeats(p) ==> |p| <= |s|
  {
    if p != [] {
      var last, init := p[|p| - 1], p[..|p| - 1];
      if NoRepeats(p) {
        assert forall i :: 0 <= i < |init| ==> init[i] == p[i] && init[i] in s - {last};
        Pigeonhole(init, s - {last});
      }
    }
  }

  lemma PartOfWalk(kids: Links, p: seq<Text>, lo: nat, hi: nat)
    requires Walk(kids, p) && lo < hi <= |p|
    ensures Walk(kids, p[lo..hi])
  {
    var q := p[lo..hi];
    forall i | 0 <= i < |q| - 1 ensures Link(kids, q[i], q[i + 1]) {
      assert q[i] == p[lo + i] && q[i + 1] == p[lo + i + 1];
    }
  }

  lemma ParentedHasCycle(kids: Links, s: set<Text>) returns (c: seq<Text>)
    requires s != {} && forall x :: x in s ==> ParentIn(kids, s, x)
    ensures Cycle(kids, c)
  {
    var p := LongWalk(kids, s, |s|);
    Pigeonhole(p, s);
    assert !NoRepeats(p);
    c := Loop(kids, p);
  }

  lemma Loop(kids: Links, p: seq<Text>) returns (c: seq<Text>)
    requires Walk(kids, p) && !NoRepeats(p)
    ensures Cycle(kids, c)
  {
    var i, j :| 0 <= i < j < |p| && p[i] == p[j];
    c := p[i..j + 1];
    PartOfWalk(kids, p, i, j + 1);
  }

  ghost predicate Counted(kids: Links, pending: map<Text, int>, done: set<Text>, todo: set<Text>) {
    pending.Keys == kids.Keys &&
    forall n :: n in kids ==> pending[n] == |Left(kids, n, done)| + if n in todo then 1 else 0
  }

  ghost predicate ReadyFor(kids: Links, pending: map<Text, int>, ready: seq<Text>, done: set<Text>) {
    NoRepeats(ready) &&
    forall n :: n in ready <==> n in kids && n in pending && n !in done && pending[n] == 0
  }

  lemma CountStep(kids: Links, pending: map<Text, int>, done: set<Text>, node: Text)
    requires Closed(kids) && Counted(kids, pending, done, {}) && node in kids && node !in done
    ensures Counted(kids, pending, done + {node}, Children(kids, node))
  {
    forall n | n in kids
      ensures |Left(kids, n, done)| == |Left(kids, n, done + {node})| + if n in kids[node] then 1 else 0
    {
      var before, after := Left(kids, n, done), Left(kids, n, done + {node});
      if n in kids[node] { assert before == after + {node}; } else { assert before == after; }
    }
  }

  method VisitChildren(kids: Links, before: map<Text, int>, waiting: seq<Text>, node: Text, ghost done: set<Text>)
    returns (pending: map<Text, int>, ready: seq<Text>)
    requires Closed(kids) && node in kids && forall c :: c in kids[node] ==> c !in done
    requires Counted(kids, before, done, Children(kids, node)) && ReadyFor(kids, before, waiting, done)
    ensures Counted(kids, pending, done, {}) && ReadyFor(kids, pending, ready, done)
  {
    pending, ready := before, waiting;
    var todo := Children(kids, node);
    while todo != {}
      invariant todo <= Children(kids, node)
      invariant Counted(kids, pending, done, todo) && ReadyFor(kids, pending, ready, done)
    {
      var child :| child in todo;
      assert Link(kids, node, child);
      Decremented(kids, pending, ready, done, todo, child);
      todo := todo - {child};
      pending := pending[child := pending[child] - 1];
      if pending[child] == 0 {
        ready := ready + [child];
      }
    }
  }

  function Children(kids: Links, node: Text): set<Text>
    requires node in kids
  {
    set c | c in kids[node]
  }

  lemma Decremented(kids: Links, pending: map<Text, int>, ready: seq<Text>, done: set<Text>, todo: set<Text>,
                   child: Text)
    requires Counted(kids, pending, done, todo) && ReadyFor(kids, pending, ready, done)
    requires child in todo && child in kids && child !in done
    ensures var less := pending[child := pending[child] - 1];
            && Counted(kids, less, done, todo - {child})
            && ReadyFor(kids, less, if less[child] == 0 then ready + [child] else ready, done)
  {
    var less := pending[child := pending[child] - 1];
    assert pending[child] >= 1 && child !in ready;
    var more := if less[child] == 0 then ready + [child] else ready;
    forall n ensures n in more <==> n in kids && n in less && n !in done && less[n] == 0 {
      assert n in more <==> n in ready || (less[child] == 0 && n == child);
    }
  }

  // ------------------------------------------------------------------ the containment check

  datatype Edge = Edge(id: Text, source: Text, target: Text, contains: bool, cards: seq<Text>, refs: seq<Text>)

  ghost predicate Contains(edges: seq<Edge>, a: Text, b: Text) {
    exists i :: 0 <= i < |edges| && edges[i].contains && edges[i].source == a && edges[i].target == b
  }

  /** Some node contains itself, through one step or many. */
  ghost predicate ContainsItself(edges: seq<Edge>, p: seq<Text>) {
    |p| >= 2 && p[0] == p[|p| - 1] && forall i :: 0 <= i < |p| - 1 ==> Contains(edges, p[i], p[i + 1])
  }

  ghost predicate EndpointsIn(nodes: set<Text>, edges: seq<Edge>) {
    forall i :: 0 <= i < |edges| ==> edges[i].source in nodes && edges[i].target in nodes
  }

  method BuildChildren(nodes: set<Text>, edges: seq<Edge>) returns (kids: Links)
    requires EndpointsIn(nodes, edges)
    ensures kids.Keys == nodes && forall a, b :: Link(kids, a, b) <==> Contains(edges, a, b)
  {
    kids := map n | n in nodes :: [];
    var k := 0;
    while k < |edges|
      invariant 0 <= k <= |edges| && kids.Keys == nodes
      invariant forall a, b :: Link(kids, a, b) <==> Contains(edges[..k], a, b)
    {
      var e := edges[k];
      ContainsMore(edges, k);
      if e.contains {
        ghost var was := kids;
        kids := kids[e.source := kids[e.source] + [e.target]];
        forall a, b ensures Link(kids, a, b) <==> Link(was, a, b) || (a == e.source && b == e.target) {}
      }
      k := k + 1;
    }
    assert edges[..k] == edges;
  }

  lemma ContainsMore(edges: seq<Edge>, k: nat)
    requires k < |edges|
    ensures forall a, b :: Contains(edges[..k + 1], a, b) <==>
                           Contains(edges[..k], a, b)
                             || (edges[k].contains && edges[k].source == a && edges[k].target == b)
  {
    var less, more := edges[..k], edges[..k + 1];
    forall a, b
      ensures Contains(more, a, b) <==>
              Contains(less, a, b) || (edges[k].contains && edges[k].source == a && edges[k].target == b)
    {
      if Contains(less, a, b) {
        var i :| 0 <= i < k && less[i].contains && less[i].source == a && less[i].target == b;
        assert more[i] == less[i];
      }
      if Contains(more, a, b) {
        var i :| 0 <= i <= k && more[i].contains && more[i].source == a && more[i].target == b;
        if i < k { assert less[i] == more[i]; }
      }
      assert more[k] == edges[k];
    }
  }

  method FirstReady(kids: Links, pending: map<Text, int>) returns (ready: seq<Text>)
    requires Counted(kids, pending, {}, {})
    ensures ReadyFor(kids, pending, ready, {})
  {
    ready := [];
    var rest := pending.Keys;
    while rest != {}
      invariant rest <= pending.Keys && NoRepeats(ready)
      invariant forall n :: n in ready <==> n in pending && n !in rest && pending[n] == 0
    {
      var n :| n in rest;
      rest := rest - {n};
      if pending[n] == 0 {
        ready := ready + [n];
      }
    }
  }

  /** What was visited so far: each node once, after all its parents. */
  ghost predicate Visited(kids: Links, order: seq<Text>, done: set<Text>) {
    && NoRepeats(order) && Topological(kids, order) && (forall n :: n in order <==> n in done)
    && done <= kids.Keys && |order| == |done|
  }

  lemma DoneHasParents(kids: Links, order: seq<Text>, done: set<Text>)
    requires Visited(kids, order, done)
    ensures forall p, c :: Link(kids, p, c) && c in done ==> p in done
  {
    forall p, c | Link(kids, p, c) && c in done ensures p in done {
      var i :| 0 <= i < |order| && order[i] == c;
      assert p in order[..i];
      assert p in order;
    }
  }

  lemma VisitOne(kids: Links, pending: map<Text, int>, ready: seq<Text>, order: seq<Text>, done: set<Text>, node: Text)
    requires Closed(kids) && Visited(kids, order, done) && Counted(kids, pending, done, {})
    requires ReadyFor(kids, pending, ready, done) && node in ready
    ensures node in kids && node !in done && forall c :: c in kids[node] ==> c !in done + {node}
    ensures Visited(kids, order + [node], done + {node})
  {
    assert Left(kids, node, done) == {};
    DoneHasParents(kids, order, done);
    forall c | c in kids[node] ensures c !in done + {node} {
      assert Link(kids, node, c);
      assert c == node ==> node in Left(kids, node, done);
    }
    var more := order + [node];
    forall i, p | 0 <= i < |more| && Link(kids, p, more[i]) ensures p in more[..i] {
      if i < |order| {
        assert p in order[..i] && more[..i] == order[..i];
      } else {
        assert p !in Left(kids, node, done);
        assert more[..i] == order;
      }
    }
  }

  /** A visit that stops early leaves nodes that all have a parent among them. */
  lemma StuckHasCycle(kids: Links, pending: map<Text, int>, done: set<Text>)
    requires Counted(kids, pending, done, {}) && ReadyFor(kids, pending, [], done) && done <= kids.Keys
    ensures Acyclic(kids) ==> done == kids.Keys
  {
    var rest := kids.Keys - done;
    if rest != {} {
      forall n | n in rest ensures ParentIn(kids, rest, n) {
        assert n !in [] && |Left(kids, n, done)| != 0;
        var p :| p in Left(kids, n, done);
        assert p in rest && Link(kids, p, n);
      }
      var c := ParentedHasCycle(kids, rest);
    }
  }

  lemma VisitEnds(kids: Links, pending: map<Text, int>, order: seq<Text>, done: set<Text>)
    requires Closed(kids) && Visited(kids, order, done)
    requires Counted(kids, pending, done, {}) && ReadyFor(kids, pending, [], done)
    ensures |done| == |kids| <==> Acyclic(kids)
  {
    StuckHasCycle(kids, pending, done);
    assert |kids| == |kids.Keys|;
    if done == kids.Keys { OrderedIsAcyclic(kids, order); } else { SmallerSet(done, kids.Keys); }
  }

  method VisitNext(kids: Links, pending: map<Text, int>, ready: seq<Text>, ghost order: seq<Text>,
                   ghost done: set<Text>)
    returns (node: Text, pending': map<Text, int>, ready': seq<Text>)
    requires Closed(kids) && Visited(kids, order, done) && ready != []
    requires Counted(kids, pending, done, {}) && ReadyFor(kids, pending, ready, done)
    ensures node in kids && node !in done && Visited(kids, order + [node], done + {node})
    ensures Counted(kids, pending', done + {node}, {}) && ReadyFor(kids, pending', ready', done + {node})
  {
    node := ready[|ready| - 1];
    VisitOne(kids, pending, ready, order, done, node);
    CountStep(kids, pending, done, node);
    PopReady(kids, pending, ready, done);
    pending', ready' := VisitChildren(kids, pending, ready[..|ready| - 1], node, done + {node});
  }

  method VisitAll(kids: Links) returns (visited: nat)
    requires Closed(kids)
    ensures visited == |kids| <==> Acyclic(kids)
  {
    var pending := map n | n in kids :: |Left(kids, n, {})|;
    var ready := FirstReady(kids, pending);
    visited := 0;
    ghost var done, order := {}, [];
    while ready != []
      invariant Visited(kids, order, done) && visited == |done|
      invariant Counted(kids, pending, done, {}) && ReadyFor(kids, pending, ready, done)
      decreases kids.Keys - done
    {
      ghost var node;
      node, pending, ready := VisitNext(kids, pending, ready, order, done);
      visited := visited + 1;
      order, done := order + [node], done + {node};
    }
    VisitEnds(kids, pending, order, done);
  }

  lemma SmallerSet(a: set<Text>, b: set<Text>)
    requires a < b
    ensures |a| < |b|
  {
    assert b == a + (b - a);
  }

  lemma PopReady(kids: Links, pending: map<Text, int>, ready: seq<Text>, done: set<Text>)
    requires ReadyFor(kids, pending, ready, done) && ready != []
    ensures ReadyFor(kids, pending, ready[..|ready| - 1], done + {ready[|ready| - 1]})
  {
    var node, rest := ready[|ready| - 1], ready[..|ready| - 1];
    forall n ensures n in rest <==> n in ready && n != node {
      if n in ready && n != node { var i :| 0 <= i < |ready| && ready[i] == n; assert rest[i] == n; }
    }
  }

  /** The check accepts exactly the maps in which nothing contains itself. */
  method ValidateContainment(nodes: set<Text>, edges: seq<Edge>) returns (ok: bool)
    requires EndpointsIn(nodes, edges)
    ensures ok <==> forall p :: !ContainsItself(edges, p)
  {
    var kids := BuildChildren(nodes, edges);
    CyclesAgree(kids, edges);
    var visited := VisitAll(kids);
    ok := visited == |kids|;
  }

  lemma CyclesAgree(kids: Links, edges: seq<Edge>)
    requires forall a, b :: Link(kids, a, b) <==> Contains(edges, a, b)
    ensures Acyclic(kids) <==> forall p :: !ContainsItself(edges, p)
  {
    forall p ensures Cycle(kids, p) <==> ContainsItself(edges, p) {}
  }
}
