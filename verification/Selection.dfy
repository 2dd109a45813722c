/** What a selected object of a project map brings with it. */
module Selection {
  import opened Prelude
  import opened Graphs

  // ------------------------------------------------------------------ ancestors

  /** A walk down the containment edges that ends in the set. */
  ghost predicate LeadsInto(edges: seq<Edge>, p: seq<Text>, s: set<Text>) {
    p != [] && p[|p| - 1] in s && forall i :: 0 <= i < |p| - 1 ==> Contains(edges, p[i], p[i + 1])
  }

  ghost predicate Reaches(edges: seq<Edge>, a: Text, s: set<Text>) {
    exists p :: LeadsInto(edges, p, s) && p[0] == a
  }

  lemma ReachesMember(edges: seq<Edge>, a: Text, s: set<Text>)
    requires a in s
    ensures Reaches(edges, a, s)
  {
    assert LeadsInto(edges, [a], s);
  }

  lemma ReachesStep(edges: seq<Edge>, a: Text, b: Text, s: set<Text>)
    requires Contains(edges, a, b) && Reaches(edges, b, s)
    ensures Reaches(edges, a, s)
  {
    var p :| LeadsInto(edges, p, s) && p[0] == b;
    var q := [a] + p;
    forall i | 0 <= i < |q| - 1 ensures Contains(edges, q[i], q[i + 1]) {
      if i > 0 { assert q[i] == p[i - 1] && q[i + 1] == p[i]; }
    }
    assert LeadsInto(edges, q, s) && q[0] == a;
  }

  lemma {:induction false} ClosedCatches(edges: seq<Edge>, p: seq<Text>, s: set<Text>, all: set<Text>)
    requires LeadsInto(edges, p, s) && s <= all
    requires forall a, b :: Contains(edges, a, b) && b in all ==> a in all
    ensures p[0] in all
    decreases |p|
  {
    if |p| > 1 {
      var q := p[1..];
      forall i | 0 <= i < |q| - 1 ensures Contains(edges, q[i], q[i + 1]) {
        assert q[i] == p[i + 1] && q[i + 1] == p[i + 2];
      }
      ClosedCatches(edges, q, s, all);
      assert Contains(edges, p[0], p[1]);
    }
  }

  function Parents(edges: seq<Edge>, of: set<Text>): set<Text> {
    set i | 0 <= i < |edges| && edges[i].contains && edges[i].target in of :: edges[i].source
  }

  function Sources(edges: seq<Edge>): set<Text> {
    set i | 0 <= i < |edges| :: edges[i].source
  }

  /** The loop ends with exactly the nodes that reach one of the given nodes. */
  method Ancestors(edges: seq<Edge>, path: set<Text>) returns (found: set<Text>)
    ensures forall a :: a in found <==> Reaches(edges, a, path)
  {
    found := path;
    forall a | a in path ensures Reaches(edges, a, path) { ReachesMember(edges, a, path); }
    while true
      invariant path <= found <= path + Sources(edges)
      invariant forall a :: a in found ==> Reaches(edges, a, path)
      decreases path + Sources(edges) - found
    {
      var parents := Parents(edges, found);
      if parents <= found {
        NothingNew(edges, path, found);
        return;
      }
      forall a | a in parents ensures Reaches(edges, a, path) {
        var i :| 0 <= i < |edges| && edges[i].contains && edges[i].target in found && edges[i].source == a;
        ReachesStep(edges, a, edges[i].target, path);
      }
      found := found + parents;
    }
  }

  lemma NothingNew(edges: seq<Edge>, path: set<Text>, found: set<Text>)
    requires path <= found && Parents(edges, found) <= found
    ensures forall a :: Reaches(edges, a, path) ==> a in found
  {
    forall a, b | Contains(edges, a, b) && b in found ensures a in found {
      var i :| 0 <= i < |edges| && edges[i].contains && edges[i].source == a && edges[i].target == b;
      assert edges[i].source in Parents(edges, found);
    }
    forall a | Reaches(edges, a, path) ensures a in found {
      var p :| LeadsInto(edges, p, path) && p[0] == a;
      ClosedCatches(edges, p, path, found);
    }
  }

  // ------------------------------------------------------------------ selections

  // The evidence an object cites, in its own list or in its claims, is its `refs`.
  datatype Node = Node(id: Text, cards: seq<Text>, refs: seq<Text>)

  datatype Journey = Journey(id: Text, entry: Text, edgeIds: seq<Text>, cards: seq<Text>, refs: seq<Text>)

  datatype Advice = Advice(id: Text, refs: seq<Text>)

  datatype Source = Source(name: Text, refs: seq<Text>)

  datatype ProjectMap = ProjectMap(key: Text, nodes: seq<Node>, edges: seq<Edge>, journeys: seq<Journey>,
                                   advice: seq<Advice>, sources: seq<Source>)

  datatype Kind = ProjectKind | NodeKind | EdgeKind | JourneyKind | AdviceKind | OtherKind

  datatype Refusal = UnknownProject | UnknownKind | UnknownObject | ConflictingJourney | UnknownJourney | Unrelated

  datatype Resolution = Resolution(journey: Option<Journey>, journeys: seq<Journey>, nodes: seq<Node>,
                                   edges: seq<Edge>, sources: seq<Source>)

  function Filter<T(!new)>(s: seq<T>, keep: T -> bool): (kept: seq<T>)
    ensures forall x :: x in kept <==> x in s && keep(x)
  {
    if s == [] then [] else if keep(s[0]) then [s[0]] + Filter(s[1..], keep) else Filter(s[1..], keep)
  }

  ghost predicate FirstAt(journeys: seq<Journey>, id: Text, i: int)
    requires 0 <= i < |journeys|
  {
    journeys[i].id == id && forall k :: 0 <= k < i ==> journeys[k].id != id
  }

  function FirstJourney(journeys: seq<Journey>, id: Text): (j: Option<Journey>)
    ensures j.Some? <==> exists i :: 0 <= i < |journeys| && journeys[i].id == id
    ensures j.Some? ==> exists i :: 0 <= i < |journeys| && FirstAt(journeys, id, i) && j.value == journeys[i]
  {
    assert journeys != [] && journeys[0].id == id ==> FirstAt(journeys, id, 0);
    assert forall i :: 0 <= i < |journeys| - 1 && journeys[0].id != id && FirstAt(journeys[1..], id, i) ==>
      journeys[1..][i] == journeys[i + 1] && FirstAt(journeys, id, i + 1);
    if journeys == [] then None
    else if journeys[0].id == id then Some(journeys[0])
    else FirstJourney(journeys[1..], id)
  }

  /** There is an object of that kind and id. */
  ghost predicate Known(m: ProjectMap, kind: Kind, id: Text) {
    match kind
    case ProjectKind => id == m.key
    case NodeKind => exists n :: n in m.nodes && n.id == id
    case EdgeKind => exists e :: e in m.edges && e.id == id
    case JourneyKind => exists j :: j in m.journeys && j.id == id
    case AdviceKind => exists a :: a in m.advice && a.id == id
    case OtherKind => false
  }

  /** The nodes on a journey: where it enters, and where each of its edges leads. */
  function JourneyNodes(m: ProjectMap, j: Journey): set<Text> {
    {j.entry} + set e | e in m.edges && e.id in j.edgeIds :: e.target
  }

  // ------------------------------------------------------------------ journeys of a validated map

  /** The edges of a validated map join nodes of it. */
  ghost predicate KnownEndpoints(m: ProjectMap) {
    forall e :: e in m.edges ==>
      (exists n :: n in m.nodes && n.id == e.source) && (exists n :: n in m.nodes && n.id == e.target)
  }

  ghost predicate UniqueEdges(m: ProjectMap) {
    forall e: Edge, e': Edge :: e in m.edges && e' in m.edges && e.id == e'.id ==> e == e'
  }

  /** A walk over edges of the map, each beginning where the one before ends. */
  ghost predicate Walk(m: ProjectMap, from: Text, ids: seq<Text>, path: seq<Edge>) {
    && |path| == |ids| && (forall k :: 0 <= k < |path| ==> path[k] in m.edges && path[k].id == ids[k])
    && (path != [] ==> path[0].source == from)
    && forall k :: 0 < k < |path| ==> path[k].source == path[k - 1].target
  }

  ghost predicate Connected(m: ProjectMap, j: Journey) {
    && (exists n: Node :: n in m.nodes && n.id == j.entry) && j.edgeIds != []
    && exists path: seq<Edge> :: Walk(m, j.entry, j.edgeIds, path)
  }

  ghost predicate ValidMap(m: ProjectMap) {
    KnownEndpoints(m) && UniqueEdges(m) && forall j :: j in m.journeys ==> Connected(m, j)
  }

  function EdgeById(edges: seq<Edge>, id: Text): (e: Option<Edge>)
    ensures e.Some? ==> e.value in edges && e.value.id == id
    ensures e.None? ==> forall x :: x in edges ==> x.id != id
  {
    if edges == [] then None else if edges[0].id == id then Some(edges[0]) else EdgeById(edges[1..], id)
  }

  /** Where a walk goes on is settled by what it walked so far and by the next id. */
  lemma WalkNext(m: ProjectMap, from: Text, ids: seq<Text>, k: nat, part: seq<Edge>, path: seq<Edge>)
    requires UniqueEdges(m) && k < |ids| && Walk(m, from, ids[..k], part)
    ensures Walk(m, from, ids, path) ==>
              var cursor := if k == 0 then from else part[k - 1].target;
              exists e: Edge :: e in m.edges && e.id == ids[k] && e.source == cursor
  {
    if Walk(m, from, ids, path) {
      if k > 0 {
        assert ids[..k][k - 1] == ids[k - 1] && path[k - 1].id == part[k - 1].id;
        assert path[k - 1] == part[k - 1];
      }
      assert path[k] in m.edges && path[k].id == ids[k];
    }
  }

  /** The loop over a journey's edges: each must exist and begin where the cursor stands. */
  method FollowJourney(m: ProjectMap, j: Journey) returns (ok: bool)
    requires UniqueEdges(m)
    ensures ok <==> Connected(m, j)
  {
    if j.edgeIds == [] || !exists n: Node :: n in m.nodes && n.id == j.entry { return false; }
    var cursor := j.entry;
    ghost var path: seq<Edge> := [];
    var k := 0;
    while k < |j.edgeIds|
      invariant 0 <= k <= |j.edgeIds| && Walk(m, j.entry, j.edgeIds[..k], path)
      invariant cursor == if k == 0 then j.entry else path[k - 1].target
    {
      var e := EdgeById(m.edges, j.edgeIds[k]);
      if e.None? || e.value.source != cursor {
        forall whole: seq<Edge> ensures !Walk(m, j.entry, j.edgeIds, whole) {
          WalkNext(m, j.entry, j.edgeIds, k, path, whole);
        }
        return false;
      }
      path := path + [e.value];
      cursor := e.value.target;
      k := k + 1;
    }
    assert j.edgeIds[..k] == j.edgeIds;
    ok := true;
  }

  lemma SourceOnJourney(m: ProjectMap, j: Journey, path: seq<Edge>, k: nat)
    requires Walk(m, j.entry, j.edgeIds, path) && k < |path|
    ensures path[k].source in JourneyNodes(m, j)
  {
    if k > 0 {
      assert path[k - 1] in m.edges && path[k - 1].id == j.edgeIds[k - 1];
      assert path[k - 1].target in JourneyNodes(m, j);
    }
  }

  lemma JourneySources(m: ProjectMap, j: Journey, e: Edge)
    requires UniqueEdges(m) && Connected(m, j) && e in m.edges && e.id in j.edgeIds
    ensures e.source in JourneyNodes(m, j)
  {
    var path: seq<Edge> :| Walk(m, j.entry, j.edgeIds, path);
    var k :| 0 <= k < |j.edgeIds| && j.edgeIds[k] == e.id;
    assert path[k] in m.edges && path[k].id == e.id;
    SourceOnJourney(m, j, path, k);
  }

  predicate OnEdge(m: ProjectMap, j: Journey, n: Text) {
    exists e: Edge :: e in m.edges && e.id in j.edgeIds && n in {e.source, e.target}
  }

  lemma EntryIsSource(m: ProjectMap, j: Journey)
    requires Connected(m, j)
    ensures OnEdge(m, j, j.entry)
  {
    var path: seq<Edge> :| Walk(m, j.entry, j.edgeIds, path);
    assert path[0] in m.edges && path[0].id == j.edgeIds[0] && path[0].source == j.entry;
  }

  /**
   In a validated map the nodes on a journey, taken as its entry and the targets of its edges,
   are all endpoints of its edges and nothing else: no source is left out.
   */
  lemma JourneyNodesAreEndpoints(m: ProjectMap, j: Journey)
    requires ValidMap(m) && j in m.journeys
    ensures forall n :: n in JourneyNodes(m, j) <==> OnEdge(m, j, n)
    ensures forall n :: n in JourneyNodes(m, j) ==> exists x :: x in m.nodes && x.id == n
  {
    EntryIsSource(m, j);
    assert Connected(m, j);
    forall n | OnEdge(m, j, n) ensures n in JourneyNodes(m, j) {
      var e: Edge :| e in m.edges && e.id in j.edgeIds && n in {e.source, e.target};
      JourneySources(m, j, e);
    }
    forall n | n in JourneyNodes(m, j) && n != j.entry ensures OnEdge(m, j, n) {
      var e: Edge :| e in m.edges && e.id in j.edgeIds && e.target == n;
    }
    forall n | OnEdge(m, j, n) ensures exists x :: x in m.nodes && x.id == n {
      var e: Edge :| e in m.edges && e.id in j.edgeIds && n in {e.source, e.target};
    }
  }

  /** The selected object belongs to the selected journey. */
  ghost predicate Related(m: ProjectMap, kind: Kind, id: Text, j: Journey) {
    match kind
    case NodeKind => Reaches(m.edges, id, JourneyNodes(m, j))
    case EdgeKind => id in j.edgeIds
    case AdviceKind =>
      || id in j.cards
      || (exists e: Edge :: e in m.edges && e.id in j.edgeIds && id in e.cards)
      || (exists n :: n in m.nodes && Reaches(m.edges, n.id, JourneyNodes(m, j)) && id in n.cards)
    case _ => true
  }

  /** The refs of the first advice of that id. */
  ghost predicate FirstAdvice(advice: seq<Advice>, id: Text, i: int)
    requires 0 <= i < |advice|
  {
    advice[i].id == id && forall k :: 0 <= k < i ==> advice[k].id != id
  }

  function AdviceRefs(advice: seq<Advice>, id: Text): (refs: seq<Text>)
    ensures forall ref :: ref in refs <==>
              exists i :: 0 <= i < |advice| && FirstAdvice(advice, id, i) && ref in advice[i].refs
  {
    assert advice != [] && advice[0].id == id ==>
      FirstAdvice(advice, id, 0) && forall i :: 0 < i < |advice| ==> !FirstAdvice(advice, id, i);
    assert advice != [] && advice[0].id != id ==>
      forall i :: 0 <= i < |advice| - 1 ==>
        advice[1..][i] == advice[i + 1] && (FirstAdvice(advice[1..], id, i) <==> FirstAdvice(advice, id, i + 1));
    if advice == [] then [] else if advice[0].id == id then advice[0].refs else AdviceRefs(advice[1..], id)
  }

  /** What the selected object and everything returned with it cite. */
  ghost predicate Cited(m: ProjectMap, kind: Kind, id: Text, r: Resolution, ref: Text) {
    || (exists n :: n in r.nodes && ref in n.refs)
    || (exists e :: e in r.edges && ref in e.refs)
    || (exists j :: j in r.journeys && ref in j.refs)
    || (kind == AdviceKind
        && exists i :: 0 <= i < |m.advice| && FirstAdvice(m.advice, id, i) && ref in m.advice[i].refs)
  }

  /** The sources of the map cut down to what is cited; a source left with nothing goes. */
  function CitedSources(sources: seq<Source>, cited: set<Text>): seq<Source> {
    if sources == [] then []
    else
      var refs := Filter(sources[0].refs, (ref: Text) => ref in cited);
      (if refs == [] then [] else [sources[0].(refs := refs)]) + CitedSources(sources[1..], cited)
  }

  lemma {:induction false} SourcesSound(sources: seq<Source>, cited: set<Text>, s: Source)
    requires s in CitedSources(sources, cited)
    ensures s.refs != [] && (forall ref :: ref in s.refs ==> ref in cited)
    ensures exists full :: full in sources && full.name == s.name && forall ref :: ref in s.refs ==> ref in full.refs
  {
    var refs := Filter(sources[0].refs, (ref: Text) => ref in cited);
    if s in CitedSources(sources[1..], cited) {
      SourcesSound(sources[1..], cited, s);
      var full :| full in sources[1..] && full.name == s.name && forall ref :: ref in s.refs ==> ref in full.refs;
      assert full in sources;
    } else {
      assert s == sources[0].(refs := refs) && sources[0] in sources;
    }
  }

  lemma {:induction false} SourcesComplete(sources: seq<Source>, cited: set<Text>, full: Source, ref: Text)
    requires full in sources && ref in full.refs && ref in cited
    ensures exists s :: s in CitedSources(sources, cited) && s.name == full.name && ref in s.refs
  {
    var refs, more := Filter(sources[0].refs, (r: Text) => r in cited), CitedSources(sources[1..], cited);
    if full in sources[1..] {
      SourcesComplete(sources[1..], cited, full, ref);
      var s :| s in more && s.name == full.name && ref in s.refs;
      assert s in CitedSources(sources, cited);
    } else {
      assert ref in refs && sources[0].(refs := refs) in CitedSources(sources, cited);
    }
  }

  /** The journey asked for: a selected journey names itself. */
  ghost predicate Asked(kind: Kind, id: Text, journeyId: Option<Text>, wanted: Text) {
    (kind == JourneyKind && wanted == id) || (kind != JourneyKind && journeyId == Some(wanted))
  }

  /** The journey of a selection is the first of the id asked for, and there is none if none was asked for. */
  ghost predicate JourneyFound(m: ProjectMap, kind: Kind, id: Text, journeyId: Option<Text>, found: Option<Journey>) {
    if kind == JourneyKind || journeyId.Some? then
      found.Some? && exists i :: 0 <= i < |m.journeys| && found.value == m.journeys[i]
                                 && Asked(kind, id, journeyId, m.journeys[i].id)
                                 && forall k :: 0 <= k < i ==> m.journeys[k].id != m.journeys[i].id
    else found == None
  }

  ghost predicate Resolvable(m: ProjectMap, kind: Kind, id: Text, journeyId: Option<Text>) {
    && Known(m, kind, id)
    && (kind == JourneyKind ==> journeyId in {None, Some(id)})
    && exists found ::
         JourneyFound(m, kind, id, journeyId, found) && (found.Some? ==> Related(m, kind, id, found.value))
  }

  ghost predicate EdgeChosen(kind: Kind, id: Text, journeys: seq<Journey>, e: Edge) {
    || kind == ProjectKind
    || (kind == EdgeKind && e.id == id)
    || (kind == NodeKind && id in {e.source, e.target})
    || (kind == AdviceKind && id in e.cards)
    || exists j :: j in journeys && e.id in j.edgeIds
  }

  ghost predicate NodeChosen(kind: Kind, id: Text, journeys: seq<Journey>, edges: seq<Edge>, n: Node) {
    || kind == ProjectKind
    || (kind == NodeKind && n.id == id)
    || (kind == AdviceKind && id in n.cards)
    || (exists j :: j in journeys && j.entry == n.id)
    || exists e :: e in edges && n.id in {e.source, e.target}
  }

  ghost predicate JourneyChosen(kind: Kind, id: Text, selected: Option<Journey>, j: Journey) {
    selected == Some(j) || (kind == AdviceKind && id in j.cards)
  }

  method CollectCited(m: ProjectMap, kind: Kind, id: Text, r: Resolution) returns (cited: set<Text>)
    ensures forall ref :: ref in cited <==> Cited(m, kind, id, r, ref)
  {
    cited := (set n, ref | n in r.nodes && ref in n.refs :: ref) + (set e, ref | e in r.edges && ref in e.refs :: ref)
             + set j, ref | j in r.journeys && ref in j.refs :: ref;
    if kind == AdviceKind {
      cited := cited + set ref | ref in AdviceRefs(m.advice, id);
    }
  }

  lemma SourcesExact(m: ProjectMap, kind: Kind, id: Text, bare: Resolution, cited: set<Text>)
    requires forall ref :: ref in cited <==> Cited(m, kind, id, bare, ref)
    ensures EvidenceExact(m, kind, id, bare.(sources := CitedSources(m.sources, cited)))
  {
    var r := bare.(sources := CitedSources(m.sources, cited));
    forall s | s in r.sources { SourcesSound(m.sources, cited, s); }
    forall full, ref | full in m.sources && ref in full.refs && ref in cited {
      SourcesComplete(m.sources, cited, full, ref);
    }
    assert forall ref :: Cited(m, kind, id, r, ref) <==> Cited(m, kind, id, bare, ref);
  }

  method CheckRelated(m: ProjectMap, kind: Kind, id: Text, j: Journey) returns (related: bool)
    ensures related <==> Related(m, kind, id, j)
  {
    if kind !in {NodeKind, EdgeKind, AdviceKind} {
      return true;
    }
    var path := Filter(m.edges, (e: Edge) => e.id in j.edgeIds);
    var nodes := {j.entry} + set e | e in path :: e.target;
    assert nodes == JourneyNodes(m, j);
    var found := Ancestors(m.edges, nodes);
    match kind
    case NodeKind => related := id in found;
    case EdgeKind => related := id in j.edgeIds;
    case _ =>
      related := id in j.cards || (exists e :: e in path && id in e.cards)
                 || exists n :: n in m.nodes && n.id in found && id in n.cards;
  }

  /** The evidence of a resolution is exactly what is cited, under the sources that hold it. */
  ghost predicate EvidenceExact(m: ProjectMap, kind: Kind, id: Text, r: Resolution) {
    && (forall s, ref :: s in r.sources && ref in s.refs ==>
          Cited(m, kind, id, r, ref) && exists full :: full in m.sources && full.name == s.name && ref in full.refs)
    && (forall s :: s in r.sources ==> s.refs != [])
    && (forall full, ref :: full in m.sources && ref in full.refs && Cited(m, kind, id, r, ref) ==>
          exists s :: s in r.sources && s.name == full.name && ref in s.refs)
  }

  /** The selected object is looked up in the collection of its kind. */
  method FindObject(m: ProjectMap, kind: Kind, id: Text) returns (refusal: Option<Refusal>)
    ensures refusal.None? <==> Known(m, kind, id)
    ensures refusal.Some? ==>
              refusal.value == match kind
                               case ProjectKind => UnknownProject
                               case OtherKind => UnknownKind
                               case _ => UnknownObject
  {
    if kind == ProjectKind {
      return if id != m.key then Some(UnknownProject) else None;
    } else if kind == OtherKind {
      return Some(UnknownKind);
    }
    var ids := match kind
      case NodeKind => set n | n in m.nodes :: n.id
      case EdgeKind => set e | e in m.edges :: e.id
      case JourneyKind => set j | j in m.journeys :: j.id
      case _ => set a | a in m.advice :: a.id;
    refusal := if id !in ids then Some(UnknownObject) else None;
  }

  method FindJourney(m: ProjectMap, kind: Kind, id: Text, journeyId: Option<Text>)
    returns (r: Result<Option<Journey>, Refusal>)
    ensures r == Err(ConflictingJourney) <==> kind == JourneyKind && journeyId !in {None, Some(id)}
    ensures r.Ok? ==> JourneyFound(m, kind, id, journeyId, r.value)
    ensures r.Ok? && r.value.Some? ==> Related(m, kind, id, r.value.value)
    ensures r.Err? ==> r.error in {ConflictingJourney, UnknownJourney, Unrelated}
    ensures r == Err(UnknownJourney) ==>
              && (exists wanted :: Asked(kind, id, journeyId, wanted))
              && forall wanted, j :: Asked(kind, id, journeyId, wanted) && j in m.journeys ==> j.id != wanted
    ensures r == Err(Unrelated) ==>
              exists j :: JourneyFound(m, kind, id, journeyId, Some(j)) && j in m.journeys && !Related(m, kind, id, j)
  {
    if kind == JourneyKind && journeyId !in {None, Some(id)} {
      return Err(ConflictingJourney);
    }
    var wanted := if kind == JourneyKind then Some(id) else journeyId;
    var journey := if wanted.Some? then FirstJourney(m.journeys, wanted.value) else None;
    if wanted.Some? {
      assert Asked(kind, id, journeyId, wanted.value);
      if journey.None? {
        return Err(UnknownJourney);
      }
    }
    if journey.Some? {
      assert JourneyFound(m, kind, id, journeyId, journey);
      var related := CheckRelated(m, kind, id, journey.value);
      if !related {
        return Err(Unrelated);
      }
    }
    r := Ok(journey);
  }

  lemma FoundOnce(m: ProjectMap, kind: Kind, id: Text, journeyId: Option<Text>, a: Option<Journey>, b: Option<Journey>)
    requires JourneyFound(m, kind, id, journeyId, a) && JourneyFound(m, kind, id, journeyId, b)
    ensures a == b
  {
  }

  method ChooseEdges(m: ProjectMap, kind: Kind, id: Text, journeys: seq<Journey>) returns (edges: seq<Edge>)
    ensures forall e :: e in edges <==> e in m.edges && EdgeChosen(kind, id, journeys, e)
  {
    var journeyEdges := set j, e | j in journeys && e in j.edgeIds :: e;
    assert forall x :: x in journeyEdges <==> exists j :: j in journeys && x in j.edgeIds;
    edges := Filter(m.edges, (e: Edge) =>
      || kind == ProjectKind || (kind == EdgeKind && e.id == id) || (kind == NodeKind && id in {e.source, e.target})
      || (kind == AdviceKind && id in e.cards) || e.id in journeyEdges);
  }

  method ChooseNodes(m: ProjectMap, kind: Kind, id: Text, journeys: seq<Journey>, edges: seq<Edge>)
    returns (nodes: seq<Node>)
    ensures forall n :: n in nodes <==> n in m.nodes && NodeChosen(kind, id, journeys, edges, n)
  {
    var entries := set j | j in journeys :: j.entry;
    var ends := (set e | e in edges :: e.source) + (set e | e in edges :: e.target);
    assert forall x :: x in entries <==> exists j :: j in journeys && j.entry == x;
    assert forall x :: x in ends <==> exists e :: e in edges && x in {e.source, e.target};
    var nodeIds := (if kind == NodeKind then {id} else {}) + entries + ends;
    nodes := Filter(m.nodes, (n: Node) =>
      kind == ProjectKind || n.id in nodeIds || (kind == AdviceKind && id in n.cards));
  }

  /** What comes with the object and its journey, before the evidence is cut down. */
  method Choose(m: ProjectMap, kind: Kind, id: Text, journey: Option<Journey>) returns (r: Resolution)
    ensures r.journey == journey
    ensures forall e :: e in r.edges <==> e in m.edges && EdgeChosen(kind, id, r.journeys, e)
    ensures forall n :: n in r.nodes <==> n in m.nodes && NodeChosen(kind, id, r.journeys, r.edges, n)
    ensures forall j :: j in r.journeys <==> j in m.journeys && JourneyChosen(kind, id, journey, j)
  {
    var journeys := Filter(m.journeys, (j: Journey) => journey == Some(j) || (kind == AdviceKind && id in j.cards));
    hide EdgeChosen, NodeChosen;
    var edges := ChooseEdges(m, kind, id, journeys);
    var nodes := ChooseNodes(m, kind, id, journeys, edges);
    r := Resolution(journey, journeys, nodes, edges, []);
  }

  /** The selection succeeds exactly when it should, no returned edge dangles, and the evidence is complete. */
  method ResolveSelection(m: ProjectMap, kind: Kind, id: Text, journeyId: Option<Text>)
    returns (r: Result<Resolution, Refusal>)
    ensures r.Ok? <==> Resolvable(m, kind, id, journeyId)
    ensures r.Ok? ==> JourneyFound(m, kind, id, journeyId, r.value.journey)
    ensures r.Err? && r.error in {UnknownProject, UnknownKind, UnknownObject} <==> !Known(m, kind, id)
    ensures r == Err(ConflictingJourney) <==>
            Known(m, kind, id) && kind == JourneyKind && journeyId !in {None, Some(id)}
    ensures r == Err(UnknownJourney) ==>
              forall wanted, j :: Asked(kind, id, journeyId, wanted) && j in m.journeys ==> j.id != wanted
    ensures r == Err(Unrelated) ==>
              exists j :: JourneyFound(m, kind, id, journeyId, Some(j)) && j in m.journeys && !Related(m, kind, id, j)
    ensures r.Ok? ==> forall e :: e in r.value.edges <==> e in m.edges && EdgeChosen(kind, id, r.value.journeys, e)
    ensures r.Ok? ==> forall n ::
              n in r.value.nodes <==> n in m.nodes && NodeChosen(kind, id, r.value.journeys, r.value.edges, n)
    ensures r.Ok? ==>
              forall j :: j in r.value.journeys <==> j in m.journeys && JourneyChosen(kind, id, r.value.journey, j)
    ensures r.Ok? ==> EvidenceExact(m, kind, id, r.value)
    ensures r.Ok? && KnownEndpoints(m) ==> forall e :: e in r.value.edges ==>
              (exists n :: n in r.value.nodes && n.id == e.source)
              && (exists n :: n in r.value.nodes && n.id == e.target)
  {
    hide Known, Related, EvidenceExact, JourneyFound, Asked, JourneyChosen, EdgeChosen;
    var refusal := FindObject(m, kind, id);
    if refusal.Some? {
      return Err(refusal.value);
    }
    var journey := FindJourney(m, kind, id, journeyId);
    if journey.Err? {
      RefusedRightly(m, kind, id, journeyId, journey.error);
      return Err(journey.error);
    }
    var bare := Choose(m, kind, id, journey.value);
    var cited := CollectCited(m, kind, id, bare);
    r := Ok(bare.(sources := CitedSources(m.sources, cited)));
    SourcesExact(m, kind, id, bare, cited);
    forall e | e in bare.edges && KnownEndpoints(m)
      ensures (exists n :: n in bare.nodes && n.id == e.source) && (exists n :: n in bare.nodes && n.id == e.target)
    {
      var a :| a in m.nodes && a.id == e.source;
      var b :| b in m.nodes && b.id == e.target;
      assert a in bare.nodes && b in bare.nodes;
    }
  }

  /** Each of the three later refusals means that the selection cannot resolve. */
  lemma RefusedRightly(m: ProjectMap, kind: Kind, id: Text, journeyId: Option<Text>, error: Refusal)
    requires || (error == ConflictingJourney && kind == JourneyKind && journeyId !in {None, Some(id)})
             || (error == UnknownJourney && (exists wanted :: Asked(kind, id, journeyId, wanted))
                 && forall wanted, j :: Asked(kind, id, journeyId, wanted) && j in m.journeys ==> j.id != wanted)
             || (error == Unrelated
                 && exists j :: JourneyFound(m, kind, id, journeyId, Some(j)) && !Related(m, kind, id, j))
    ensures !Resolvable(m, kind, id, journeyId)
  {
    hide Known, Related;
    if error == UnknownJourney {
      forall found: Option<Journey> ensures !JourneyFound(m, kind, id, journeyId, found) { }
    } else if error == Unrelated {
      var j :| JourneyFound(m, kind, id, journeyId, Some(j)) && !Related(m, kind, id, j);
      forall found | JourneyFound(m, kind, id, journeyId, found) ensures found == Some(j) {
        FoundOnce(m, kind, id, journeyId, found, Some(j));
      }
    }
  }
}
