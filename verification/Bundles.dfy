/**
 A bundle leaves the same rules in whatever order its items come, and the same rules as its
 items deployed one by one.
 */
module Bundles {
  import opened Prelude
  import opened Strings
  import opened Instructions
  import opened Planner
  import RoundTrip

  // ------------------------------------------------------------------ the order of slots

  lemma BeforeTransitive(a: Slot, b: Slot, c: Slot)
    requires Before(a, b) && Before(b, c)
    ensures Before(a, c)
  {
    if LexLess(a.rule.id, b.rule.id) && LexLess(b.rule.id, c.rule.id) {
      LexTransitive(a.rule.id, b.rule.id, c.rule.id);
    }
  }

  lemma BeforeIrreflexive(a: Slot)
    ensures !Before(a, a)
  {
    LexIrreflexive(a.rule.id);
  }

  ghost predicate Ordered(s: seq<Slot>) {
    forall i, j :: 0 <= i < j < |s| ==> Before(s[i], s[j])
  }

  ghost predicate Comparable(a: Slot, b: Slot) {
    Before(a, b) || Before(b, a)
  }

  ghost predicate KeysApart(s: seq<Slot>) {
    forall i, j :: 0 <= i < j < |s| ==> Comparable(s[i], s[j])
  }

  lemma {:induction false} InsertHas(s: seq<Slot>, x: Slot)
    ensures |Insert(s, x)| == |s| + 1
    ensures forall y :: y in Insert(s, x) <==> y == x || y in s
  {
    if s != [] && !Before(x, s[0]) {
      InsertHas(s[1..], x);
      assert s == [s[0]] + s[1..];
    }
  }

  lemma {:induction false} InsertOrdered(s: seq<Slot>, x: Slot)
    requires Ordered(s) && forall y :: y in s ==> Comparable(x, y)
    ensures Ordered(Insert(s, x))
  {
    if s == [] {
    } else if Before(x, s[0]) {
      forall j | 1 <= j < |s| ensures Before(x, s[j]) { BeforeTransitive(x, s[0], s[j]); }
    } else {
      assert Comparable(x, s[0]);
      InsertOrdered(s[1..], x);
      var rest := Insert(s[1..], x);
      InsertHas(s[1..], x);
      forall j | 0 <= j < |rest| ensures Before(s[0], rest[j]) {
        assert rest[j] in rest;
        if rest[j] != x { assert rest[j] in s[1..]; }
      }
    }
  }

  lemma {:induction false} SortHas(s: seq<Slot>)
    ensures |Sort(s)| == |s| && forall y :: y in Sort(s) <==> y in s
  {
    if s != [] {
      SortHas(s[1..]);
      InsertHas(Sort(s[1..]), s[0]);
      assert s == [s[0]] + s[1..];
    }
  }

  lemma {:induction false} SortOrdered(s: seq<Slot>)
    requires KeysApart(s)
    ensures Ordered(Sort(s))
  {
    if s != [] {
      SortOrdered(s[1..]);
      SortHas(s[1..]);
      forall y | y in Sort(s[1..]) ensures Comparable(s[0], y) {
        assert y in s[1..];
        var j :| 0 <= j < |s[1..]| && s[1..][j] == y;
        assert s[j + 1] == y;
      }
      InsertOrdered(Sort(s[1..]), s[0]);
    }
  }

  /** An ordered list is determined by its elements. */
  lemma {:induction false} OrderedUnique(a: seq<Slot>, b: seq<Slot>)
    requires Ordered(a) && Ordered(b) && forall x :: x in a <==> x in b
    ensures a == b
  {
    assert a != [] ==> a[0] in a;
    assert b != [] ==> b[0] in b;
    if a != [] {
      var i :| 0 <= i < |b| && b[i] == a[0];
      var j :| 0 <= j < |a| && a[j] == b[0];
      if i > 0 && j > 0 { BeforeTransitive(a[0], b[0], a[0]); }
      BeforeIrreflexive(a[0]);
      assert a[0] == b[0];
      forall x ensures x in a[1..] <==> x in b[1..] {
        TailHas(a, x);
        TailHas(b, x);
      }
      OrderedUnique(a[1..], b[1..]);
      assert a == [a[0]] + a[1..] && b == [b[0]] + b[1..];
    }
  }

  lemma TailHas(s: seq<Slot>, x: Slot)
    requires Ordered(s) && s != []
    ensures x in s[1..] <==> x in s && x != s[0]
  {
    BeforeIrreflexive(s[0]);
    if x in s && x != s[0] {
      var i :| 0 <= i < |s| && s[i] == x;
      assert s[1..][i - 1] == x;
    }
    if x in s[1..] {
      var i :| 0 <= i < |s[1..]| && s[1..][i] == x;
      assert s[i + 1] == x && Before(s[0], s[i + 1]);
    }
  }

  // ------------------------------------------------------------------ which slots a bundle fills

  /** Two items of one bundle neither make the same rule nor replace the same one. */
  ghost predicate ItemsApart(a: Item, b: Item) {
    a.rule.id != b.rule.id && a.supersedes !! b.supersedes
  }

  ghost predicate Apart(items: seq<Item>) {
    forall i, j :: 0 <= i < j < |items| ==> ItemsApart(items[i], items[j])
  }

  ghost predicate SlotIn(rules: seq<Rule>, items: seq<Item>, x: Slot) {
    || (x.pos < |rules| && x.kind == 0 && x.rule == rules[x.pos] && x.rule.id !in Used(items))
    || exists i :: 0 <= i < |items| && ItemSlot(rules, items[i]) == x
  }

  lemma {:induction false} SurvivorsHas(rules: seq<Rule>, used: set<Text>, n: nat)
    requires n <= |rules|
    ensures forall x :: x in Survivors(rules, used, n) <==>
                        x.pos < n && x.kind == 0 && x.rule == rules[x.pos] && x.rule.id !in used
    ensures Ordered(Survivors(rules, used, n))
  {
    if n > 0 {
      SurvivorsHas(rules, used, n - 1);
      var s := Survivors(rules, used, n - 1);
      assert forall i :: 0 <= i < |s| ==> s[i] in s;
    }
  }

  lemma PlacedHas(rules: seq<Rule>, items: seq<Item>, x: Slot)
    ensures x in Placed(rules, items) <==> SlotIn(rules, items, x)
  {
    SurvivorsHas(rules, Used(items), |rules|);
    var own := seq(|items|, i requires 0 <= i < |items| => ItemSlot(rules, items[i]));
    assert x in Placed(rules, items) <==> x in Survivors(rules, Used(items), |rules|) || x in own;
    if i :| 0 <= i < |items| && ItemSlot(rules, items[i]) == x { assert own[i] == x; }
    if x in own { var i :| 0 <= i < |own| && own[i] == x; assert ItemSlot(rules, items[i]) == x; }
  }

  lemma PlacedKeysApart(rules: seq<Rule>, items: seq<Item>)
    requires Apart(items)
    ensures KeysApart(Placed(rules, items))
  {
    var s := Survivors(rules, Used(items), |rules|);
    SurvivorsHas(rules, Used(items), |rules|);
    var p := Placed(rules, items);
    forall i, j | 0 <= i < j < |p| ensures Comparable(p[i], p[j]) {
      if j < |s| {
        assert Before(s[i], s[j]);
      } else if i < |s| {
        assert s[i] in s && p[i].kind == 0 && p[j].kind != 0;
      } else {
        assert ItemsApart(items[i - |s|], items[j - |s|]);
        LexTotal(p[i].rule.id, p[j].rule.id);
      }
    }
  }

  /** The bundle's rules, seen as the ordered slots it fills. */
  lemma BundleSlots(rules: seq<Rule>, items: seq<Item>)
    requires Apart(items)
    ensures var s := Sort(Placed(rules, items));
            Ordered(s) && (forall x :: x in s <==> SlotIn(rules, items, x)) && BundleRules(rules, items) == RulesOf(s)
  {
    PlacedKeysApart(rules, items);
    SortOrdered(Placed(rules, items));
    SortHas(Placed(rules, items));
    forall x { PlacedHas(rules, items, x); }
  }

  // ------------------------------------------------------------------ any order of the items

  lemma {:induction false} TwiceCounts(items: seq<Item>, i: int, j: int)
    requires 0 <= i < j < |items| && items[i] == items[j]
    ensures multiset(items)[items[i]] >= 2
  {
    assert items == items[..j] + items[j..];
    assert items[i] == items[..j][i] && items[j] == items[j..][0];
    assert items[i] in items[..j] && items[i] in items[j..];
  }

  lemma CountsTwice(items: seq<Item>, x: Item) returns (i: int, j: int)
    requires multiset(items)[x] >= 2
    ensures 0 <= i < j < |items| && items[i] == items[j] == x
  {
    assert x in items;
    i :| 0 <= i < |items| && items[i] == x;
    var rest := items[..i] + items[i + 1..];
    assert items == items[..i] + [x] + items[i + 1..];
    assert multiset(items) == multiset(rest) + multiset{x};
    assert x in rest;
    var k :| 0 <= k < |rest| && rest[k] == x;
    if k < i { i, j := k, i; } else { j := k + 1; }
  }

  lemma ApartOnce(items: seq<Item>, x: Item)
    ensures Apart(items) ==> multiset(items)[x] <= 1
  {
    if multiset(items)[x] >= 2 {
      var i, j := CountsTwice(items, x);
      assert !ItemsApart(items[i], items[j]);
    }
  }

  lemma SameItems(a: seq<Item>, b: seq<Item>)
    requires multiset(a) == multiset(b)
    ensures forall x :: x in a <==> x in b
    ensures NewIds(a) == NewIds(b) && Used(a) == Used(b)
    ensures Apart(a) ==> Apart(b)
  {
    forall x ensures x in a <==> x in b { assert x in a <==> x in multiset(a); assert x in b <==> x in multiset(b); }
    HasUsed(a, b);
    HasUsed(b, a);
    if Apart(a) {
      forall i, j | 0 <= i < j < |b| ensures ItemsApart(b[i], b[j]) {
        ApartOnce(a, b[i]);
        if b[i] == b[j] { TwiceCounts(b, i, j); }
        assert b[i] in a && b[j] in a;
        var k :| 0 <= k < |a| && a[k] == b[i];
        var l :| 0 <= l < |a| && a[l] == b[j];
        assert if k < l then ItemsApart(a[k], a[l]) else ItemsApart(a[l], a[k]);
      }
    }
  }

  lemma HasUsed(a: seq<Item>, b: seq<Item>)
    requires forall x :: x in a ==> x in b
    ensures NewIds(a) <= NewIds(b) && Used(a) <= Used(b)
  {
    forall x | x in NewIds(a) ensures x in NewIds(b) {
      var i :| 0 <= i < |a| && a[i].rule.id == x;
      assert a[i] in b;
      var j :| 0 <= j < |b| && b[j] == a[i];
      assert b[j].rule.id == x;
    }
    forall x | x in Used(a) ensures x in Used(b) {
      var i :| 0 <= i < |a| && x in a[i].supersedes;
      assert a[i] in b;
      var j :| 0 <= j < |b| && b[j] == a[i];
      assert x in b[j].supersedes;
    }
  }

  lemma SlotInElements(rules: seq<Rule>, a: seq<Item>, b: seq<Item>, x: Slot)
    requires (forall y :: y in a <==> y in b) && SlotIn(rules, a, x)
    ensures SlotIn(rules, b, x)
  {
    HasUsed(a, b);
    HasUsed(b, a);
    if i :| 0 <= i < |a| && ItemSlot(rules, a[i]) == x {
      assert a[i] in b;
      var j :| 0 <= j < |b| && b[j] == a[i];
      assert ItemSlot(rules, b[j]) == x;
    }
  }

  /** The rules a bundle leaves do not depend on the order of its items. */
  lemma BundleRulesPermute(rules: seq<Rule>, a: seq<Item>, b: seq<Item>)
    requires multiset(a) == multiset(b) && Apart(a)
    ensures BundleRules(rules, a) == BundleRules(rules, b)
  {
    SameItems(a, b);
    BundleSlots(rules, a);
    BundleSlots(rules, b);
    forall x ensures SlotIn(rules, a, x) <==> SlotIn(rules, b, x) {
      if SlotIn(rules, a, x) { SlotInElements(rules, a, b, x); }
      if SlotIn(rules, b, x) { SlotInElements(rules, b, a, x); }
    }
    OrderedUnique(Sort(Placed(rules, a)), Sort(Placed(rules, b)));
  }

  // ------------------------------------------------------------------ which bundles are accepted

  /** One item fits the document: it replaces rules that exist, or adds one that does not. */
  ghost predicate Applies(originals: set<Text>, it: Item) {
    && it.supersedes <= originals && it.supersedes != {it.rule.id}
    && (it.supersedes == {} ==> it.rule.id !in originals)
  }

  ghost predicate AllApply(originals: set<Text>, items: seq<Item>) {
    forall i :: 0 <= i < |items| ==> Applies(originals, items[i])
  }

  ghost predicate Acceptable(rules: seq<Rule>, items: seq<Item>) {
    && items != [] && Apart(items) && AllApply(Ids(rules), items)
    && NewIds(items) * (Ids(rules) - Used(items)) == {}
    && BundleRules(rules, items) != rules
  }

  lemma VetOne(originals: set<Text>, items: seq<Item>, k: nat)
    requires k < |items|
    ensures VetItem(originals, items[k], NewIds(items[..k]), Used(items[..k])).None? <==>
            Applies(originals, items[k]) && forall i :: 0 <= i < k ==> ItemsApart(items[i], items[k])
  {
    var done, it := items[..k], items[k];
    assert forall i :: 0 <= i < k ==> done[i] == items[i];
    if it.rule.id in NewIds(done) {
      var i :| 0 <= i < k && done[i].rule.id == it.rule.id;
      assert !ItemsApart(items[i], it);
    } else if x :| x in Used(done) * it.supersedes {
      var i :| 0 <= i < k && x in done[i].supersedes;
      assert !ItemsApart(items[i], it);
    } else {
      forall i | 0 <= i < k ensures ItemsApart(items[i], it) {
        assert done[i].rule.id in NewIds(done);
        forall x | x in done[i].supersedes ensures x in Used(done) && x !in it.supersedes {
          assert x in Used(done);
          assert x !in Used(done) * it.supersedes;
        }
      }
    }
  }

  lemma {:induction false} VetMeans(originals: set<Text>, items: seq<Item>, k: nat)
    requires k <= |items|
    ensures Vet(originals, items, k).None? <==>
            forall j :: k <= j < |items| ==>
              Applies(originals, items[j]) && forall i :: 0 <= i < j ==> ItemsApart(items[i], items[j])
    decreases |items| - k
  {
    if k < |items| {
      VetOne(originals, items, k);
      VetMeans(originals, items, k + 1);
    }
  }

  /** No rule id comes twice out of an accepted bundle, so the planner's own check of that never fires. */
  lemma BundleDistinct(rules: seq<Rule>, items: seq<Item>)
    requires DistinctIds(rules) && Apart(items) && NewIds(items) * (Ids(rules) - Used(items)) == {}
    ensures DistinctIds(BundleRules(rules, items))
  {
    BundleSlots(rules, items);
    var s := Sort(Placed(rules, items));
    forall i, j | 0 <= i < j < |s| ensures s[i].rule.id != s[j].rule.id {
      assert s[i] in s && s[j] in s && Before(s[i], s[j]);
      BeforeIrreflexive(s[i]);
      SlotsDistinct(rules, items, s[i], s[j]);
    }
  }

  lemma SlotsDistinct(rules: seq<Rule>, items: seq<Item>, x: Slot, y: Slot)
    requires DistinctIds(rules) && Apart(items) && NewIds(items) * (Ids(rules) - Used(items)) == {}
    requires SlotIn(rules, items, x) && SlotIn(rules, items, y) && x != y
    ensures x.rule.id != y.rule.id
  {
    if x.kind == 0 && y.kind == 0 {
      assert x.pos != y.pos && x.rule == rules[x.pos] && y.rule == rules[y.pos];
    } else if x.kind == 0 || y.kind == 0 {
      var was, made := if x.kind == 0 then x else y, if x.kind == 0 then y else x;
      var i :| 0 <= i < |items| && ItemSlot(rules, items[i]) == made;
      assert made.rule.id in NewIds(items);
      assert rules[was.pos].id in Ids(rules);
      assert made.rule.id !in NewIds(items) * (Ids(rules) - Used(items));
    } else {
      var i :| 0 <= i < |items| && ItemSlot(rules, items[i]) == x;
      var j :| 0 <= j < |items| && ItemSlot(rules, items[j]) == y;
      assert if i < j then ItemsApart(items[i], items[j]) else ItemsApart(items[j], items[i]);
    }
  }

  lemma AcceptablePermutes(rules: seq<Rule>, a: seq<Item>, b: seq<Item>)
    requires multiset(a) == multiset(b) && Acceptable(rules, a)
    ensures Acceptable(rules, b)
  {
    SameItems(a, b);
    BundleRulesPermute(rules, a, b);
    assert a[0] in b;
    forall i | 0 <= i < |b| ensures Applies(Ids(rules), b[i]) {
      assert b[i] in a;
      var j :| 0 <= j < |a| && a[j] == b[i];
    }
  }

  lemma SortedAccepts(rules: seq<Rule>, items: seq<Item>)
    requires DistinctIds(rules)
    ensures BundleOf(rules, items).Ok? <==> Acceptable(rules, items)
    ensures BundleOf(rules, items).Ok? ==> BundleOf(rules, items).value == BundleRules(rules, items)
  {
    VetMeans(Ids(rules), items, 0);
    assert Vet(Ids(rules), items, 0).None? <==> Apart(items) && AllApply(Ids(rules), items);
    if Apart(items) && NewIds(items) * (Ids(rules) - Used(items)) == {} {
      BundleDistinct(rules, items);
      RoundTrip.DistinctIdsCount(BundleRules(rules, items));
    }
  }

  /**
   The bundle planner accepts exactly the bundles whose items fit the document and each
   other, and it leaves the rules that `BundleRules` describes, in any order of the items.
   */
  lemma BundleAcceptsExactly(rules: seq<Rule>, items: seq<Item>)
    requires DistinctIds(rules)
    ensures Bundle(rules, items).Ok? <==> Acceptable(rules, items)
    ensures Bundle(rules, items).Ok? ==> Bundle(rules, items).value == BundleRules(rules, items)
  {
    var sorted := ByCard(items);
    ByCardKeeps(items);
    SortedAccepts(rules, sorted);
    if Acceptable(rules, sorted) {
      AcceptablePermutes(rules, sorted, items);
      BundleRulesPermute(rules, sorted, items);
    }
    if Acceptable(rules, items) { AcceptablePermutes(rules, items, sorted); }
  }

  /** What is wrong with item number `k`, told by the items before it and the document. */
  ghost predicate Complaint(originals: set<Text>, items: seq<Item>, k: int, e: Error)
    requires 0 <= k < |items|
  {
    var it := items[k];
    if exists i :: 0 <= i < k && (items[i].rule.id == it.rule.id || items[i].supersedes * it.supersedes != {}) then
      e == InvalidBundle
    else if exists id :: id in it.supersedes && id !in originals then e == RevisionStale
    else e == NotApplicable
         && ((it.supersedes == {} && it.rule.id in originals) || it.supersedes == {it.rule.id})
  }

  lemma VetOneSays(originals: set<Text>, items: seq<Item>, k: nat, e: Error)
    requires k < |items|
    ensures VetItem(originals, items[k], NewIds(items[..k]), Used(items[..k])) == Some(e) <==>
            Complaint(originals, items, k, e)
  {
    var done, it := items[..k], items[k];
    assert forall i :: 0 <= i < k ==> done[i] == items[i];
    assert it.rule.id in NewIds(done) <==> exists i :: 0 <= i < k && items[i].rule.id == it.rule.id by {
      if i :| 0 <= i < k && items[i].rule.id == it.rule.id { assert done[i].rule.id in NewIds(done); }
    }
    assert Used(done) * it.supersedes != {} <==>
           exists i :: 0 <= i < k && items[i].supersedes * it.supersedes != {} by {
      if x :| x in Used(done) * it.supersedes {
        var i :| 0 <= i < k && x in done[i].supersedes;
        assert x in items[i].supersedes * it.supersedes;
      }
      if i :| 0 <= i < k && items[i].supersedes * it.supersedes != {} {
        var x :| x in items[i].supersedes * it.supersedes;
        assert x in done[i].supersedes && x in Used(done);
      }
    }
  }

  /** The complaint reported is the one about the first item, in card order, that has one. */
  lemma {:induction false} ComplaintIsFirst(originals: set<Text>, items: seq<Item>, from: nat, e: Error)
    requires from <= |items|
    ensures Vet(originals, items, from) == Some(e) <==>
            exists k :: from <= k < |items| && Complaint(originals, items, k, e)
                        && forall j, e' :: from <= j < k ==> !Complaint(originals, items, j, e')
    decreases |items| - from
  {
    hide Complaint, VetItem;
    if from < |items| {
      var first := VetItem(originals, items[from], NewIds(items[..from]), Used(items[..from]));
      forall x { VetOneSays(originals, items, from, x); }
      ComplaintIsFirst(originals, items, from + 1, e);
      if first.Some? { assert Complaint(originals, items, from, first.value); }
    }
  }

  // ------------------------------------------------------------------ where the rules of a bundle go

  /** A rule stays where it was, takes the place of the first rule its item supersedes, or goes last. */
  ghost predicate Spot(rules: seq<Rule>, items: seq<Item>, x: Rule, pos: nat, kind: nat) {
    || (kind == 0 && pos < |rules| && rules[pos] == x && forall it :: it in items ==> x.id !in it.supersedes)
    || (kind == 1 && exists it :: it in items && it.rule == x && FirstOf(rules, it.supersedes, pos))
    || (kind == 2 && pos == |rules| && exists it :: it in items && it.rule == x && it.supersedes == {})
  }

  ghost predicate FirstOf(rules: seq<Rule>, ids: set<Text>, pos: nat) {
    pos < |rules| && rules[pos].id in ids && forall j :: 0 <= j < pos ==> rules[j].id !in ids
  }

  lemma SpotIsSlot(rules: seq<Rule>, items: seq<Item>, x: Slot)
    requires AllApply(Ids(rules), items)
    ensures SlotIn(rules, items, x) <==> Spot(rules, items, x.rule, x.pos, x.kind)
  {
    assert forall id :: id in Used(items) <==> exists it :: it in items && id in it.supersedes by {
      forall id, it | it in items && id in it.supersedes ensures id in Used(items) {
        var i :| 0 <= i < |items| && items[i] == it;
      }
    }
    forall it | it in items && it.supersedes != {}
      ensures FirstOf(rules, it.supersedes, FirstIn(rules, it.supersedes))
    {
      var i :| 0 <= i < |items| && items[i] == it;
      assert Applies(Ids(rules), items[i]);
      var id :| id in it.supersedes;
      assert id in Ids(rules);
    }
    if Spot(rules, items, x.rule, x.pos, x.kind) && x.kind > 0 {
      var it :| it in items && it.rule == x.rule
                && (if x.kind == 1 then FirstOf(rules, it.supersedes, x.pos) else it.supersedes == {});
      var i :| 0 <= i < |items| && items[i] == it;
      assert ItemSlot(rules, items[i]) == x;
    }
  }

  /**
   Where every rule of an accepted bundle stands: survivors keep their order, a revision takes
   the place of the first rule it supersedes, and new rules follow at the end by their ids.
   */
  lemma BundlePlaces(rules: seq<Rule>, items: seq<Item>, made: seq<Rule>)
    requires DistinctIds(rules) && Bundle(rules, items) == Ok(made)
    ensures DistinctIds(made)
    ensures forall x :: x in made <==> exists pos, kind :: Spot(rules, items, x, pos, kind)
    ensures forall x, y, p: nat, q: nat, k: nat, m: nat ::
              (Spot(rules, items, x, p, k) && Spot(rules, items, y, q, m)
               && (p < q || (p == q && (k < m || (k == m && LexLess(x.id, y.id)))))) ==> Precedes(made, x, y)
  {
    BundleAcceptsExactly(rules, items);
    BundleDistinct(rules, items);
    BundleSlots(rules, items);
    hide BundleRules, Placed, Sort, Bundle;
    var s := Sort(Placed(rules, items));
    assert made == RulesOf(s) by { MadeOfSlots(rules, items); }
    forall x ensures x in made <==> exists pos, kind :: Spot(rules, items, x, pos, kind) {
      if x in made {
        var i :| 0 <= i < |made| && made[i] == x;
        SpotIsSlot(rules, items, s[i]);
        assert s[i] in s && Spot(rules, items, x, s[i].pos, s[i].kind);
      }
      if pos, kind :| Spot(rules, items, x, pos, kind) {
        SpotIsSlot(rules, items, Slot(pos, kind, x));
        var i :| 0 <= i < |s| && s[i] == Slot(pos, kind, x);
        assert made[i] == x;
      }
    }
    forall x, y, p: nat, q: nat, k: nat, m: nat |
      (Spot(rules, items, x, p, k) && Spot(rules, items, y, q, m)
       && (p < q || (p == q && (k < m || (k == m && LexLess(x.id, y.id))))))
      ensures Precedes(made, x, y)
    {
      SpotIsSlot(rules, items, Slot(p, k, x));
      SpotIsSlot(rules, items, Slot(q, m, y));
      OrderPlaces(s, Slot(p, k, x), Slot(q, m, y));
    }
  }

  lemma MadeOfSlots(rules: seq<Rule>, items: seq<Item>)
    ensures BundleRules(rules, items) == RulesOf(Sort(Placed(rules, items)))
  {
  }

  lemma OrderPlaces(s: seq<Slot>, a: Slot, b: Slot)
    requires Ordered(s) && a in s && b in s
    requires || a.pos < b.pos
             || (a.pos == b.pos && (a.kind < b.kind || (a.kind == b.kind && LexLess(a.rule.id, b.rule.id))))
    ensures Precedes(RulesOf(s), a.rule, b.rule)
  {
    var i :| 0 <= i < |s| && s[i] == a;
    var j :| 0 <= j < |s| && s[j] == b;
    BeforeIrreflexive(a);
    if j < i { BeforeTransitive(a, b, a); }
    assert RulesOf(s)[i] == a.rule && RulesOf(s)[j] == b.rule;
  }

  /** Every ordering of the same items is accepted or refused alike, and leaves the same rules. */
  lemma BundleOrderFree(rules: seq<Rule>, a: seq<Item>, b: seq<Item>)
    requires DistinctIds(rules) && multiset(a) == multiset(b)
    ensures Bundle(rules, a).Ok? <==> Bundle(rules, b).Ok?
    ensures Bundle(rules, a).Ok? ==> Bundle(rules, a) == Bundle(rules, b)
  {
    BundleAcceptsExactly(rules, a);
    BundleAcceptsExactly(rules, b);
    if Acceptable(rules, a) {
      AcceptablePermutes(rules, a, b);
      BundleRulesPermute(rules, a, b);
    }
    if Acceptable(rules, b) { AcceptablePermutes(rules, b, a); }
  }

  /**
   A bundle as a caller gives it is accepted exactly when the superseded ids of all its items
   can be read and the items read are acceptable; then reading loses nothing.
   */
  lemma RequestsAcceptedExactly(rules: seq<Rule>, requests: seq<Request>)
    requires DistinctIds(rules)
    ensures BundleRequests(rules, requests).Ok? <==> AllRead(requests) && Acceptable(rules, ReadItems(requests))
    ensures AllRead(requests) ==> BundleRequests(rules, requests) == Bundle(rules, ReadItems(requests))
  {
    hide ReadItem, Vet, BundleRules, Acceptable, ByCard;
    var sorted := ByCard(requests);
    assert sorted[..|sorted|] == sorted;
    if AllRead(sorted) { UnreadSorted(requests); }
    if AllRead(requests) {
      ReadSorted(requests);
      assert Readable(sorted) == |sorted|;
      BundleAcceptsExactly(rules, ReadItems(requests));
    }
  }

  // ------------------------------------------------------------------ one by one

  /** The items deployed one after another. */
  function DeployAll(rules: seq<Rule>, items: seq<Item>): Result<seq<Rule>, Error>
    decreases |items|
  {
    if items == [] then Ok(rules)
    else
      var before := DeployAll(rules, items[..|items| - 1]);
      var last := items[|items| - 1];
      if before.Err? then before else DeployRules(before.value, last.rule, last.supersedes)
  }

  /** Replacements first, then additions by ascending rule id. */
  ghost predicate Staged(items: seq<Item>) {
    forall i, j :: 0 <= i < j < |items| && items[i].supersedes == {} ==>
      items[j].supersedes == {} && LexLess(items[i].rule.id, items[j].rule.id)
  }

  /** No item makes a rule that a later one supersedes. */
  ghost predicate NoLaterLoss(items: seq<Item>) {
    forall i, j :: 0 <= i < j < |items| ==> items[i].rule.id !in items[j].supersedes
  }

  /** A rule the document had before is made again only once it was superseded. */
  ghost predicate OldOnesGone(rules: seq<Rule>, items: seq<Item>) {
    forall i :: 0 <= i < |items| && items[i].rule.id in Ids(rules) ==>
      exists k :: 0 <= k <= i && items[i].rule.id in items[k].supersedes
  }

  ghost predicate Orderly(rules: seq<Rule>, items: seq<Item>) {
    NoLaterLoss(items) && OldOnesGone(rules, items)
  }

  /** The list of rules after some items, as ordered slots. */
  ghost predicate Tracks(rules: seq<Rule>, done: seq<Item>, s: seq<Slot>) {
    Ordered(s) && forall x :: x in s <==> SlotIn(rules, done, x)
  }

  function Keep(s: seq<Slot>, ids: set<Text>): seq<Slot> {
    if s == [] then []
    else if s[0].rule.id in ids then Keep(s[1..], ids)
    else [s[0]] + Keep(s[1..], ids)
  }

  lemma {:induction false} KeepRules(s: seq<Slot>, ids: set<Text>)
    ensures RulesOf(Keep(s, ids)) == Without(RulesOf(s), ids)
  {
    if s != [] {
      KeepRules(s[1..], ids);
      assert RulesOf(s)[1..] == RulesOf(s[1..]);
      assert RulesOf(s)[0] == s[0].rule;
    }
  }

  lemma {:induction false} KeepHas(s: seq<Slot>, ids: set<Text>)
    ensures forall x :: x in Keep(s, ids) <==> x in s && x.rule.id !in ids
    ensures Ordered(s) ==> Ordered(Keep(s, ids))
  {
    if s != [] {
      KeepHas(s[1..], ids);
      assert s == [s[0]] + s[1..];
      if Ordered(s) {
        var k := Keep(s[1..], ids);
        forall i | 0 <= i < |k| ensures Before(s[0], k[i]) {
          assert k[i] in s[1..];
          var j :| 0 <= j < |s[1..]| && s[1..][j] == k[i];
          assert s[j + 1] == k[i];
        }
      }
    }
  }

  lemma {:induction false} KeepFrom(s: seq<Slot>, ids: set<Text>, at: nat)
    requires at <= |s| && forall i :: 0 <= i < at ==> s[i].rule.id !in ids
    ensures Keep(s, ids) == s[..at] + Keep(s[at..], ids)
  {
    if at > 0 {
      KeepFrom(s[1..], ids, at - 1);
      assert s[1..][at - 1..] == s[at..];
      assert [s[0]] + s[1..][..at - 1] == s[..at];
    }
  }

  /** The first superseded rule is still at its own place. */
  lemma FirstStands(rules: seq<Rule>, done: seq<Item>, s: seq<Slot>, it: Item) returns (k: nat)
    requires Tracks(rules, done, s) && Apart(done + [it])
    requires it.supersedes != {} && it.supersedes <= Ids(rules)
    ensures var p := FirstIn(rules, it.supersedes); p < |rules| && k < |s| && s[k] == Slot(p, 0, rules[p])
  {
    var p := FirstIn(rules, it.supersedes);
    var id :| id in it.supersedes;
    var i :| 0 <= i < |rules| && rules[i].id == id;
    UsedApart(done, it, rules[p].id);
    assert SlotIn(rules, done, Slot(p, 0, rules[p]));
    k :| 0 <= k < |s| && s[k] == Slot(p, 0, rules[p]);
  }

  lemma ReplaceSlot(rules: seq<Rule>, done: seq<Item>, s: seq<Slot>, it: Item, at: nat)
    requires Tracks(rules, done, s) && NoLaterLoss(done + [it]) && Apart(done + [it])
    requires it.supersedes != {} && it.supersedes <= Ids(rules)
    requires at == FirstIn(RulesOf(s), it.supersedes)
    ensures var p := FirstIn(rules, it.supersedes); p < |rules| && at < |s| && s[at] == Slot(p, 0, rules[p])
  {
    hide SlotIn, Apart, NoLaterLoss, ItemSlot, RulesOf, Ordered;
    var k := FirstStands(rules, done, s, it);
    FirstSlot(s, it.supersedes, k);
    assert s[at] in s;
    SupersededIsOld(rules, done, it, s[at]);
    NotAfter(s, at, k);
  }

  lemma FirstSlot(s: seq<Slot>, ids: set<Text>, k: nat)
    requires k < |s| && s[k].rule.id in ids
    ensures FirstIn(RulesOf(s), ids) <= k && s[FirstIn(RulesOf(s), ids)].rule.id in ids
  {
    assert RulesOf(s)[k] == s[k].rule;
  }

  lemma NotAfter(s: seq<Slot>, i: nat, k: nat)
    requires Ordered(s) && i <= k < |s| && s[i].kind == s[k].kind == 0 && s[k].pos <= s[i].pos
    requires s[i].pos == s[k].pos ==> s[i].rule == s[k].rule
    ensures s[i] == s[k]
  {
    BeforeIrreflexive(s[k]);
    assert i < k ==> Before(s[i], s[k]);
  }

  lemma UsedApart(done: seq<Item>, it: Item, id: Text)
    requires id in it.supersedes
    ensures Apart(done + [it]) ==> id !in Used(done)
  {
    var all := done + [it];
    if id in Used(done) {
      var i :| 0 <= i < |done| && id in done[i].supersedes;
      assert id in all[i].supersedes && id in all[|done|].supersedes;
      assert !ItemsApart(all[i], all[|done|]);
    }
  }

  /** A slot whose rule is superseded holds an old rule, at or after the place of the new one. */
  lemma {:induction false} SupersededIsOld(rules: seq<Rule>, done: seq<Item>, it: Item, x: Slot)
    requires SlotIn(rules, done, x) && x.rule.id in it.supersedes
    ensures NoLaterLoss(done + [it]) ==>
              x.kind == 0 && FirstIn(rules, it.supersedes) <= x.pos < |rules| && x.rule == rules[x.pos]
  {
    var all := done + [it];
    if i :| 0 <= i < |done| && ItemSlot(rules, done[i]) == x {
      assert all[i].rule.id in all[|done|].supersedes;
    }
  }

  /** If a new rule's id is there already, the item itself supersedes it. */
  lemma NewNotThere(rules: seq<Rule>, done: seq<Item>, s: seq<Slot>, it: Item)
    requires Tracks(rules, done, s) && OldOnesGone(rules, done + [it]) && Apart(done + [it])
    ensures it.rule.id in Ids(RulesOf(s)) ==> it.rule.id in it.supersedes
  {
    var all, id := done + [it], it.rule.id;
    assert all[|done|] == it;
    if id in Ids(RulesOf(s)) {
      var k :| 0 <= k < |s| && RulesOf(s)[k].id == id;
      assert s[k] in s;
      MadeApart(rules, done, it, s[k]);
      assert rules[s[k].pos].id in Ids(rules);
      var i :| 0 <= i <= |done| && id in all[i].supersedes;
      UsedOrOwn(done, it, i, id);
    }
  }

  lemma UsedOrOwn(done: seq<Item>, it: Item, i: nat, id: Text)
    requires i <= |done| && id in (done + [it])[i].supersedes
    ensures id in Used(done) || id in it.supersedes
  {
    if i < |done| { assert id in done[i].supersedes; }
  }

  lemma MadeApart(rules: seq<Rule>, done: seq<Item>, it: Item, x: Slot)
    requires Apart(done + [it]) && SlotIn(rules, done, x) && x.rule.id == it.rule.id
    ensures x.pos < |rules| && x.rule == rules[x.pos] && x.rule.id !in Used(done)
  {
    var all := done + [it];
    forall i | 0 <= i < |done| ensures ItemSlot(rules, done[i]) != x {
      assert ItemsApart(all[i], all[|done|]);
    }
  }

  lemma SupersededThere(rules: seq<Rule>, done: seq<Item>, s: seq<Slot>, it: Item)
    requires Tracks(rules, done, s) && Apart(done + [it]) && it.supersedes <= Ids(rules)
    ensures it.supersedes <= Ids(RulesOf(s))
  {
    forall id | id in it.supersedes ensures id in Ids(RulesOf(s)) {
      var i :| 0 <= i < |rules| && rules[i].id == id;
      UsedApart(done, it, id);
      assert SlotIn(rules, done, Slot(i, 0, rules[i]));
      var k :| 0 <= k < |s| && s[k] == Slot(i, 0, rules[i]);
      assert RulesOf(s)[k].id == id;
    }
  }

  /** The slots after one more item: those it supersedes go, its own comes. */
  lemma SlotInStep(rules: seq<Rule>, done: seq<Item>, it: Item, x: Slot)
    requires Orderly(rules, done + [it]) && it.supersedes <= Ids(rules)
    ensures SlotIn(rules, done + [it], x) <==>
            x == ItemSlot(rules, it) || (SlotIn(rules, done, x) && x.rule.id !in it.supersedes)
  {
    var all := done + [it];
    assert all[..|done|] == done && all[|done|] == it && all[..|all|] == all;
    TakeOne(all, |done|);
    if i :| 0 <= i < |all| && ItemSlot(rules, all[i]) == x {
      if i < |done| { assert ItemSlot(rules, done[i]) == x && all[i].rule.id !in all[|done|].supersedes; }
    }
    if i :| 0 <= i < |done| && ItemSlot(rules, done[i]) == x {
      assert ItemSlot(rules, all[i]) == x && all[i].rule.id !in all[|done|].supersedes;
    }
    if x == ItemSlot(rules, it) { assert ItemSlot(rules, all[|done|]) == x; }
  }

  /** The slots after a replacement: its own slot stands where the first superseded one stood. */
  function Swapped(rules: seq<Rule>, s: seq<Slot>, it: Item, at: nat): seq<Slot> {
    var kept := Keep(s, it.supersedes);
    if at <= |kept| then kept[..at] + [ItemSlot(rules, it)] + kept[at..] else kept
  }

  lemma SwappedRules(rules: seq<Rule>, s: seq<Slot>, it: Item)
    requires it.supersedes != {} && it.supersedes <= Ids(RulesOf(s))
    requires it.rule.id in Ids(RulesOf(s)) ==> it.rule.id in it.supersedes
    ensures DeployRules(RulesOf(s), it.rule, it.supersedes) ==
            Ok(RulesOf(Swapped(rules, s, it, FirstIn(RulesOf(s), it.supersedes))))
  {
    hide Keep, Without;
    var at, kept := FirstIn(RulesOf(s), it.supersedes), Keep(s, it.supersedes);
    KeepRules(s, it.supersedes);
    WithoutFrom(RulesOf(s), it.supersedes);
    assert RulesOf(kept[..at] + [ItemSlot(rules, it)] + kept[at..]) ==
           RulesOf(kept)[..at] + [it.rule] + RulesOf(kept)[at..];
  }

  lemma SwappedHas(rules: seq<Rule>, done: seq<Item>, s: seq<Slot>, it: Item, at: nat)
    requires Tracks(rules, done, s) && Orderly(rules, done + [it]) && it.supersedes <= Ids(rules)
    requires at <= |Keep(s, it.supersedes)|
    ensures forall y :: y in Swapped(rules, s, it, at) <==> SlotIn(rules, done + [it], y)
  {
    var x, kept := ItemSlot(rules, it), Keep(s, it.supersedes);
    KeepHas(s, it.supersedes);
    assert kept == kept[..at] + kept[at..];
    forall y ensures y in Swapped(rules, s, it, at) <==> SlotIn(rules, done + [it], y) {
      SlotInStep(rules, done, it, y);
      assert y in Swapped(rules, s, it, at) <==> y == x || y in kept;
    }
  }

  lemma InsertedOrdered(kept: seq<Slot>, x: Slot, at: nat)
    requires Ordered(kept) && at <= |kept|
    requires forall i :: 0 <= i < at ==> Before(kept[i], x)
    requires forall j :: at <= j < |kept| ==> Before(x, kept[j])
    ensures Ordered(kept[..at] + [x] + kept[at..])
  {
    var t := kept[..at] + [x] + kept[at..];
    forall i, j | 0 <= i < j < |t| ensures Before(t[i], t[j]) {
      var p, q := if i <= at then i else i - 1, if j <= at then j else j - 1;
      assert i != at ==> t[i] == kept[p];
      assert j != at ==> t[j] == kept[q];
    }
  }

  lemma SwappedOrdered(rules: seq<Rule>, done: seq<Item>, s: seq<Slot>, it: Item, at: nat)
    requires Tracks(rules, done, s) && Apart(done + [it]) && it.supersedes != {}
    requires at < |s| && forall i :: 0 <= i < at ==> s[i].rule.id !in it.supersedes
    requires s[at].kind == 0 && s[at].pos == FirstIn(rules, it.supersedes) < |rules| && s[at].rule == rules[s[at].pos]
    ensures at <= |Keep(s, it.supersedes)| && Ordered(Swapped(rules, s, it, at))
  {
    hide Ordered, Keep;
    var x, kept := ItemSlot(rules, it), Keep(s, it.supersedes);
    KeepHas(s, it.supersedes);
    KeepFrom(s, it.supersedes, at);
    forall i | 0 <= i < at ensures Before(kept[i], x) { NeighbourBefore(rules, done, s, it, at, i); }
    forall j | at <= j < |kept| ensures Before(x, kept[j]) {
      assert kept[j] == Keep(s[at..], it.supersedes)[j - at];
      KeptAfter(rules, done, s, it, at, j - at);
    }
    InsertedOrdered(kept, x, at);
  }

  lemma KeptAfter(rules: seq<Rule>, done: seq<Item>, s: seq<Slot>, it: Item, at: nat, n: nat)
    requires Tracks(rules, done, s) && Apart(done + [it]) && it.supersedes != {}
    requires at < |s| && s[at].kind == 0 && s[at].pos == FirstIn(rules, it.supersedes) < |rules|
             && s[at].rule == rules[s[at].pos]
    requires n < |Keep(s[at..], it.supersedes)|
    ensures Before(ItemSlot(rules, it), Keep(s[at..], it.supersedes)[n])
  {
    var rest := Keep(s[at..], it.supersedes);
    assert rest[n] in rest;
    var k := KeptFrom(s, it.supersedes, at, rest[n]);
    NeighbourAfter(rules, done, s, it, at, k);
  }

  lemma KeptFrom(s: seq<Slot>, ids: set<Text>, at: nat, y: Slot) returns (k: nat)
    requires at <= |s| && y in Keep(s[at..], ids)
    ensures at <= k < |s| && s[k] == y && y.rule.id !in ids
  {
    KeepHas(s[at..], ids);
    var i :| 0 <= i < |s[at..]| && s[at..][i] == y;
    k := at + i;
  }

  lemma ReplaceStep(rules: seq<Rule>, done: seq<Item>, s: seq<Slot>, it: Item) returns (t: seq<Slot>)
    requires Tracks(rules, done, s) && DistinctIds(rules) && Orderly(rules, done + [it]) && Apart(done + [it])
    requires it.supersedes != {} && it.supersedes <= Ids(rules)
    ensures Tracks(rules, done + [it], t)
    ensures DeployRules(RulesOf(s), it.rule, it.supersedes) == Ok(RulesOf(t))
  {
    var at := FirstIn(RulesOf(s), it.supersedes);
    t := Swapped(rules, s, it, at);
    ReplaceSlot(rules, done, s, it, at);
    assert forall i :: 0 <= i < at ==> s[i].rule == RulesOf(s)[i];
    SwappedOrdered(rules, done, s, it, at);
    SwappedHas(rules, done, s, it, at);
    NewNotThere(rules, done, s, it);
    SupersededThere(rules, done, s, it);
    SwappedRules(rules, s, it);
  }

  lemma NeighbourBefore(rules: seq<Rule>, done: seq<Item>, s: seq<Slot>, it: Item, at: nat, i: nat)
    requires Tracks(rules, done, s) && i < at < |s|
    requires it.supersedes != {} && s[at].pos == FirstIn(rules, it.supersedes) && s[at].kind == 0
    ensures Before(s[i], ItemSlot(rules, it))
  {
    assert Before(s[i], s[at]);
  }

  lemma NeighbourAfter(rules: seq<Rule>, done: seq<Item>, s: seq<Slot>, it: Item, at: nat, j: nat)
    requires Tracks(rules, done, s) && at <= j < |s| && Apart(done + [it])
    requires it.supersedes != {} && s[at].kind == 0 && s[at].pos < |rules| && s[at].rule == rules[s[at].pos]
    requires s[at].pos == FirstIn(rules, it.supersedes) && s[j].rule.id !in it.supersedes
    ensures Before(ItemSlot(rules, it), s[j])
  {
    var p := s[at].pos;
    assert s[j] in s && rules[p].id in it.supersedes;
    UsedApart(done, it, rules[p].id);
    assert j != at && Before(s[at], s[j]);
    if s[j].kind != 0 {
      var i :| 0 <= i < |done| && ItemSlot(rules, done[i]) == s[j];
      if s[j].pos < |rules| { assert rules[s[j].pos].id in done[i].supersedes; }
    }
  }

  lemma AddStep(rules: seq<Rule>, done: seq<Item>, s: seq<Slot>, it: Item) returns (t: seq<Slot>)
    requires Tracks(rules, done, s) && Orderly(rules, done + [it]) && Apart(done + [it]) && Staged(done + [it])
    requires it.supersedes == {}
    ensures Tracks(rules, done + [it], t)
    ensures DeployRules(RulesOf(s), it.rule, it.supersedes) == Ok(RulesOf(t))
  {
    var x := ItemSlot(rules, it);
    t := s + [x];
    NewNotThere(rules, done, s, it);
    assert RulesOf(t) == RulesOf(s) + [it.rule];
    forall y ensures y in t <==> SlotIn(rules, done + [it], y) { SlotInStep(rules, done, it, y); }
    forall i | 0 <= i < |s| ensures Before(s[i], x) {
      assert s[i] in s;
      if s[i].kind == 2 {
        var j :| 0 <= j < |done| && ItemSlot(rules, done[j]) == s[i];
        var all := done + [it];
        assert all[j] == done[j] && all[|done|] == it;
      }
    }
  }

  lemma {:induction false} DeployAllTracks(rules: seq<Rule>, items: seq<Item>) returns (s: seq<Slot>)
    requires DistinctIds(rules) && Apart(items) && Orderly(rules, items) && Staged(items)
    requires forall i :: 0 <= i < |items| ==> items[i].supersedes <= Ids(rules)
    ensures Tracks(rules, items, s) && DeployAll(rules, items) == Ok(RulesOf(s))
    decreases |items|
  {
    if items == [] {
      s := Survivors(rules, {}, |rules|);
      SurvivorsHas(rules, {}, |rules|);
      AllSurvive(rules, |rules|);
      assert Used([]) == {};
      assert RulesOf(s) == rules;
    } else {
      var done, it := items[..|items| - 1], items[|items| - 1];
      assert done + [it] == items;
      assert forall i :: 0 <= i < |done| ==> done[i] == items[i];
      var before := DeployAllTracks(rules, done);
      if it.supersedes == {} {
        s := AddStep(rules, done, before, it);
      } else {
        s := ReplaceStep(rules, done, before, it);
      }
    }
  }

  lemma {:induction false} AllSurvive(rules: seq<Rule>, n: nat)
    requires n <= |rules|
    ensures |Survivors(rules, {}, n)| == n
    ensures forall i :: 0 <= i < n ==> Survivors(rules, {}, n)[i] == Slot(i, 0, rules[i])
  {
    if n > 0 { AllSurvive(rules, n - 1); }
  }

  lemma {:induction false} FailsEarly(rules: seq<Rule>, items: seq<Item>, n: nat)
    requires n <= |items| && DeployAll(rules, items[..n]).Err?
    ensures DeployAll(rules, items) == DeployAll(rules, items[..n])
    decreases |items|
  {
    if n == |items| {
      assert items[..n] == items;
    } else {
      var init := items[..|items| - 1];
      assert init[..n] == items[..n];
      FailsEarly(rules, init, n);
    }
  }

  /** Up to the first rule that a later item supersedes, the order is a good one. */
  lemma OrderlyUpTo(rules: seq<Rule>, items: seq<Item>, n: nat)
    requires n <= |items| && NewIds(items) * (Ids(rules) - Used(items)) == {}
    requires forall i, j :: 0 <= i < n && i < j < |items| ==> items[i].rule.id !in items[j].supersedes
    ensures Orderly(rules, items[..n])
  {
    var front := items[..n];
    forall i | 0 <= i < n && front[i].rule.id in Ids(rules)
      ensures exists k :: 0 <= k <= i && front[i].rule.id in front[k].supersedes
    {
      var id := items[i].rule.id;
      assert id in NewIds(items) && id !in NewIds(items) * (Ids(rules) - Used(items));
      var k :| 0 <= k < |items| && id in items[k].supersedes;
      assert k <= i && id in front[k].supersedes;
    }
  }

  lemma FirstLoss(items: seq<Item>) returns (i: nat, j: nat)
    requires !NoLaterLoss(items)
    ensures i < j < |items| && items[i].rule.id in items[j].supersedes
    ensures forall a, b :: 0 <= a < i && a < b < |items| ==> items[a].rule.id !in items[b].supersedes
  {
    var m, n :| 0 <= m < n < |items| && items[m].rule.id in items[n].supersedes;
    i := 0;
    while forall b :: i < b < |items| ==> items[i].rule.id !in items[b].supersedes
      invariant i <= m
      decreases m - i
      invariant forall a, b :: 0 <= a < i && a < b < |items| ==> items[a].rule.id !in items[b].supersedes
    {
      i := i + 1;
    }
    j :| i < j < |items| && items[i].rule.id in items[j].supersedes;
  }

  lemma FrontApart(items: seq<Item>, n: nat, k: nat)
    requires Apart(items) && n <= k < |items|
    ensures Apart(items[..n] + [items[k]])
  {
    var front := items[..n] + [items[k]];
    forall i, j | 0 <= i < j < |front| ensures ItemsApart(front[i], front[j]) {
      assert front[i] == items[i] && front[j] == if j < n then items[j] else items[k];
    }
  }

  /** The first item to make a rule that a later one supersedes finds that rule still there. */
  lemma LossIsRefused(rules: seq<Rule>, items: seq<Item>)
    requires DistinctIds(rules) && Acceptable(rules, items) && Staged(items) && !NoLaterLoss(items)
    ensures DeployAll(rules, items) == Err(EditDuplicate)
  {
    var i, j := FirstLoss(items);
    assert items[i].rule.id in NewIds(items) && Applies(Ids(rules), items[j]);
    StillThere(rules, items, i, j);
    var more := items[..i + 1];
    assert more[..|more| - 1] == items[..i] && more[|more| - 1] == items[i];
    FailsEarly(rules, items, i + 1);
  }

  lemma StillThere(rules: seq<Rule>, items: seq<Item>, i: nat, j: nat)
    requires DistinctIds(rules) && Acceptable(rules, items) && Staged(items)
    requires i < j < |items| && items[i].rule.id in items[j].supersedes
    requires forall a, b :: 0 <= a < i && a < b < |items| ==> items[a].rule.id !in items[b].supersedes
    ensures DeployAll(rules, items[..i]).Ok?
    ensures DeployRules(DeployAll(rules, items[..i]).value, items[i].rule, items[i].supersedes) == Err(EditDuplicate)
  {
    var done, it := items[..i], items[i];
    OrderlyUpTo(rules, items, i);
    assert forall k :: 0 <= k < |items| ==> Applies(Ids(rules), items[k]);
    assert ItemsApart(it, items[j]);
    FrontApart(items, i, i);
    FrontApart(items, i, j);
    var s := DeployAllTracks(rules, done);
    hide Apart, Acceptable, Tracks, Staged, Orderly, Applies;
    SupersededThere(rules, done, s, it);
    SupersededThere(rules, done, s, items[j]);
  }

  /**
   Of the orders that take replacements first and then additions by rule id, exactly those in
   which no item makes a rule that a later one supersedes leave, one by one, what the bundle
   leaves at once. Every other such order is refused.
   */
  lemma BundleIsOneByOne(rules: seq<Rule>, items: seq<Item>, order: seq<Item>)
    requires DistinctIds(rules) && Bundle(rules, items).Ok?
    requires multiset(order) == multiset(items) && Staged(order)
    ensures DeployAll(rules, order) == Bundle(rules, items) <==> NoLaterLoss(order)
    ensures !NoLaterLoss(order) ==> DeployAll(rules, order) == Err(EditDuplicate)
  {
    BundleAcceptsExactly(rules, items);
    AcceptablePermutes(rules, items, order);
    if NoLaterLoss(order) {
      BundleRulesPermute(rules, items, order);
      assert order[..|order|] == order;
      OrderlyUpTo(rules, order, |order|);
      assert forall i :: 0 <= i < |order| ==> Applies(Ids(rules), order[i]);
      var s := DeployAllTracks(rules, order);
      BundleSlots(rules, order);
      OrderedUnique(s, Sort(Placed(rules, order)));
    } else {
      LossIsRefused(rules, order);
    }
  }

  function Exchange(a: Rule, b: Rule): seq<Item> {
    [Entry("1", b, {a.id}), Entry("2", a, {b.id})]
  }

  lemma ExchangeSlots(a: Rule, b: Rule)
    requires a.id != b.id
    ensures BundleRules([a, b], Exchange(a, b)) == [b, a]
  {
    var rules, items, s := [a, b], Exchange(a, b), [Slot(0, 1, b), Slot(1, 1, a)];
    assert rules[1..] == [b];
    assert FirstIn(rules, {a.id}) == 0 && FirstIn(rules, {b.id}) == 1;
    assert ItemSlot(rules, items[0]) == s[0] && ItemSlot(rules, items[1]) == s[1];
    assert a.id in items[0].supersedes && b.id in items[1].supersedes;
    BundleSlots(rules, items);
    forall z ensures z in s <==> SlotIn(rules, items, z) { }
    OrderedUnique(s, Sort(Placed(rules, items)));
  }

  lemma ExchangeAccepted(a: Rule, b: Rule)
    requires a.id != b.id
    ensures Bundle([a, b], Exchange(a, b)) == Ok([b, a])
  {
    var rules, items := [a, b], Exchange(a, b);
    ExchangeSlots(a, b);
    assert rules[0].id in Ids(rules) && rules[1].id in Ids(rules);
    assert Used(items) == {a.id, b.id} by { assert a.id in items[0].supersedes && b.id in items[1].supersedes; }
    assert [b, a][0] != rules[0];
    hide BundleRules;
    BundleAcceptsExactly(rules, items);
  }

  /** A bundle may exchange two rules, which no order of single deployments can. */
  lemma ExchangeNeedsBundle(a: Rule, b: Rule)
    requires a.id != b.id
    ensures Bundle([a, b], Exchange(a, b)) == Ok([b, a])
    ensures DeployAll([a, b], Exchange(a, b)) == Err(EditDuplicate)
    ensures DeployAll([a, b], [Exchange(a, b)[1], Exchange(a, b)[0]]) == Err(EditDuplicate)
  {
    var items := Exchange(a, b);
    var turned := [items[1], items[0]];
    ExchangeAccepted(a, b);
    assert items[0].rule.id in items[1].supersedes && turned[0].rule.id in turned[1].supersedes;
    assert multiset(turned) == multiset(items);
    hide Bundle, DeployAll;
    BundleIsOneByOne([a, b], items, items);
    BundleIsOneByOne([a, b], items, turned);
  }
}
