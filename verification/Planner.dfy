/**
 Which rules a deployment leaves in a document: one rule at a time, or a bundle at once.
 */
module Planner {
  import opened Prelude
  import opened Strings
  import opened Instructions

  // ------------------------------------------------------------------ one rule

  /** The first rule whose id is in the set, or the number of rules. */
  function FirstIn(rules: seq<Rule>, ids: set<Text>): (k: nat)
    ensures k <= |rules| && (k < |rules| ==> rules[k].id in ids)
    ensures forall j :: 0 <= j < k ==> rules[j].id !in ids
  {
    if rules == [] || rules[0].id in ids then 0 else 1 + FirstIn(rules[1..], ids)
  }

  function Without(rules: seq<Rule>, ids: set<Text>): (kept: seq<Rule>)
    ensures |kept| <= |rules|
  {
    if rules == [] then []
    else if rules[0].id in ids then Without(rules[1..], ids)
    else [rules[0]] + Without(rules[1..], ids)
  }

  lemma {:induction false} WithoutFrom(rules: seq<Rule>, ids: set<Text>)
    ensures var k := FirstIn(rules, ids); Without(rules, ids) == rules[..k] + Without(rules[k..], ids)
  {
    if rules != [] && rules[0].id !in ids {
      WithoutFrom(rules[1..], ids);
      var k := FirstIn(rules[1..], ids);
      assert rules[1..][k..] == rules[k + 1..];
      assert [rules[0]] + rules[1..][..k] == rules[..k + 1];
    }
  }

  function DeployRules(rules: seq<Rule>, r: Rule, supersedes: set<Text>): Result<seq<Rule>, Error> {
    if supersedes == {} then
      if r.id in Ids(rules) then Ok(rules) else Ok(rules + [r])
    else if !(supersedes <= Ids(rules)) then Err(RevisionInvalid)
    else if r.id in Ids(rules) && r.id !in supersedes then Err(EditDuplicate)
    else
      var k := FirstIn(rules, supersedes);
      WithoutFrom(rules, supersedes);
      var kept := Without(rules, supersedes);
      Ok(kept[..k] + [r] + kept[k..])
  }

  ghost predicate Precedes(rules: seq<Rule>, x: Rule, y: Rule) {
    exists a, b :: 0 <= a < b < |rules| && rules[a] == x && rules[b] == y
  }

  // ------------------------------------------------------------------ a bundle

  /** One entry of a bundle: its card, the rule it makes, and what stands for the rules it supersedes. */
  datatype Entry<+S> = Entry(card: Text, rule: Rule, supersedes: S)

  type Item = Entry<set<Text>>

  /** Where a rule goes: a position in the old list, and what happens there. */
  datatype Slot = Slot(pos: nat, kind: nat, rule: Rule)

  predicate Before(a: Slot, b: Slot) {
    || a.pos < b.pos
    || (a.pos == b.pos && (a.kind < b.kind || (a.kind == b.kind && LexLess(a.rule.id, b.rule.id))))
  }

  function Insert(s: seq<Slot>, x: Slot): seq<Slot> {
    if s == [] || Before(x, s[0]) then [x] + s else [s[0]] + Insert(s[1..], x)
  }

  function Sort(s: seq<Slot>): seq<Slot> {
    if s == [] then [] else Insert(Sort(s[1..]), s[0])
  }

  function RulesOf(s: seq<Slot>): (rules: seq<Rule>)
    ensures |rules| == |s|
  {
    seq(|s|, i requires 0 <= i < |s| => s[i].rule)
  }

  function Used(items: seq<Item>): set<Text> {
    set i, x | 0 <= i < |items| && x in items[i].supersedes :: x
  }

  /** The old rules that no item supersedes, each at its own place. */
  function Survivors(rules: seq<Rule>, used: set<Text>, n: nat): seq<Slot>
    requires n <= |rules|
  {
    if n == 0 then []
    else Survivors(rules, used, n - 1) + if rules[n - 1].id in used then [] else [Slot(n - 1, 0, rules[n - 1])]
  }

  function ItemSlot(rules: seq<Rule>, it: Item): Slot {
    if it.supersedes == {} then Slot(|rules|, 2, it.rule) else Slot(FirstIn(rules, it.supersedes), 1, it.rule)
  }

  function Placed(rules: seq<Rule>, items: seq<Item>): seq<Slot> {
    Survivors(rules, Used(items), |rules|) + seq(|items|, i requires 0 <= i < |items| => ItemSlot(rules, items[i]))
  }

  function BundleRules(rules: seq<Rule>, items: seq<Item>): seq<Rule> {
    RulesOf(Sort(Placed(rules, items)))
  }

  /** Entries in the order of their cards; equal cards keep their order. */
  function InsertItem<S>(s: seq<Entry<S>>, x: Entry<S>): seq<Entry<S>> {
    if s == [] || !LexLess(s[0].card, x.card) then [x] + s else [s[0]] + InsertItem(s[1..], x)
  }

  function ByCard<S>(items: seq<Entry<S>>): seq<Entry<S>> {
    if items == [] then [] else InsertItem(ByCard(items[1..]), items[0])
  }

  function NewIds(items: seq<Item>): set<Text> {
    set i | 0 <= i < |items| :: items[i].rule.id
  }

  /** What is wrong with one item, given the items already accepted. */
  function VetItem(originals: set<Text>, it: Item, taken: set<Text>, used: set<Text>): Option<Error> {
    if it.rule.id in taken then Some(InvalidBundle)
    else if used * it.supersedes != {} then Some(InvalidBundle)
    else if !(it.supersedes <= originals) then Some(RevisionStale)
    else if it.supersedes == {} && it.rule.id in originals then Some(NotApplicable)
    else if it.supersedes == {it.rule.id} then Some(NotApplicable)
    else None
  }

  /** The first complaint about the items from number `k` on. */
  function Vet(originals: set<Text>, items: seq<Item>, k: nat): Option<Error>
    requires k <= |items|
    decreases |items| - k
  {
    if k == |items| then None
    else
      var e := VetItem(originals, items[k], NewIds(items[..k]), Used(items[..k]));
      if e.Some? then e else Vet(originals, items, k + 1)
  }

  function Bundle(rules: seq<Rule>, unsorted: seq<Item>): Result<seq<Rule>, Error> {
    BundleOf(rules, ByCard(unsorted))
  }

  function BundleOf(rules: seq<Rule>, items: seq<Item>): Result<seq<Rule>, Error> {
    var complaint := Vet(Ids(rules), items, 0);
    if items == [] then Err(InvalidBundle)
    else if complaint.Some? then Err(complaint.value)
    else if NewIds(items) * (Ids(rules) - Used(items)) != {} then Err(EditDuplicate)
    else
      var current := BundleRules(rules, items);
      if |Ids(current)| != |current| then Err(InvalidBundle)
      else if current == rules then Err(NotApplicable)
      else Ok(current)
  }

  // ------------------------------------------------------------------ superseded ids as a caller gives them

  /** Nothing, one text, or several. */
  datatype Given = Nothing | Single(id: Text) | Several(ids: seq<Text>)

  type Request = Entry<Given>

  /** The texts given, blanks around them dropped. */
  function Listed(given: Given): seq<Text> {
    match given
    case Nothing => []
    case Single(id) => [Strip(id)]
    case Several(ids) => seq(|ids|, i requires 0 <= i < |ids| => Strip(ids[i]))
  }

  function NormalizeSupersedes(given: Given): Result<set<Text>, Error> {
    var ids := Listed(given);
    var meant := set id | id in ids;
    if exists id :: id in ids && !IsRuleId(id) then Err(InvalidRuleId)
    else if |meant| != |ids| then Err(RevisionInvalid)
    else Ok(meant)
  }

  lemma {:induction false} DistinctCount(ids: seq<Text>)
    ensures |set id | id in ids| <= |ids|
    ensures |set id | id in ids| == |ids| <==> Distinct(ids)
  {
    if ids != [] {
      var n := |ids| - 1;
      var head, last := ids[..n], ids[n];
      DistinctCount(head);
      assert ids == head + [last];
      assert (set id | id in ids) == (set id | id in head) + {last};
      if last in head {
        assert (set id | id in ids) == (set id | id in head);
      } else {
        assert forall i :: 0 <= i < n ==> ids[i] in head;
        assert Distinct(head) ==> Distinct(ids);
      }
      assert forall i :: 0 <= i < n ==> head[i] == ids[i];
    }
  }

  /** Ids are read exactly when every one is well formed and none comes twice, trimmed; their order is lost. */
  lemma NormalizesExactly(given: Given)
    ensures var r, ids := NormalizeSupersedes(given), Listed(given);
            && (r.Ok? <==> Distinct(ids) && forall i :: 0 <= i < |ids| ==> IsRuleId(ids[i]))
            && (r.Ok? ==> |r.value| == |ids| && forall id :: id in r.value <==> id in ids)
            && (r == Err(InvalidRuleId) <==> exists i :: 0 <= i < |ids| && !IsRuleId(ids[i]))
  {
    DistinctCount(Listed(given));
  }

  function ReadItem(q: Request): Result<Item, Error> {
    match NormalizeSupersedes(q.supersedes)
    case Ok(ids) => Ok(Entry(q.card, q.rule, ids))
    case Err(e) => Err(e)
  }

  predicate AllRead(requests: seq<Request>) {
    forall i :: 0 <= i < |requests| ==> ReadItem(requests[i]).Ok?
  }

  function ReadItems(requests: seq<Request>): seq<Item>
    requires AllRead(requests)
  {
    seq(|requests|, i requires 0 <= i < |requests| => ReadItem(requests[i]).value)
  }

  /** How many requests come before the first that cannot be read. */
  function Readable(requests: seq<Request>): (k: nat)
    ensures k <= |requests| && AllRead(requests[..k]) && (k < |requests| ==> ReadItem(requests[k]).Err?)
  {
    if requests == [] || ReadItem(requests[0]).Err? then 0
    else
      var k := Readable(requests[1..]);
      assert requests[..k + 1] == [requests[0]] + requests[1..][..k];
      k + 1
  }

  /** The first complaint: about an item read so far, or about the first that cannot be read. */
  function VetRequests(originals: set<Text>, requests: seq<Request>): (r: Option<Error>)
    ensures r.None? ==> AllRead(requests)
  {
    var k := Readable(requests);
    assert k == |requests| ==> requests[..k] == requests;
    var complaint := Vet(originals, ReadItems(requests[..k]), 0);
    if complaint.Some? then complaint
    else if k < |requests| then Some(ReadItem(requests[k]).error)
    else None
  }

  function BundleRequests(rules: seq<Rule>, unsorted: seq<Request>): Result<seq<Rule>, Error> {
    var requests := ByCard(unsorted);
    var complaint := VetRequests(Ids(rules), requests);
    if requests == [] then Err(InvalidBundle)
    else if complaint.Some? then Err(complaint.value)
    else BundleOf(rules, ReadItems(requests))
  }

  // ------------------------------------------------------------------ the planner's loops

  method VetItems(originals: set<Text>, requests: seq<Request>)
    returns (complaint: Option<Error>, items: seq<Item>, taken: set<Text>, used: set<Text>)
    ensures complaint == VetRequests(originals, requests)
    ensures complaint.None? ==> AllRead(requests) && items == ReadItems(requests) && Vet(originals, items, 0).None?
    ensures complaint.None? ==> taken == NewIds(items) && used == Used(items)
  {
    hide NormalizeSupersedes, VetItem;
    ghost var all := ReadItems(requests[..Readable(requests)]);
    items, taken, used := [], {}, {};
    var k := 0;
    while k < |requests|
      invariant 0 <= k <= |all| && items == all[..k]
      invariant taken == NewIds(all[..k]) && used == Used(all[..k])
      invariant Vet(originals, all, 0) == Vet(originals, all, k)
    {
      var read := ReadItem(requests[k]);
      if read.Err? {
        return Some(read.error), items, taken, used;
      }
      var it := read.value;
      complaint := VetItem(originals, it, taken, used);
      if complaint.Some? {
        return;
      }
      TakeOne(all, k);
      items, taken, used := items + [it], taken + {it.rule.id}, used + it.supersedes;
      k := k + 1;
    }
    assert all[..|all|] == all && requests[..|requests|] == requests;
    complaint := None;
  }

  method PlaceItems(rules: seq<Rule>, items: seq<Item>, used: set<Text>) returns (positioned: seq<Slot>)
    requires used == Used(items)
    ensures positioned == Placed(rules, items)
  {
    positioned := [];
    var i := 0;
    while i < |rules|
      invariant 0 <= i <= |rules|
      invariant positioned == Survivors(rules, used, i)
    {
      if rules[i].id !in used {
        positioned := positioned + [Slot(i, 0, rules[i])];
      }
      i := i + 1;
    }
    ghost var survivors := positioned;
    i := 0;
    while i < |items|
      invariant 0 <= i <= |items|
      invariant positioned == survivors + seq(i, j requires 0 <= j < i => ItemSlot(rules, items[j]))
    {
      var it := items[i];
      if it.supersedes != {} {
        positioned := positioned + [Slot(FirstIn(rules, it.supersedes), 1, it.rule)];
      } else {
        positioned := positioned + [Slot(|rules|, 2, it.rule)];
      }
      i := i + 1;
    }
  }

  method PlanBundle(rules: seq<Rule>, unsorted: seq<Request>) returns (r: Result<seq<Rule>, Error>)
    ensures r == BundleRequests(rules, unsorted)
  {
    var requests := ByCard(unsorted);
    if requests == [] {
      return Err(InvalidBundle);
    }
    var complaint, items, taken, used := VetItems(Ids(rules), requests);
    if complaint.Some? {
      return Err(complaint.value);
    }
    if taken * (Ids(rules) - used) != {} {
      return Err(EditDuplicate);
    }
    var positioned := PlaceItems(rules, items, used);
    var current := RulesOf(Sort(positioned));
    if |Ids(current)| != |current| {
      return Err(InvalidBundle);
    }
    if current == rules {
      return Err(NotApplicable);
    }
    return Ok(current);
  }

  lemma TakeOne(items: seq<Item>, k: nat)
    requires k < |items|
    ensures NewIds(items[..k + 1]) == NewIds(items[..k]) + {items[k].rule.id}
    ensures Used(items[..k + 1]) == Used(items[..k]) + items[k].supersedes
  {
    var a, b := items[..k], items[..k + 1];
    assert forall j :: 0 <= j < k ==> b[j] == a[j];
    assert b[k] == items[k];
    forall x ensures x in NewIds(b) <==> x in NewIds(a) || x == items[k].rule.id {
      if x in NewIds(a) { var j :| 0 <= j < k && a[j].rule.id == x; assert b[j].rule.id == x; }
    }
    forall x ensures x in Used(b) <==> x in Used(a) || x in items[k].supersedes {
      if x in Used(a) { var j :| 0 <= j < k && x in a[j].supersedes; assert x in b[j].supersedes; }
      if x in items[k].supersedes { assert x in b[k].supersedes; }
    }
  }

  lemma {:induction false} InsertItemKeeps<S>(s: seq<Entry<S>>, x: Entry<S>)
    ensures multiset(InsertItem(s, x)) == multiset(s) + multiset{x}
  {
    if s != [] && LexLess(s[0].card, x.card) {
      InsertItemKeeps(s[1..], x);
      assert s == [s[0]] + s[1..];
    }
  }

  lemma {:induction false} ByCardKeeps<S>(items: seq<Entry<S>>)
    ensures multiset(ByCard(items)) == multiset(items)
    ensures |ByCard(items)| == |items|
  {
    if items != [] {
      ByCardKeeps(items[1..]);
      InsertItemKeeps(ByCard(items[1..]), items[0]);
      assert items == [items[0]] + items[1..];
    }
    assert |multiset(ByCard(items))| == |ByCard(items)| && |multiset(items)| == |items|;
  }

  // ------------------------------------------------------------------ reading and sorting

  lemma {:induction false} ReadInserted(s: seq<Request>, x: Request)
    requires AllRead(s) && ReadItem(x).Ok?
    ensures AllRead(InsertItem(s, x)) && ReadItems(InsertItem(s, x)) == InsertItem(ReadItems(s), ReadItem(x).value)
  {
    hide LexLess, NormalizeSupersedes;
    var item := ReadItem(x).value;
    assert item.card == x.card;
    if s != [] {
      assert ReadItems(s)[0].card == s[0].card;
    }
    if s != [] && LexLess(s[0].card, x.card) {
      ReadInserted(s[1..], x);
      assert ReadItems(s)[1..] == ReadItems(s[1..]);
      assert ReadItems([s[0]] + InsertItem(s[1..], x)) == [ReadItems(s)[0]] + ReadItems(InsertItem(s[1..], x));
    } else {
      assert ReadItems([x] + s) == [item] + ReadItems(s);
    }
  }

  /** Reading keeps the order of the cards. */
  lemma {:induction false} ReadSorted(s: seq<Request>)
    requires AllRead(s)
    ensures AllRead(ByCard(s)) && ReadItems(ByCard(s)) == ByCard(ReadItems(s))
  {
    if s != [] {
      ReadSorted(s[1..]);
      ReadInserted(ByCard(s[1..]), s[0]);
      assert ReadItems(s)[1..] == ReadItems(s[1..]);
    }
  }

  lemma UnreadSorted(s: seq<Request>)
    requires AllRead(ByCard(s))
    ensures AllRead(s)
  {
    ByCardKeeps(s);
    forall i | 0 <= i < |s| ensures ReadItem(s[i]).Ok? {
      assert s[i] in multiset(s) && s[i] in multiset(ByCard(s));
    }
  }
}
