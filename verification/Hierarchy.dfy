/** The parent chains of engineering advice cards. */
module Hierarchy {
  import opened Prelude

  datatype Card = Card(id: Text, engineering: bool, parent: Option<Text>)

  type Parents = map<Text, Option<Text>>

  /** The engineering cards by id; of two cards with one id the later counts. */
  function Engineering(cards: seq<Card>): Parents {
    if cards == [] then map[]
    else
      var init, last := Engineering(cards[..|cards| - 1]), cards[|cards| - 1];
      if last.engineering then init[last.id := last.parent] else init
  }

  /** Following parents for `n` steps stays among the cards and arrives at one without a parent. */
  ghost predicate Ends(parents: Parents, id: Text, n: nat)
    decreases n
  {
    id in parents && if parents[id].None? then true else n > 0 && Ends(parents, parents[id].value, n - 1)
  }

  ghost predicate Rooted(parents: Parents, id: Text) {
    exists n: nat :: Ends(parents, id, n)
  }

  /** Every chain of parents stays among the cards and ends. */
  ghost predicate Forest(parents: Parents) {
    forall id :: id in parents ==> Rooted(parents, id)
  }

  lemma RootedStep(parents: Parents, id: Text)
    requires id in parents && parents[id].Some?
    ensures Rooted(parents, id) <==> Rooted(parents, parents[id].value)
  {
    if n: nat :| Ends(parents, id, n) { assert Ends(parents, parents[id].value, n - 1); }
    if n: nat :| Ends(parents, parents[id].value, n) {
      var more := n + 1;
      assert Ends(parents, id, more);
    }
  }

  /** A set of cards whose parents lie in the set has no way out. */
  lemma {:induction false} TrappedNeverEnds(parents: Parents, trap: set<Text>, id: Text, n: nat)
    requires forall x :: x in trap && x in parents ==> parents[x].Some? && parents[x].value in trap
    requires id in trap
    ensures !Ends(parents, id, n)
    decreases n
  {
    if n > 0 && id in parents { TrappedNeverEnds(parents, trap, parents[id].value, n - 1); }
  }

  /** The cards passed so far, each the parent of the one before. */
  ghost predicate Chain(parents: Parents, chain: seq<Text>) {
    && chain != [] && (forall i :: 0 <= i < |chain| ==> chain[i] in parents)
    && forall i :: 0 <= i < |chain| - 1 ==> parents[chain[i]] == Some(chain[i + 1])
  }

  lemma {:induction false} ChainRooted(parents: Parents, chain: seq<Text>)
    requires Chain(parents, chain)
    ensures Rooted(parents, chain[0]) <==> Rooted(parents, chain[|chain| - 1])
    decreases |chain|
  {
    if |chain| > 1 {
      assert Chain(parents, chain[1..]);
      ChainRooted(parents, chain[1..]);
      RootedStep(parents, chain[0]);
    }
  }

  /** A chain that meets itself never ends. */
  lemma LoopNotRooted(parents: Parents, chain: seq<Text>, k: nat)
    requires Chain(parents, chain) && k < |chain| && parents[chain[|chain| - 1]] == Some(chain[k])
    ensures !Rooted(parents, chain[|chain| - 1])
  {
    var trap := set i | k <= i < |chain| :: chain[i];
    forall x | x in trap ensures parents[x].Some? && parents[x].value in trap {
      var i :| k <= i < |chain| && chain[i] == x;
      if i < |chain| - 1 { assert chain[i + 1] in trap; } else { assert chain[k] in trap; }
    }
    var last := chain[|chain| - 1];
    assert last in trap;
    forall n: nat ensures !Ends(parents, last, n) { TrappedNeverEnds(parents, trap, last, n); }
  }

  method WalkUp(parents: Parents, id: Text) returns (ok: bool)
    requires id in parents
    ensures ok <==> Rooted(parents, id)
  {
    var seen := {id};
    var parent := parents[id];
    ghost var chain := [id];
    while parent.Some?
      invariant Chain(parents, chain) && chain[0] == id && parents[chain[|chain| - 1]] == parent
      invariant seen <= parents.Keys && forall x :: x in seen <==> x in chain
      decreases parents.Keys - seen
    {
      if parent.value !in parents {
        ChainRooted(parents, chain);
        RootedStep(parents, chain[|chain| - 1]);
        return false;
      }
      if parent.value in seen {
        ghost var k :| 0 <= k < |chain| && chain[k] == parent.value;
        LoopNotRooted(parents, chain, k);
        ChainRooted(parents, chain);
        return false;
      }
      seen := seen + {parent.value};
      chain := chain + [parent.value];
      parent := parents[parent.value];
    }
    ChainRooted(parents, chain);
    assert Ends(parents, chain[|chain| - 1], 0);
    ok := true;
  }

  /** The check accepts exactly the cards whose parent chains all end among them. */
  method ValidateHierarchy(cards: seq<Card>) returns (ok: bool)
    ensures ok <==> Forest(Engineering(cards))
  {
    var parents := Engineering(cards);
    var rest := parents.Keys;
    while rest != {}
      invariant rest <= parents.Keys
      invariant forall id :: id in parents && id !in rest ==> Rooted(parents, id)
    {
      var id :| id in rest;
      ok := WalkUp(parents, id);
      if !ok {
        return;
      }
      rest := rest - {id};
    }
    ok := true;
  }

  /** With distinct ids, the cards the check looks at are exactly the engineering cards given. */
  lemma {:induction false} EngineeringHas(cards: seq<Card>)
    requires forall i, j :: 0 <= i < j < |cards| ==> cards[i].id != cards[j].id
    ensures forall id, parent :: (id in Engineering(cards) && Engineering(cards)[id] == parent) <==>
            Card(id, true, parent) in cards
  {
    if cards != [] {
      var init, last := cards[..|cards| - 1], cards[|cards| - 1];
      EngineeringHas(init);
      assert cards == init + [last];
      assert forall i :: 0 <= i < |init| ==> init[i] == cards[i] && init[i].id != last.id;
      assert forall x :: x in init ==> x.id != last.id;
    }
  }
}
