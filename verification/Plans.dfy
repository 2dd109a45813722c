/** Deploying and revoking rules on a document: reading it, choosing the rules, replacing the block. */
module Plans {
  import opened Prelude
  import opened Strings
  import opened Instructions
  import opened RoundTrip
  import opened Replacement
  import opened Planner
  import Bundles

  function PlanDeploy(f: Format, target: Target, data: Text, r: Rule, supersedes: set<Text>): Result<Text, Error>
    requires UsableFormat(f)
  {
    match Parse(f, target, data)
    case Err(e) => Err(e)
    case Ok(p) =>
      if r.target != target then Err(TargetMismatch)
      else
        match DeployRules(p.rules, r, supersedes)
        case Err(e) => Err(e)
        case Ok(rules) => PlanReplace(f, target, data, rules)
  }

  function PlanDeployBundle(f: Format, target: Target, data: Text, items: seq<Item>): Result<Text, Error>
    requires UsableFormat(f)
  {
    match Parse(f, target, data)
    case Err(e) => Err(e)
    case Ok(p) =>
      if exists i :: 0 <= i < |items| && items[i].rule.target != target then Err(InvalidBundle)
      else
        match Bundle(p.rules, items)
        case Err(e) => Err(e)
        case Ok(rules) => PlanReplace(f, target, data, rules)
  }

  function PlanRevoke(f: Format, target: Target, data: Text, id: Text): Result<Text, Error>
    requires UsableFormat(f)
  {
    match Parse(f, target, data)
    case Err(e) => Err(e)
    case Ok(p) =>
      if id !in Ids(p.rules) then Err(RuleNotFound)
      else PlanReplace(f, target, data, Without(p.rules, {id}))
  }

  // ------------------------------------------------------------------ what parsing guarantees

  ghost predicate Stable(f: Format, x: Text) {
    f.norm(f.norm(x)) == f.norm(x)
  }

  /** Normalising twice is normalising once. */
  ghost predicate Idempotent(f: Format) {
    forall x :: Stable(f, x)
  }

  lemma CreateMakesGood(f: Format, target: Target, trigger: Text, action: Text, skip: Text)
    requires Idempotent(f)
    ensures Create(f, target, trigger, action, skip).Ok? ==>
              GoodRule(f, target, Create(f, target, trigger, action, skip).value)
  {
    assert Stable(f, trigger) && Stable(f, action) && Stable(f, skip);
  }

  lemma {:induction false} ParseRulesMakesGood(f: Format, target: Target, lines: seq<Text>)
    requires Idempotent(f)
    ensures ParseRules(f, target, lines).Ok? ==>
              GoodRules(f, target, ParseRules(f, target, lines).value) && SmallRules(ParseRules(f, target, lines).value)
    decreases |lines|
  {
    var rest := TrimFront(lines);
    if rest != [] && ParseRule(f, target, rest).Ok? {
      CreateMakesGood(f, target, rest[1][8..], rest[2][6..], rest[3][8..]);
      ParseRulesMakesGood(f, target, rest[4..]);
    }
  }

  lemma ParseBlockMakesGood(f: Format, target: Target, inner: Text)
    requires Idempotent(f)
    ensures var r := ParseBlock(f, target, inner);
            r.Ok? ==> GoodRules(f, target, r.value) && SmallRules(r.value) && DistinctIds(r.value)
  {
    var lines := LinesOf(inner);
    if lines != [] && ParseRules(f, target, lines[1..]).Ok? {
      ParseRulesMakesGood(f, target, lines[1..]);
      DistinctIdsCount(ParseRules(f, target, lines[1..]).value);
    }
  }

  /** Rules as the planner itself would make them. */
  ghost predicate SoundRules(f: Format, target: Target, rules: seq<Rule>) {
    GoodRules(f, target, rules) && SmallRules(rules) && DistinctIds(rules)
  }

  lemma ParseAtMakesGood(f: Format, target: Target, data: Text, first: nat, last: nat)
    requires UsableFormat(f) && Idempotent(f) && ParseAt(f, target, data, first, last).Ok?
    ensures SoundRules(f, target, ParseAt(f, target, data, first, last).value.rules)
  {
    hide ParseBlock, Slice;
    var inner := Slice(data, first + |f.start|, last);
    ParseBlockMakesGood(f, target, inner);
    AssembledRules(f, data, first, last, ParseBlock(f, target, inner));
  }

  lemma AssembledRules(f: Format, data: Text, first: nat, last: nat, rules: Result<seq<Rule>, Error>)
    requires f.end != "" && first < last && last + |f.end| <= |data|
    ensures var r := Assemble(f, data, first, last, rules);
            (r.Ok? <==> rules.Ok?) && (r.Ok? ==> r.value.rules == rules.value)
  {
  }

  /** Whatever stands in a file, the rules read from it are normalised, in budget and distinct. */
  lemma ParseMakesGood(f: Format, target: Target, data: Text)
    requires UsableFormat(f) && Idempotent(f) && Parse(f, target, data).Ok?
    ensures SoundRules(f, target, Parse(f, target, data).value.rules)
  {
    if Count(data, f.start) == 1 && Count(data, f.end) == 1 {
      ParseAtMakesGood(f, target, data, Index(data, f.start), Index(data, f.end));
    }
  }

  // ------------------------------------------------------------------ budgets shrink with the rules

  lemma {:induction false} SizeOfSum(a: Text, b: Text)
    ensures Utf8Size(a + b) == Utf8Size(a) + Utf8Size(b)
  {
    if a == "" {
      assert a + b == b;
    } else {
      SizeOfSum(a[1..], b);
      assert (a + b)[1..] == a[1..] + b;
    }
  }

  lemma {:induction false} JoinMore(parts: seq<Text>, x: Text, sep: Text)
    requires parts != []
    ensures Join(parts + [x], sep) == Join(parts, sep) + (sep + x)
  {
    if |parts| == 1 {
      assert (parts + [x])[1..] == [x];
    } else {
      JoinMore(parts[1..], x, sep);
      assert (parts + [x])[1..] == parts[1..] + [x];
      assert parts[0] + sep + (Join(parts[1..], sep) + (sep + x)) == parts[0] + sep + Join(parts[1..], sep) + (sep + x);
    }
  }

  lemma BlockGrows(f: Format, rules: seq<Rule>, r: Rule, nl: Text)
    ensures Utf8Size(ManagedBlock(f, rules, nl)) <= Utf8Size(ManagedBlock(f, rules + [r], nl))
  {
    if rules != [] {
      var parts, x := [f.heading] + Renders(rules, nl), RenderRule(r, nl);
      assert [f.heading] + Renders(rules + [r], nl) == parts + [x];
      JoinMore(parts, x, nl + nl);
      var head, body, more, tail := f.start + nl, Join(parts, nl + nl), nl + nl + x, nl + f.end + nl;
      assert ManagedBlock(f, rules, nl) == head + (body + tail);
      assert ManagedBlock(f, rules + [r], nl) == head + (body + (more + tail));
      SizeOfSum(head, body + tail);
      SizeOfSum(body, tail);
      SizeOfSum(head, body + (more + tail));
      SizeOfSum(body, more + tail);
      SizeOfSum(more, tail);
    }
  }

  lemma BudgetShrinks(f: Format, rules: seq<Rule>, r: Rule, nl: Text)
    requires WithinBudget(f, rules + [r], nl)
    ensures WithinBudget(f, rules, nl) && SmallRules(rules + [r])
  {
    BlockGrows(f, rules, r, nl);
    forall i | 0 <= i < |rules| ensures Utf8Size(RenderRule(rules[i], "\n")) <= MAX_RULE_BYTES {
      assert (rules + [r])[i] == rules[i];
    }
  }

  // ------------------------------------------------------------------ adding a rule and taking it back

  lemma {:induction false} WithoutAbsent(rules: seq<Rule>, r: Rule)
    requires forall i :: 0 <= i < |rules| ==> rules[i].id != r.id
    ensures Without(rules + [r], {r.id}) == rules
  {
    if rules != [] {
      WithoutAbsent(rules[1..], r);
      assert (rules + [r])[1..] == rules[1..] + [r];
    } else {
      assert ([r])[1..] == [];
    }
  }

  /** The block in the document is the one the planner would print for its rules. */
  ghost predicate Canonical(f: Format, data: Text, p: Parsed) {
    && p.region.Some? && p.region.value.marker <= p.region.value.stop <= |data|
    && data[p.region.value.marker..p.region.value.stop] == ManagedBlock(f, p.rules, p.newline)
  }

  lemma AddedRules(f: Format, target: Target, data: Text, p: Parsed, r: Rule, after: Text)
    requires GoodFormat(f) && Idempotent(f) && Parse(f, target, data) == Ok(p) && GoodRule(f, target, r)
    requires r.id !in Ids(p.rules) && PlanDeploy(f, target, data, r, {}) == Ok(after)
    ensures GoodRules(f, target, p.rules + [r]) && WithinBudget(f, p.rules + [r], p.newline)
    ensures DistinctIds(p.rules + [r]) && ClearOfMarkers(f, p.rules + [r]) && Replaceable(f, data, p, p.rules + [r])
    ensures after == After(f, data, p, p.rules + [r]) && Passes(f, target, after, p.rules + [r], p.outside)
  {
    ParseMakesGood(f, target, data);
    assert DeployRules(p.rules, r, {}) == Ok(p.rules + [r]);
    PlanSucceedsExactly(f, target, data, p, p.rules + [r]);
    PlanWrites(f, target, data, p, p.rules + [r]);
  }

  /** Taking back the only rule removes the block, and leaves the text outside it. */
  lemma RevokeOnly(f: Format, target: Target, after: Text, r: Rule, outside: Text)
    requires GoodFormat(f) && Passes(f, target, after, [r], outside)
    ensures PlanRevoke(f, target, after, r.id).Ok? ==> PlanRevoke(f, target, after, r.id) == Ok(outside)
    ensures ClearText(f, outside) ==> PlanRevoke(f, target, after, r.id) == Ok(outside)
  {
    var p := Parse(f, target, after).value;
    WithoutAbsent([], r);
    assert [] + [r] == [r] && r == [r][0];
    assert p.region.Some?;
    PlanWrites(f, target, after, p, []);
    PassesWithout(f, target, outside);
  }

  lemma RevokeLast(f: Format, target: Target, data: Text, p: Parsed, prefix: Text, suffix: Text, r: Rule)
    requires GoodFormat(f) && p.rules != [] && Parted(f, data, p, prefix, suffix)
    requires GoodRules(f, target, p.rules + [r]) && WithinBudget(f, p.rules + [r], p.newline)
    requires DistinctIds(p.rules + [r]) && ClearOfMarkers(f, p.rules + [r])
    ensures PlanRevoke(f, target, prefix + ManagedBlock(f, p.rules + [r], p.newline) + suffix, r.id) ==
            Ok(prefix + ManagedBlock(f, p.rules, p.newline) + suffix)
  {
    var nl, rules := p.newline, p.rules + [r];
    var after, q := Around(f, prefix, rules, nl, suffix), Found(f, prefix, rules, nl, suffix);
    BudgetShrinks(f, p.rules, r, nl);
    AroundShape(f, prefix, rules, nl, suffix);
    ParseAround(f, target, prefix, rules, nl, suffix);
    UnchangedNewline(f, target, data, p, prefix, rules, suffix);
    RestOfRules(f, target, p.rules, r);
    AfterInPlace(f, prefix, rules, p.rules, nl, suffix);
    RevokeFrom(f, target, after, q, p.rules, r);
  }

  lemma RevokeFrom(f: Format, target: Target, after: Text, q: Parsed, rules: seq<Rule>, r: Rule)
    requires GoodFormat(f) && Parse(f, target, after) == Ok(q) && q.rules == rules + [r] && q.region.Some?
    requires GoodRules(f, target, rules) && DistinctIds(rules) && ClearOfMarkers(f, rules) && rules != []
    requires WithinBudget(f, rules, q.newline) && Without(q.rules, {r.id}) == rules && r.id in Ids(q.rules)
    ensures PlanRevoke(f, target, after, r.id) == Ok(After(f, after, q, rules))
  {
    PlanSucceedsExactly(f, target, after, q, rules);
    PlanWrites(f, target, after, q, rules);
  }

  lemma RestOfRules(f: Format, target: Target, rules: seq<Rule>, r: Rule)
    requires GoodRules(f, target, rules + [r]) && DistinctIds(rules + [r]) && ClearOfMarkers(f, rules + [r])
    ensures GoodRules(f, target, rules) && DistinctIds(rules) && ClearOfMarkers(f, rules)
    ensures Without(rules + [r], {r.id}) == rules && r.id in Ids(rules + [r])
  {
    var all := rules + [r];
    assert forall i :: 0 <= i < |rules| ==> all[i] == rules[i];
    assert all[|rules|] == r;
    WithoutAbsent(rules, r);
  }

  lemma UnchangedNewline(f: Format, target: Target, data: Text, p: Parsed, prefix: Text, rules: seq<Rule>, suffix: Text)
    requires GoodFormat(f) && GoodRules(f, target, rules) && rules != [] && Parted(f, data, p, prefix, suffix)
    ensures NewlineOf(prefix + ManagedBlock(f, rules, p.newline) + suffix) == p.newline
  {
    var g := p.region.value;
    if p.newline == "\n" {
      CrlfInSum(prefix, data[g.marker..]);
      assert prefix + data[g.marker..] == data;
      CrlfInSum(data[..g.stop], suffix);
      assert data[..g.stop] + suffix == data;
    }
    NewlineKept(f, target, prefix, rules, p.newline, suffix);
  }

  /** Replacing the block just printed leaves the texts around it. */
  lemma AfterInPlace(f: Format, prefix: Text, rules: seq<Rule>, fewer: seq<Rule>, nl: Text, suffix: Text)
    requires IsNewline(nl) && rules != [] && fewer != []
    ensures var q := Found(f, prefix, rules, nl, suffix); var data := Around(f, prefix, rules, nl, suffix);
            && q.region.Some? && q.region.value.start <= q.region.value.marker <= q.region.value.stop <= |data|
            && After(f, data, q, fewer) == prefix + ManagedBlock(f, fewer, q.newline) + suffix
  {
    RowEnds(prefix, f.start, Unlines(InnerLines(f, rules), nl), f.end, nl, suffix);
  }

  /**
   Adding one rule and then revoking it restores the document byte for byte exactly when the
   document had no managed block, or had it in the planner's own form.
   */
  lemma AddThenRevoke(f: Format, target: Target, data: Text, p: Parsed, r: Rule, after: Text)
    requires GoodFormat(f) && Idempotent(f) && Parse(f, target, data) == Ok(p) && GoodRule(f, target, r)
    requires r.id !in Ids(p.rules) && PlanDeploy(f, target, data, r, {}) == Ok(after)
    ensures PlanRevoke(f, target, after, r.id) == Ok(data) <==> p.region.None? || Canonical(f, data, p)
  {
    AddedRules(f, target, data, p, r, after);
    if p.region.None? {
      ParsedWithout(f, target, data);
      assert p.rules + [r] == [r];
      RevokeOnly(f, target, after, r, data);
    } else if p.rules == [] {
      assert p.rules + [r] == [r];
      RevokeOnly(f, target, after, r, p.outside);
      EmptyNotCanonical(f, target, data, p);
    } else {
      ParsedParts(f, target, data, p);
      var g := p.region.value;
      RevokeLast(f, target, data, p, data[..g.marker], data[g.stop..], r);
      SameMiddle(data, g.marker, g.stop, ManagedBlock(f, p.rules, p.newline));
    }
  }

  // ------------------------------------------------------------------ what the plans leave behind

  lemma {:induction false} WithoutOne(rules: seq<Rule>, k: nat)
    requires DistinctIds(rules) && k < |rules|
    ensures Without(rules, {rules[k].id}) == rules[..k] + rules[k + 1..]
  {
    if k > 0 {
      assert forall i, j :: 0 <= i < j < |rules| - 1 ==> rules[1..][i] == rules[i + 1] && rules[1..][j] == rules[j + 1];
      WithoutOne(rules[1..], k - 1);
      assert rules[1..][..k - 1] == rules[1..k] && rules[1..][k..] == rules[k + 1..];
      assert [rules[0]] + rules[1..k] == rules[..k];
    } else {
      WithoutNone(rules[1..], rules[0].id);
      assert rules[..0] + rules[1..] == rules[1..];
    }
  }

  lemma {:induction false} WithoutNone(rules: seq<Rule>, id: Text)
    requires forall i :: 0 <= i < |rules| ==> rules[i].id != id
    ensures Without(rules, {id}) == rules
  {
    if rules != [] { WithoutNone(rules[1..], id); }
  }

  /** A document within both budgets, in numbers. */
  ghost predicate Fits(f: Format, rules: seq<Rule>, nl: Text) {
    && (forall i :: 0 <= i < |rules| ==> Utf8Size(RenderRule(rules[i], "\n")) <= 1024)
    && Utf8Size(ManagedBlock(f, rules, nl)) <= 8 * 1024
  }

  lemma PlanLeaves(f: Format, target: Target, data: Text, p: Parsed, rules: seq<Rule>)
    requires GoodFormat(f) && Parse(f, target, data) == Ok(p) && GoodRules(f, target, rules) && DistinctIds(rules)
    ensures var r := PlanReplace(f, target, data, rules);
            && (r.Ok? <==> Fits(f, rules, p.newline) && ClearOfMarkers(f, rules) && Replaceable(f, data, p, rules))
            && (!Fits(f, rules, p.newline) ==> r == Err(CapacityExceeded))
            && (r.Ok? ==>
                  && Parse(f, target, r.value).Ok? && Parse(f, target, r.value).value.rules == rules
                  && Parse(f, target, r.value).value.outside == p.outside)
  {
    PlanSucceedsExactly(f, target, data, p, rules);
    if !Fits(f, rules, p.newline) {
      OverBudget(f, target, data, p, rules);
      assert forall i :: 0 <= i < |rules| ==> rules[i].target == target;
    }
    hide Parse, PlanReplace, ManagedBlock, RenderRule;
  }

  /**
   Revoking, exactly. An id that is not there is not found. Otherwise that one rule goes, the
   others stay in their order, and so does everything outside the block; it works exactly when
   the rules left fit, mention no delimiter, and, if none is left, no delimiter is born.
   */
  lemma RevokeExactly(f: Format, target: Target, data: Text, p: Parsed, id: Text)
    requires GoodFormat(f) && Idempotent(f) && Parse(f, target, data) == Ok(p)
    ensures (forall i :: 0 <= i < |p.rules| ==> p.rules[i].id != id) <==>
            PlanRevoke(f, target, data, id) == Err(RuleNotFound)
    ensures forall k :: 0 <= k < |p.rules| && p.rules[k].id == id ==>
              var r, rest := PlanRevoke(f, target, data, id), p.rules[..k] + p.rules[k + 1..];
              && (r.Ok? <==> Fits(f, rest, p.newline) && ClearOfMarkers(f, rest) && Replaceable(f, data, p, rest))
              && (r.Ok? ==>
                    && Parse(f, target, r.value).Ok? && Parse(f, target, r.value).value.rules == rest
                    && Parse(f, target, r.value).value.outside == p.outside)
  {
    ParseMakesGood(f, target, data);
    hide Parse, PlanReplace, ClearOfMarkers, Replaceable, Fits;
    forall k | 0 <= k < |p.rules| && p.rules[k].id == id
      ensures PlanRevoke(f, target, data, id) == PlanReplace(f, target, data, p.rules[..k] + p.rules[k + 1..])
      ensures GoodRules(f, target, p.rules[..k] + p.rules[k + 1..]) && DistinctIds(p.rules[..k] + p.rules[k + 1..])
    {
      WithoutOne(p.rules, k);
      RestIsGood(f, target, p.rules, k);
    }
    forall k | 0 <= k < |p.rules| && p.rules[k].id == id {
      PlanLeaves(f, target, data, p, p.rules[..k] + p.rules[k + 1..]);
    }
    ReplaceFindsNoRule(f, target, data, Without(p.rules, {id}));
  }

  lemma RestIsGood(f: Format, target: Target, rules: seq<Rule>, k: nat)
    requires GoodRules(f, target, rules) && DistinctIds(rules) && k < |rules|
    ensures GoodRules(f, target, rules[..k] + rules[k + 1..]) && DistinctIds(rules[..k] + rules[k + 1..])
  {
    var rest := rules[..k] + rules[k + 1..];
    assert forall i :: 0 <= i < |rest| ==> rest[i] == rules[if i < k then i else i + 1];
  }

  lemma {:induction false} ParseRulesFindsNoRule(f: Format, target: Target, lines: seq<Text>)
    ensures ParseRules(f, target, lines) != Err(RuleNotFound)
    decreases |lines|
  {
    var rest := TrimFront(lines);
    if rest != [] && ParseRule(f, target, rest).Ok? { ParseRulesFindsNoRule(f, target, rest[4..]); }
  }

  lemma ParseAtFindsNoRule(f: Format, target: Target, data: Text, first: nat, last: nat)
    requires UsableFormat(f)
    ensures ParseAt(f, target, data, first, last) != Err(RuleNotFound)
  {
    hide Assemble, Slice, ParseBlock;
    var inner := Slice(data, first + |f.start|, last);
    BlockFindsNoRule(f, target, inner);
    if first < last && last + |f.end| <= |data| {
      AssembleFindsNoRule(f, data, first, last, ParseBlock(f, target, inner));
    }
  }

  lemma ParseFindsNoRule(f: Format, target: Target, data: Text)
    requires UsableFormat(f)
    ensures Parse(f, target, data) != Err(RuleNotFound)
  {
    hide Count, Index, ParseAt;
    ParseAtFindsNoRule(f, target, data, Index(data, f.start), Index(data, f.end));
  }

  lemma BlockFindsNoRule(f: Format, target: Target, inner: Text)
    ensures ParseBlock(f, target, inner) != Err(RuleNotFound)
  {
    hide ParseRules, LinesOf;
    var lines := LinesOf(inner);
    if lines != [] { ParseRulesFindsNoRule(f, target, lines[1..]); }
  }

  lemma AssembleFindsNoRule(f: Format, data: Text, first: nat, last: nat, rules: Result<seq<Rule>, Error>)
    requires f.end != "" && first < last && last + |f.end| <= |data| && rules != Err(RuleNotFound)
    ensures Assemble(f, data, first, last, rules) != Err(RuleNotFound)
  {
  }

  lemma ReplaceFindsNoRule(f: Format, target: Target, data: Text, rules: seq<Rule>)
    requires UsableFormat(f)
    ensures PlanReplace(f, target, data, rules) != Err(RuleNotFound)
  {
    hide Parse, ManagedBlock, WithinBudget;
    ParseFindsNoRule(f, target, data);
    var after := ReplaceRegion(f, target, data, rules);
    if after.Ok? { ParseFindsNoRule(f, target, after.value); }
  }

  // ------------------------------------------------------------------ deploying one rule

  /** The rules that survive a revision stand in their order around the new one. */
  ghost predicate Revised(rules: seq<Rule>, r: Rule, supersedes: set<Text>, made: seq<Rule>, k: nat) {
    && k < |rules| && rules[k].id in supersedes && (forall i :: 0 <= i < k ==> rules[i].id !in supersedes)
    && k < |made| && made[k] == r && made[..k] == rules[..k]
    && (forall x :: x in made[k + 1..] <==> x in rules[k..] && x.id !in supersedes)
    && (forall i, j :: k <= i < j < |rules| && rules[i].id !in supersedes && rules[j].id !in supersedes ==>
          Precedes(made[k + 1..], rules[i], rules[j]))
  }

  lemma {:induction false} WithoutMembers(rules: seq<Rule>, ids: set<Text>)
    ensures forall x :: x in Without(rules, ids) <==> x in rules && x.id !in ids
  {
    if rules != [] { WithoutMembers(rules[1..], ids); }
  }

  lemma HeadPrecedes(x: Rule, kept: seq<Rule>, y: Rule)
    requires y in kept
    ensures Precedes([x] + kept, x, y)
  {
    var b :| 0 <= b < |kept| && kept[b] == y;
    assert ([x] + kept)[0] == x && ([x] + kept)[b + 1] == y;
  }

  lemma TailPrecedes(front: seq<Rule>, kept: seq<Rule>, x: Rule, y: Rule)
    requires Precedes(kept, x, y)
    ensures Precedes(front + kept, x, y)
  {
    var a, b :| 0 <= a < b < |kept| && kept[a] == x && kept[b] == y;
    assert (front + kept)[|front| + a] == x && (front + kept)[|front| + b] == y;
  }

  lemma {:induction false} WithoutOrder(rules: seq<Rule>, ids: set<Text>, i: nat, j: nat)
    requires i < j < |rules| && rules[i].id !in ids && rules[j].id !in ids
    ensures Precedes(Without(rules, ids), rules[i], rules[j])
  {
    hide Precedes;
    var rest, kept := rules[1..], Without(rules[1..], ids);
    var front := if rules[0].id in ids then [] else [rules[0]];
    assert Without(rules, ids) == front + kept;
    hide Without;
    if i == 0 {
      WithoutMembers(rest, ids);
      assert rest[j - 1] == rules[j] && rules[j] in kept;
      HeadPrecedes(rules[0], kept, rules[j]);
    } else {
      WithoutOrder(rest, ids, i - 1, j - 1);
      TailPrecedes(front, kept, rest[i - 1], rest[j - 1]);
    }
  }

  lemma ReviseParts(rules: seq<Rule>, r: Rule, supersedes: set<Text>, made: seq<Rule>) returns (k: nat)
    requires supersedes != {} && DeployRules(rules, r, supersedes) == Ok(made)
    ensures k == FirstIn(rules, supersedes)
    ensures k < |rules| && rules[k].id in supersedes && forall i :: 0 <= i < k ==> rules[i].id !in supersedes
    ensures made == rules[..k] + [r] + Without(rules[k..], supersedes)
  {
    k := FirstIn(rules, supersedes);
    var x :| x in supersedes;
    assert x in Ids(rules);
    WithoutFrom(rules, supersedes);
    hide Without;
    var kept := Without(rules, supersedes);
    assert kept[..k] == rules[..k] && kept[k..] == Without(rules[k..], supersedes);
  }

  lemma ReviseExactly(rules: seq<Rule>, r: Rule, supersedes: set<Text>, made: seq<Rule>)
    requires supersedes != {} && DeployRules(rules, r, supersedes) == Ok(made)
    ensures exists k :: Revised(rules, r, supersedes, made, k)
  {
    hide DeployRules, Without, Precedes;
    var k := ReviseParts(rules, r, supersedes, made);
    var rest := rules[k..];
    WithoutMembers(rest, supersedes);
    assert made[k + 1..] == Without(rest, supersedes);
    forall i, j | k <= i < j < |rules| && rules[i].id !in supersedes && rules[j].id !in supersedes
      ensures Precedes(made[k + 1..], rules[i], rules[j])
    {
      WithoutOrder(rest, supersedes, i - k, j - k);
    }
    assert Revised(rules, r, supersedes, made, k);
  }

  predicate HasId(rules: seq<Rule>, id: Text) {
    exists i :: 0 <= i < |rules| && rules[i].id == id
  }

  /**
   Deploying one rule, exactly. Nothing superseded: a rule already there changes nothing, a new
   one goes last. Otherwise every superseded rule must be there and the new id must not be
   elsewhere; then the new rule stands where the first of them stood.
   */
  lemma DeployExactly(rules: seq<Rule>, r: Rule, supersedes: set<Text>)
    ensures var there, all := HasId(rules, r.id), forall id :: id in supersedes ==> HasId(rules, id);
            var made := DeployRules(rules, r, supersedes);
            && (supersedes == {} && there ==> made == Ok(rules))
            && (supersedes == {} && !there ==> made == Ok(rules + [r]))
            && (made == Err(RevisionInvalid) <==> !all)
            && (made == Err(EditDuplicate) <==> supersedes != {} && all && there && r.id !in supersedes)
            && (made.Ok? <==> all && (supersedes == {} || !there || r.id in supersedes))
            && (made.Ok? && supersedes != {} ==> exists k :: Revised(rules, r, supersedes, made.value, k))
  {
    assert forall id :: id in Ids(rules) <==> HasId(rules, id);
    var made := DeployRules(rules, r, supersedes);
    if supersedes != {} && made.Ok? { ReviseExactly(rules, r, supersedes, made.value); }
    hide Revised, Without;
  }

  lemma {:induction false} WithoutDistinct(rules: seq<Rule>, ids: set<Text>)
    requires DistinctIds(rules)
    ensures DistinctIds(Without(rules, ids))
  {
    if rules != [] {
      assert forall i :: 0 <= i < |rules| - 1 ==> rules[1..][i] == rules[i + 1];
      WithoutDistinct(rules[1..], ids);
      WithoutMembers(rules[1..], ids);
      forall x | x in Without(rules[1..], ids) ensures x.id != rules[0].id {
        assert x in rules[1..];
      }
    }
  }

  lemma InsertDistinct(kept: seq<Rule>, k: nat, r: Rule)
    requires DistinctIds(kept) && k <= |kept| && forall x :: x in kept ==> x.id != r.id
    ensures DistinctIds(kept[..k] + [r] + kept[k..])
  {
    var all := kept[..k] + [r] + kept[k..];
    assert forall i :: 0 <= i < |all| && i != k ==> all[i] == kept[if i < k then i else i - 1];
    forall i | 0 <= i < |kept| ensures kept[i].id != r.id { assert kept[i] in kept; }
  }

  lemma RevisedDistinct(rules: seq<Rule>, r: Rule, supersedes: set<Text>, made: seq<Rule>)
    requires DistinctIds(rules) && DeployRules(rules, r, supersedes) == Ok(made)
    ensures DistinctIds(made) && forall x :: x in made ==> x == r || x in rules
  {
    if supersedes != {} {
      var k := ReviseParts(rules, r, supersedes, made);
      WithoutMembers(rules, supersedes);
      WithoutDistinct(rules, supersedes);
      WithoutFrom(rules, supersedes);
      hide Without;
      var kept := Without(rules, supersedes);
      assert made == kept[..k] + [r] + kept[k..];
      forall x | x in kept ensures x.id != r.id {
        assert x in rules && (r.id !in supersedes ==> r.id !in Ids(rules));
        var i :| 0 <= i < |rules| && rules[i] == x;
      }
      hide DeployRules, FirstIn;
      InsertDistinct(kept, k, r);
    }
  }

  /**
   Planning a deployment, exactly: it works when the rules left fit and mention no delimiter and
   the document can take them; then the document written holds just those rules, and everything
   outside the block is as it was.
   */
  lemma DeployLeaves(f: Format, target: Target, data: Text, p: Parsed, r: Rule, supersedes: set<Text>, made: seq<Rule>)
    requires GoodFormat(f) && Idempotent(f) && Parse(f, target, data) == Ok(p) && GoodRule(f, target, r)
    requires DeployRules(p.rules, r, supersedes) == Ok(made)
    ensures var plan := PlanDeploy(f, target, data, r, supersedes);
            && (plan.Ok? <==> Fits(f, made, p.newline) && ClearOfMarkers(f, made) && Replaceable(f, data, p, made))
            && (plan.Ok? ==>
                  && Parse(f, target, plan.value).Ok? && Parse(f, target, plan.value).value.rules == made
                  && Parse(f, target, plan.value).value.outside == p.outside)
  {
    ParseMakesGood(f, target, data);
    RevisedDistinct(p.rules, r, supersedes, made);
    forall i | 0 <= i < |made| ensures GoodRule(f, target, made[i]) {
      assert made[i] in made;
    }
    PlanLeaves(f, target, data, p, made);
  }

  lemma EmptyNotCanonical(f: Format, target: Target, data: Text, p: Parsed)
    requires GoodMarkers(f) && Parse(f, target, data) == Ok(p) && p.region.Some? && p.rules == []
    ensures !Canonical(f, data, p) && p.outside != data
  {
    ParsedParts(f, target, data, p);
    var g := p.region.value;
    assert |data[g.marker..g.stop]| > 0 && |p.outside| < |data|;
  }

  lemma SameMiddle(s: Text, lo: nat, hi: nat, b: Text)
    requires lo <= hi <= |s|
    ensures s[..lo] + b + s[hi..] == s <==> s[lo..hi] == b
  {
    var t := s[..lo] + b + s[hi..];
    if t == s {
      assert |b| == hi - lo;
      assert t[lo..hi] == b;
    }
    if s[lo..hi] == b { assert s[..lo] + s[lo..hi] + s[hi..] == s; }
  }

  // ------------------------------------------------------------------ one planner, two entrances

  /** A bundle of one item writes what the scalar planner writes. */
  lemma BundleOfOne(f: Format, target: Target, data: Text, p: Parsed, it: Item)
    requires UsableFormat(f) && Idempotent(f) && Parse(f, target, data) == Ok(p)
    requires PlanDeployBundle(f, target, data, [it]).Ok?
    ensures PlanDeploy(f, target, data, it.rule, it.supersedes) == PlanDeployBundle(f, target, data, [it])
  {
    ParseMakesGood(f, target, data);
    var items := [it];
    assert items[0].rule.target == target;
    Bundles.BundleIsOneByOne(p.rules, items, items);
    assert items[..0] == [];
    assert Bundles.DeployAll(p.rules, []) == Ok(p.rules);
    assert Bundles.DeployAll(p.rules, items) == DeployRules(p.rules, it.rule, it.supersedes);
  }

  // ------------------------------------------------------------------ the sidecar's own texts

  lemma StartIsMarker()
    ensures Marker(BLOCK_START)
  {
  }

  lemma EndIsMarker()
    ensures Marker(BLOCK_END)
  {
  }

  lemma StartIsOneLine()
    ensures OneLine(BLOCK_START)
  {
    assert forall k :: 0 <= k < |BLOCK_START| ==> BLOCK_START[k] >= ' ';
  }

  lemma EndIsOneLine()
    ensures OneLine(BLOCK_END)
  {
    assert forall k :: 0 <= k < |BLOCK_END| ==> BLOCK_END[k] >= ' ';
  }

  /** Two delimiters that begin alike and part before the shorter ends do not hold each other. */
  lemma PartingMarkers(a: Text, b: Text, k: nat)
    requires Marker(a) && k < |a| && k < |b| && a[k] != b[k] && b != "" && a[0] == b[0]
    ensures !Occurs(a, b)
  {
    forall i ensures !MatchesAt(a, b, i) {
      if 0 <= i && i + |b| <= |a| {
        var t := a[i..i + |b|];
        assert t[0] == a[i] && t[k] == a[i + k];
      }
    }
  }

  lemma HeadingIsPlain()
    ensures OneLine(BLOCK_HEADING) && !IsBlank(BLOCK_HEADING) && '<' !in BLOCK_HEADING
  {
    assert forall k :: 0 <= k < |BLOCK_HEADING| ==> BLOCK_HEADING[k] >= ' ' && BLOCK_HEADING[k] != '<';
    assert !IsSpace(BLOCK_HEADING[0]);
  }

  /** The delimiters and heading the sidecar uses meet everything the results ask of a format. */
  lemma SidecarFormat(f: Format)
    requires f.start == BLOCK_START && f.end == BLOCK_END && f.heading == BLOCK_HEADING
    requires forall t, a, b, c :: IsRuleId(f.idOf(t, a, b, c))
    ensures GoodFormat(f)
  {
    hide Marker, OneLine, Occurs;
    StartIsMarker();
    EndIsMarker();
    StartIsOneLine();
    EndIsOneLine();
    HeadingIsPlain();
    assert BLOCK_START[0] == BLOCK_END[0] == '<' && BLOCK_START[34] == 's' && BLOCK_END[34] == 'e';
    PartingMarkers(BLOCK_START, BLOCK_END, 34);
    PartingMarkers(BLOCK_END, BLOCK_START, 34);
  }

  // ------------------------------------------------------------------ the lone CR

  /** A document without a block that ends in a lone CR refuses its first rule: the appended LF would join it. */
  lemma LoneCrRefused(f: Format, target: Target, data: Text, p: Parsed, r: Rule)
    requires GoodFormat(f) && GoodRule(f, target, r)
    requires Parse(f, target, data) == Ok(p) && p.region.None? && LoneCrEnd(data)
    ensures PlanDeploy(f, target, data, r, {}).Err?
  {
    ParsedWithout(f, target, data);
    assert p.rules == [] && [] + [r] == [r];
    PlanSucceedsExactly(f, target, data, p, [r]);
  }
}
