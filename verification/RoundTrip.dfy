/** When a replaced document parses back to exactly the rules and outside text it was given. */
module RoundTrip {
  import opened Prelude
  import opened Strings
  import opened Instructions

  // ------------------------------------------------------------------ the block as lines

  function BodyLines(rules: seq<Rule>): seq<Text> {
    if rules == [] then [] else [""] + RuleLines(rules[0]) + BodyLines(rules[1..])
  }

  lemma {:induction false} JoinUnlines(lines: seq<Text>, nl: Text)
    requires lines != []
    ensures Join(lines, nl) + nl == Unlines(lines, nl)
  {
    if |lines| > 1 {
      JoinUnlines(lines[1..], nl);
      assert lines[0] + nl + Join(lines[1..], nl) + nl == lines[0] + nl + (Join(lines[1..], nl) + nl);
    } else {
      assert lines[1..] == [];
    }
  }

  lemma RuleUnlines(r: Rule, nl: Text)
    ensures nl + RenderRule(r, nl) + nl == Unlines([""] + RuleLines(r), nl)
  {
    JoinUnlines(RuleLines(r), nl);
    assert ([""] + RuleLines(r))[1..] == RuleLines(r);
    assert nl + RenderRule(r, nl) + nl == "" + nl + (RenderRule(r, nl) + nl);
  }

  lemma {:induction false} BodyUnlines(rules: seq<Rule>, nl: Text)
    requires rules != []
    ensures nl + Join(Renders(rules, nl), nl + nl) + nl == Unlines(BodyLines(rules), nl)
  {
    var head, tail := Renders(rules, nl)[0], Renders(rules, nl)[1..];
    assert tail == Renders(rules[1..], nl);
    RuleUnlines(rules[0], nl);
    UnlinesConcat([""] + RuleLines(rules[0]), BodyLines(rules[1..]), nl);
    if |rules| > 1 {
      BodyUnlines(rules[1..], nl);
      var rest := Join(tail, nl + nl);
      calc {
        nl + Join(Renders(rules, nl), nl + nl) + nl;
        nl + (head + (nl + nl) + rest) + nl;
        (nl + head + nl) + (nl + rest + nl);
      }
    }
  }

  /** Everything between the two markers, as lines. */
  function InnerLines(f: Format, rules: seq<Rule>): seq<Text> {
    ["", f.heading] + BodyLines(rules)
  }

  lemma BlockShape(f: Format, rules: seq<Rule>, nl: Text)
    requires rules != []
    ensures ManagedBlock(f, rules, nl) == f.start + Unlines(InnerLines(f, rules), nl) + (f.end + nl)
  {
    var renders := Renders(rules, nl);
    var joined := Join(renders, nl + nl);
    assert ([f.heading] + renders)[1..] == renders;
    BodyUnlines(rules, nl);
    UnlinesConcat(["", f.heading], BodyLines(rules), nl);
    assert Unlines(["", f.heading], nl) == nl + f.heading + nl by {
      assert ["", f.heading][1..] == [f.heading] && [f.heading][1..] == [];
      assert "" + nl + (f.heading + nl + "") == nl + f.heading + nl;
    }
    calc {
      ManagedBlock(f, rules, nl);
      f.start + nl + (f.heading + (nl + nl) + joined) + nl + f.end + nl;
      f.start + ((nl + f.heading + nl) + (nl + joined + nl)) + (f.end + nl);
      f.start + Unlines(InnerLines(f, rules), nl) + (f.end + nl);
    }
  }

  // ------------------------------------------------------------------ good rules print good lines

  lemma NormalIsOneLine(f: Format, x: Text)
    requires NormalText(f, x)
    ensures OneLine(x)
  {
  }

  lemma RuleLinesOneLine(f: Format, target: Target, r: Rule)
    requires GoodFormat(f) && GoodRule(f, target, r)
    ensures forall k :: 0 <= k < 4 ==> OneLine(RuleLines(r)[k]) && !IsBlank(RuleLines(r)[k])
  {
    NormalIsOneLine(f, r.trigger);
    NormalIsOneLine(f, r.action);
    NormalIsOneLine(f, r.skip);
    assert IsRuleId(r.id);
    forall k | 0 <= k < |r.id| ensures r.id[k] != '\n' && r.id[k] != '\r' {
      if k < 5 { assert r.id[k] == "rule_"[k]; }
    }
    forall k | 0 <= k < 4 ensures !IsBlank(RuleLines(r)[k]) {
      assert RuleLines(r)[k][0] in "#-";
    }
  }

  lemma {:induction false} BodyLinesOneLine(f: Format, target: Target, rules: seq<Rule>)
    requires GoodFormat(f) && GoodRules(f, target, rules)
    ensures forall k :: 0 <= k < |BodyLines(rules)| ==> OneLine(BodyLines(rules)[k])
    ensures rules != [] ==> BodyLines(rules) != [] && !IsBlank(BodyLines(rules)[|BodyLines(rules)| - 1])
  {
    if rules != [] {
      RuleLinesOneLine(f, target, rules[0]);
      BodyLinesOneLine(f, target, rules[1..]);
      var own := [""] + RuleLines(rules[0]);
      assert BodyLines(rules) == own + BodyLines(rules[1..]);
      assert own[4] == RuleLines(rules[0])[3];
    }
  }

  // ------------------------------------------------------------------ parsing good lines

  lemma StripRuleId(id: Text)
    requires IsRuleId(id)
    ensures Strip(id) == id
  {
    assert id[0] == "rule_"[0];
  }

  lemma FieldParses(prefix: Text, x: Text)
    requires x != ""
    ensures IsField(prefix + x, prefix) && (prefix + x)[|prefix|..] == x
  {
  }

  lemma CreateGood(f: Format, target: Target, r: Rule)
    requires GoodRule(f, target, r) && Utf8Size(RenderRule(r, "\n")) <= MAX_RULE_BYTES
    ensures Create(f, target, r.trigger, r.action, r.skip) == Ok(r)
  {
  }

  lemma ParseRuleGood(f: Format, target: Target, r: Rule, rest: seq<Text>)
    requires GoodFormat(f) && GoodRule(f, target, r) && Utf8Size(RenderRule(r, "\n")) <= MAX_RULE_BYTES
    ensures ParseRule(f, target, RuleLines(r) + rest) == Ok(r)
  {
    var lines := RuleLines(r) + rest;
    assert lines[0] == "### " + r.id && lines[1] == "- When: " + r.trigger;
    assert lines[2] == "- Do: " + r.action && lines[3] == "- Skip: " + r.skip;
    assert IsRuleId(r.id);
    assert ("### " + r.id)[4..] == r.id;
    StripRuleId(r.id);
    FieldParses("- When: ", r.trigger);
    FieldParses("- Do: ", r.action);
    FieldParses("- Skip: ", r.skip);
    CreateGood(f, target, r);
  }

  ghost predicate SmallRules(rules: seq<Rule>) {
    forall i :: 0 <= i < |rules| ==> Utf8Size(RenderRule(rules[i], "\n")) <= MAX_RULE_BYTES
  }

  lemma {:induction false} ParseRulesGood(f: Format, target: Target, rules: seq<Rule>)
    requires GoodFormat(f) && GoodRules(f, target, rules) && SmallRules(rules)
    ensures ParseRules(f, target, BodyLines(rules)) == Ok(rules)
  {
    if rules != [] {
      var lines, rest := BodyLines(rules), BodyLines(rules[1..]);
      var own := RuleLines(rules[0]) + rest;
      assert lines == [""] + own;
      assert lines[1..] == own;
      RuleLinesOneLine(f, target, rules[0]);
      assert own[0] == RuleLines(rules[0])[0];
      assert TrimFront(own) == own;
      assert TrimFront(lines) == own;
      ParseRuleGood(f, target, rules[0], rest);
      assert own[4..] == rest;
      ParseRulesGood(f, target, rules[1..]);
      assert [rules[0]] + rules[1..] == rules;
    }
  }

  lemma IdsOfInit(rules: seq<Rule>)
    requires rules != []
    ensures Ids(rules) == Ids(rules[..|rules| - 1]) + {rules[|rules| - 1].id}
  {
    var n := |rules| - 1;
    var init := rules[..n];
    forall x ensures x in Ids(rules) <==> x in Ids(init) || x == rules[n].id {
      if x in Ids(init) { var i :| 0 <= i < n && init[i].id == x; assert rules[i].id == x; }
      if x in Ids(rules) { var i :| 0 <= i < |rules| && rules[i].id == x; if i < n { assert init[i].id == x; } }
    }
  }

  lemma DistinctOfInit(rules: seq<Rule>)
    requires rules != []
    ensures DistinctIds(rules) <==>
            DistinctIds(rules[..|rules| - 1]) && rules[|rules| - 1].id !in Ids(rules[..|rules| - 1])
  {
    var n := |rules| - 1;
    var init := rules[..n];
    assert forall i :: 0 <= i < n ==> init[i] == rules[i] && init[i].id in Ids(init);
  }

  lemma {:induction false} DistinctIdsCount(rules: seq<Rule>)
    ensures |Ids(rules)| == |rules| <==> DistinctIds(rules)
    ensures |Ids(rules)| <= |rules|
  {
    if rules != [] {
      DistinctIdsCount(rules[..|rules| - 1]);
      IdsOfInit(rules);
      DistinctOfInit(rules);
    }
  }

  lemma Regroup<T>(a: T, b: T, body: seq<T>, c: T)
    ensures [a, b] + body + [c] == [a] + (([b] + body) + [c])
  {
  }

  lemma TrimEnds(heading: Text, body: seq<Text>)
    requires !IsBlank(heading) && body != [] && !IsBlank(body[|body| - 1])
    ensures TrimBack(TrimFront(["", heading] + body + [""])) == [heading] + body
  {
    hide TrimFront, TrimBack, IsBlank;
    var kept := [heading] + body;
    Regroup("", heading, body, "");
    assert (kept + [""])[0] == heading && kept[|kept| - 1] == body[|body| - 1];
    TrimFrontBlank(kept + [""]);
    TrimBackBlank(kept);
  }

  lemma TrimFrontBlank(lines: seq<Text>)
    requires lines != [] && !IsBlank(lines[0])
    ensures TrimFront([""] + lines) == lines
  {
    assert ([""] + lines)[1..] == lines;
    assert TrimFront(lines) == lines;
  }

  lemma TrimBackBlank(lines: seq<Text>)
    requires lines != [] && !IsBlank(lines[|lines| - 1])
    ensures TrimBack(lines + [""]) == lines
  {
    var more := lines + [""];
    assert more[|more| - 1] == "" && more[..|more| - 1] == lines;
    assert TrimBack(lines) == lines;
  }

  lemma LinesOfGood(f: Format, target: Target, rules: seq<Rule>, nl: Text)
    requires GoodFormat(f) && GoodRules(f, target, rules) && rules != [] && IsNewline(nl)
    ensures LinesOf(Unlines(InnerLines(f, rules), nl)) == [f.heading] + BodyLines(rules)
  {
    var inner, body := InnerLines(f, rules), BodyLines(rules);
    BodyLinesOneLine(f, target, rules);
    forall k | 0 <= k < |inner| ensures OneLine(inner[k]) {
      if k >= 2 { assert inner[k] == body[k - 2]; }
    }
    SplitUnlines(inner, nl);
    TrimEnds(f.heading, body);
  }

  /** What was printed between the markers parses back, duplicates apart. */
  lemma ParseBlockGood(f: Format, target: Target, rules: seq<Rule>, nl: Text)
    requires GoodFormat(f) && GoodRules(f, target, rules) && SmallRules(rules) && rules != [] && IsNewline(nl)
    ensures ParseBlock(f, target, Unlines(InnerLines(f, rules), nl)) ==
            if DistinctIds(rules) then Ok(rules) else Err(DuplicateRule)
  {
    LinesOfGood(f, target, rules, nl);
    var lines := [f.heading] + BodyLines(rules);
    assert lines[1..] == BodyLines(rules);
    ParseRulesGood(f, target, rules);
    DistinctIdsCount(rules);
  }

  // ------------------------------------------------------------------ markers in what is printed

  lemma AbsentFirst(s: Text, pat: Text)
    requires pat != "" && pat[0] !in s
    ensures !Occurs(s, pat)
  {
    forall i ensures !MatchesAt(s, pat, i) {
      if 0 <= i && i + |pat| <= |s| { assert s[i..i + |pat|][0] == s[i]; }
    }
  }

  ghost predicate AnyOccurs(lines: seq<Text>, pat: Text) {
    exists k :: 0 <= k < |lines| && Occurs(lines[k], pat)
  }

  lemma AnyOccursInSum(a: seq<Text>, b: seq<Text>, pat: Text)
    ensures AnyOccurs(a + b, pat) <==> AnyOccurs(a, pat) || AnyOccurs(b, pat)
  {
    hide Occurs;
    var s := a + b;
    if k :| 0 <= k < |a| && Occurs(a[k], pat) { assert s[k] == a[k]; }
    if k :| 0 <= k < |b| && Occurs(b[k], pat) { assert s[|a| + k] == b[k] && Occurs(s[|a| + k], pat); }
    if k :| 0 <= k < |s| && Occurs(s[k], pat) { assert s[k] == if k < |a| then a[k] else b[k - |a|]; }
  }

  lemma AnyOccursOne(line: Text, pat: Text)
    ensures AnyOccurs([line], pat) <==> Occurs(line, pat)
  {
    hide Occurs;
    assert [line][0] == line;
  }

  lemma {:induction false} OccursInUnlines(lines: seq<Text>, nl: Text, pat: Text)
    requires Marker(pat) && OneLine(pat) && IsNewline(nl)
    ensures Occurs(Unlines(lines, nl), pat) <==> AnyOccurs(lines, pat)
  {
    if lines == [] {
      AbsentFirst("", pat);
    } else {
      var rest := Unlines(lines[1..], nl);
      OccursInUnlines(lines[1..], nl, pat);
      OccursInSum(nl, rest, pat);
      OccursInSum(lines[0], nl + rest, pat);
      assert lines[0] + (nl + rest) == Unlines(lines, nl);
      AbsentFirst(nl, pat);
      assert lines == [lines[0]] + lines[1..];
      AnyOccursInSum([lines[0]], lines[1..], pat);
      AnyOccursOne(lines[0], pat);
    }
  }

  lemma OccursAfterPrefix(prefix: Text, x: Text, pat: Text)
    requires Marker(pat) && pat[0] !in prefix
    ensures Occurs(prefix + x, pat) <==> Occurs(x, pat)
  {
    OccursInSum(prefix, x, pat);
    AbsentFirst(prefix, pat);
  }

  ghost predicate MentionsIn(r: Rule, pat: Text) {
    Occurs(r.trigger, pat) || Occurs(r.action, pat) || Occurs(r.skip, pat)
  }

  ghost predicate AnyMentions(rules: seq<Rule>, pat: Text) {
    exists i :: 0 <= i < |rules| && MentionsIn(rules[i], pat)
  }

  lemma RuleLinesClear(f: Format, target: Target, r: Rule, pat: Text)
    requires GoodFormat(f) && GoodRule(f, target, r) && Marker(pat) && pat[0] == '<'
    ensures AnyOccurs(RuleLines(r), pat) <==> MentionsIn(r, pat)
  {
    var lines := RuleLines(r);
    assert IsRuleId(r.id);
    forall k | 0 <= k < |r.id| ensures r.id[k] != '<' {
      if k < 5 { assert r.id[k] == "rule_"[k]; }
    }
    OccursAfterPrefix("### " + r.id, "", pat);
    AbsentFirst("", pat);
    assert "### " + r.id + "" == lines[0];
    OccursAfterPrefix("- When: ", r.trigger, pat);
    OccursAfterPrefix("- Do: ", r.action, pat);
    OccursAfterPrefix("- Skip: ", r.skip, pat);
    assert lines[1] == "- When: " + r.trigger && lines[2] == "- Do: " + r.action && lines[3] == "- Skip: " + r.skip;
    FourOccur(lines, pat);
  }

  lemma FourOccur(lines: seq<Text>, pat: Text)
    requires |lines| == 4
    ensures AnyOccurs(lines, pat) <==>
            Occurs(lines[0], pat) || Occurs(lines[1], pat) || Occurs(lines[2], pat) || Occurs(lines[3], pat)
  {
    hide Occurs;
  }

  lemma {:induction false} BodyLinesClear(f: Format, target: Target, rules: seq<Rule>, pat: Text)
    requires GoodFormat(f) && GoodRules(f, target, rules) && Marker(pat) && pat[0] == '<'
    ensures AnyOccurs(BodyLines(rules), pat) <==> AnyMentions(rules, pat)
  {
    hide Occurs;
    if rules != [] {
      var own, rest := RuleLines(rules[0]), BodyLines(rules[1..]);
      RuleLinesClear(f, target, rules[0], pat);
      BodyLinesClear(f, target, rules[1..], pat);
      AnyOccursInSum([""], own, pat);
      AnyOccursInSum([""] + own, rest, pat);
      AnyOccursOne("", pat);
      AbsentFirst("", pat);
      MentionsFirst(rules, pat);
    }
  }

  lemma MentionsFirst(rules: seq<Rule>, pat: Text)
    requires rules != []
    ensures AnyMentions(rules, pat) <==> MentionsIn(rules[0], pat) || AnyMentions(rules[1..], pat)
  {
    hide MentionsIn;
    if i :| 0 <= i < |rules| && MentionsIn(rules[i], pat) { if i > 0 { assert rules[1..][i - 1] == rules[i]; } }
    if i :| 0 <= i < |rules[1..]| && MentionsIn(rules[1..][i], pat) {
      assert rules[i + 1] == rules[1..][i] && MentionsIn(rules[i + 1], pat);
    }
  }

  /** The text between the markers holds a marker exactly when one of the rules does. */
  lemma InnerClear(f: Format, target: Target, rules: seq<Rule>, nl: Text, pat: Text)
    requires GoodFormat(f) && GoodRules(f, target, rules) && IsNewline(nl) && pat in {f.start, f.end}
    ensures Occurs(Unlines(InnerLines(f, rules), nl), pat) <==> AnyMentions(rules, pat)
  {
    var body := BodyLines(rules);
    OccursInUnlines(InnerLines(f, rules), nl, pat);
    BodyLinesClear(f, target, rules, pat);
    OccursAfterPrefix(f.heading, "", pat);
    AbsentFirst("", pat);
    assert f.heading + "" == f.heading;
    AnyOccursOne("", pat);
    AnyOccursOne(f.heading, pat);
    AnyOccursInSum([""], [f.heading], pat);
    assert [""] + [f.heading] == ["", f.heading];
    AnyOccursInSum(["", f.heading], body, pat);
  }

  // ------------------------------------------------------------------ the block inside a document

  /** The document with a printed block between two texts. */
  function Around(f: Format, prefix: Text, rules: seq<Rule>, nl: Text, suffix: Text): Text {
    Row(prefix, f.start, Unlines(InnerLines(f, rules), nl), f.end, nl + suffix)
  }

  function EndAt(f: Format, prefix: Text, rules: seq<Rule>, nl: Text): nat {
    |prefix| + |f.start| + |Unlines(InnerLines(f, rules), nl)|
  }

  /** Five texts in a row, nested to the right. */
  function Row(a: Text, b: Text, c: Text, d: Text, e: Text): Text {
    a + (b + (c + (d + e)))
  }

  lemma RowNests(a: Text, b: Text, c: Text, d: Text, nl: Text, e: Text)
    ensures a + (b + c + (d + nl)) + e == Row(a, b, c, d, nl + e)
  {
    var tail := d + (nl + e);
    assert (d + nl) + e == tail;
    assert (b + c) + tail == b + (c + tail);
    assert (a + (b + c + (d + nl))) + e == a + ((b + c + (d + nl)) + e);
    assert (b + c + (d + nl)) + e == (b + c) + ((d + nl) + e);
  }

  lemma RowParts(a: Text, b: Text, c: Text, d: Text, e: Text)
    ensures var s := Row(a, b, c, d, e); var i := |a| + |b|; var j := i + |c|; var k := j + |d|;
            |s| == k + |e| && s[..|a|] == a && s[|a|..i] == b && s[i..j] == c && s[j..k] == d && s[k..] == e
  {
    var s := Row(a, b, c, d, e);
    var s1 := b + (c + (d + e));
    var s2, s3 := c + (d + e), d + e;
    assert s == a + s1 && s1 == b + s2 && s2 == c + s3;
    assert s[|a|..] == s1;
    assert s[|a| + |b|..] == s2 by { assert s1[|b|..] == s2; }
    assert s[|a| + |b| + |c|..] == s3 by { assert s2[|c|..] == s3; }
  }

  lemma RowStartSolo(a: Text, b: Text, c: Text, d: Text, e: Text)
    requires Marker(b) && Marker(d) && b[0] == d[0] && c != "" && c[0] !in b && !Occurs(d, b)
    requires !Occurs(a, b) && !Occurs(c, b) && !Occurs(e, b) && (e == "" || e[0] !in b)
    ensures Solo(Row(a, b, c, d, e), b, |a|)
  {
    OccursInSum(d, e, b);
    OccursInSum(c, d + e, b);
    assert Solo(b, b, 0);
    SoloInSum(b, c + (d + e), b, 0);
    SoloInSum(a, b + (c + (d + e)), b, 0);
  }

  lemma RowEndSolo(a: Text, b: Text, c: Text, d: Text, e: Text)
    requires Marker(b) && Marker(d) && b[0] == d[0] && c != "" && c[0] !in d && !Occurs(b, d)
    requires !Occurs(a, d) && !Occurs(c, d) && !Occurs(e, d) && (e == "" || e[0] !in d)
    ensures Solo(Row(a, b, c, d, e), d, |a| + |b| + |c|)
  {
    assert Solo(d, d, 0);
    SoloInSum(d, e, d, 0);
    SoloInSum(c, d + e, d, 0);
    SoloInSum(b, c + (d + e), d, |c|);
    SoloInSum(a, b + (c + (d + e)), d, |b| + |c|);
  }

  lemma MatchInRow(a: Text, b: Text, c: Text, d: Text, e: Text, pat: Text, k: nat)
    requires MatchesAt(c, pat, k)
    ensures MatchesAt(Row(a, b, c, d, e), pat, |a| + |b| + k)
  {
    RowParts(a, b, c, d, e);
    var s, i := Row(a, b, c, d, e), |a| + |b|;
    assert s[i + k..i + k + |pat|] == s[i..i + |c|][k..k + |pat|];
  }

  lemma AroundShape(f: Format, prefix: Text, rules: seq<Rule>, nl: Text, suffix: Text)
    requires rules != []
    ensures prefix + ManagedBlock(f, rules, nl) + suffix == Around(f, prefix, rules, nl, suffix)
  {
    BlockShape(f, rules, nl);
    RowNests(prefix, f.start, Unlines(InnerLines(f, rules), nl), f.end, nl, suffix);
  }

  lemma InnerStarts(f: Format, rules: seq<Rule>, nl: Text)
    requires IsNewline(nl)
    ensures Unlines(InnerLines(f, rules), nl) != "" && Unlines(InnerLines(f, rules), nl)[0] == nl[0]
  {
    assert InnerLines(f, rules)[0] == "";
  }

  lemma TailsClear(f: Format, target: Target, rules: seq<Rule>, nl: Text, suffix: Text, pat: Text)
    requires GoodFormat(f) && GoodRules(f, target, rules) && IsNewline(nl) && pat in {f.start, f.end}
    requires !Occurs(suffix, pat) && !AnyMentions(rules, pat)
    ensures !Occurs(nl + suffix, pat)
    ensures !Occurs(Unlines(InnerLines(f, rules), nl), pat)
  {
    AbsentFirst(nl, pat);
    OccursInSum(nl, suffix, pat);
    InnerClear(f, target, rules, nl, pat);
  }

  lemma StartSolo(f: Format, target: Target, prefix: Text, rules: seq<Rule>, nl: Text, suffix: Text)
    requires GoodFormat(f) && GoodRules(f, target, rules) && IsNewline(nl) && rules != []
    requires !Occurs(prefix, f.start) && !Occurs(suffix, f.start)
    requires !AnyMentions(rules, f.start)
    ensures Solo(Around(f, prefix, rules, nl, suffix), f.start, |prefix|)
  {
    TailsClear(f, target, rules, nl, suffix, f.start);
    InnerStarts(f, rules, nl);
    RowStartSolo(prefix, f.start, Unlines(InnerLines(f, rules), nl), f.end, nl + suffix);
  }

  lemma EndSolo(f: Format, target: Target, prefix: Text, rules: seq<Rule>, nl: Text, suffix: Text)
    requires GoodFormat(f) && GoodRules(f, target, rules) && IsNewline(nl) && rules != []
    requires !Occurs(prefix, f.end) && !Occurs(suffix, f.end)
    requires !AnyMentions(rules, f.end)
    ensures Solo(Around(f, prefix, rules, nl, suffix), f.end, EndAt(f, prefix, rules, nl))
  {
    TailsClear(f, target, rules, nl, suffix, f.end);
    InnerStarts(f, rules, nl);
    RowEndSolo(prefix, f.start, Unlines(InnerLines(f, rules), nl), f.end, nl + suffix);
  }

  /** The marker `pat` itself stands in the row, as its second or fourth part. */
  lemma MarkerInRow(a: Text, b: Text, c: Text, d: Text, e: Text)
    ensures MatchesAt(Row(a, b, c, d, e), b, |a|)
    ensures MatchesAt(Row(a, b, c, d, e), d, |a| + |b| + |c|)
  {
    RowParts(a, b, c, d, e);
  }

  lemma TwoMatches(f: Format, target: Target, data: Text, pat: Text, i: int, j: int)
    requires GoodMarkers(f) && pat in {f.start, f.end} && i != j && MatchesAt(data, pat, i) && MatchesAt(data, pat, j)
    ensures Parse(f, target, data).Err?
  {
    CountMeans(data, pat);
    assert Occurs(data, pat) && !exists p :: Solo(data, pat, p);
  }

  lemma InnerBreaks(f: Format, target: Target, a: Text, c: Text, e: Text, pat: Text)
    requires GoodMarkers(f) && pat in {f.start, f.end} && Occurs(c, pat)
    ensures Parse(f, target, Row(a, f.start, c, f.end, e)).Err?
  {
    var k :| MatchesAt(c, pat, k);
    var s := Row(a, f.start, c, f.end, e);
    MatchInRow(a, f.start, c, f.end, e, pat, k);
    MarkerInRow(a, f.start, c, f.end, e);
    var other := if pat == f.start then |a| else |a| + |f.start| + |c|;
    assert k + |pat| <= |c| && |pat| > 0;
    TwoMatches(f, target, s, pat, |a| + |f.start| + k, other);
  }

  lemma MentionOccurs(f: Format, target: Target, rules: seq<Rule>, nl: Text) returns (pat: Text)
    requires GoodFormat(f) && GoodRules(f, target, rules) && IsNewline(nl) && !ClearOfMarkers(f, rules)
    ensures pat in {f.start, f.end} && Occurs(Unlines(InnerLines(f, rules), nl), pat)
  {
    var i :| 0 <= i < |rules| && (MentionsIn(rules[i], f.start) || MentionsIn(rules[i], f.end));
    pat := if MentionsIn(rules[i], f.start) then f.start else f.end;
    InnerClear(f, target, rules, nl, pat);
  }

  /** A rule that mentions a marker leaves two of it in the document: it cannot parse. */
  lemma MentionBreaks(f: Format, target: Target, prefix: Text, rules: seq<Rule>, nl: Text, suffix: Text)
    requires GoodFormat(f) && GoodRules(f, target, rules) && IsNewline(nl) && !ClearOfMarkers(f, rules)
    ensures Parse(f, target, Around(f, prefix, rules, nl, suffix)).Err?
  {
    var pat := MentionOccurs(f, target, rules, nl);
    InnerBreaks(f, target, prefix, Unlines(InnerLines(f, rules), nl), nl + suffix, pat);
  }

  lemma StopAfterNewline(data: Text, at: nat, nl: Text, suffix: Text)
    requires IsNewline(nl) && at <= |data| && data[at..] == nl + suffix
    ensures RegionStop(data, at) == at + |nl|
    ensures data[at + |nl|..] == suffix
  {
    var tail := data[at..];
    assert data[at + |nl|..] == tail[|nl|..];
    assert tail[..|nl|] == nl;
    assert nl == "\n" ==> tail[0] == '\n';
    assert |tail| >= 2 ==> tail[..2][0] == tail[0];
  }

  lemma SoloCounts(s: Text, pat: Text, p: nat)
    requires Marker(pat) && Solo(s, pat, p)
    ensures Count(s, pat) == 1 && Index(s, pat) == p
  {
    CountMeans(s, pat);
  }

  /** What `Parse` returns once the two markers are known to stand alone. */
  lemma ParseSolo(f: Format, target: Target, data: Text, first: nat, last: nat)
    requires GoodMarkers(f) && Solo(data, f.start, first) && Solo(data, f.end, last)
    ensures Parse(f, target, data) == ParseAt(f, target, data, first, last)
  {
    SoloCounts(data, f.start, first);
    SoloCounts(data, f.end, last);
  }

  /** Reading off the parts of a row whose last part begins with a newline. */
  lemma RowEnds(a: Text, b: Text, c: Text, d: Text, nl: Text, e: Text)
    requires IsNewline(nl)
    ensures var s := Row(a, b, c, d, nl + e); var last := |a| + |b| + |c|; var stop := last + |d| + |nl|;
            && stop <= |s| && s[..|a|] == a && s[|a| + |b|..last] == c
            && RegionStop(s, last + |d|) == stop && s[stop..] == e
  {
    RowParts(a, b, c, d, nl + e);
    StopAfterNewline(Row(a, b, c, d, nl + e), |a| + |b| + |c| + |d|, nl, e);
  }

  /** `Assemble` in terms of the three texts the document is made of. */
  lemma AssembleRow(f: Format, a: Text, c: Text, nl: Text, e: Text, rules: seq<Rule>)
    requires UsableFormat(f) && IsNewline(nl)
    ensures var s := Row(a, f.start, c, f.end, nl + e); var last := |a| + |f.start| + |c|;
            var start := RegionStart(s, |a|, NewlineOf(s)); var stop := last + |f.end| + |nl|;
            && |a| < last && last + |f.end| <= |s| && Slice(s, |a| + |f.start|, last) == c
            && Assemble(f, s, |a|, last, Ok(rules)) ==
               Ok(Parsed(rules, Some(Region(|a|, start, stop)), NewlineOf(s), a[..start] + e))
  {
    var s := Row(a, f.start, c, f.end, nl + e);
    RowEnds(a, f.start, c, f.end, nl, e);
    var start := RegionStart(s, |a|, NewlineOf(s));
    assert s[..start] == s[..|a|][..start];
  }

  /** The parse of a row, given the rules read from its third part. */
  function RowParsed(f: Format, a: Text, c: Text, nl: Text, e: Text, rules: seq<Rule>): Parsed {
    var s, stop := Row(a, f.start, c, f.end, nl + e), |a| + |f.start| + |c| + |f.end| + |nl|;
    var start := if |a| <= |s| then RegionStart(s, |a|, NewlineOf(s)) else 0;
    Parsed(rules, Some(Region(|a|, start, stop)), NewlineOf(s), Slice(a, 0, start) + e)
  }

  lemma ParseAtRow(f: Format, target: Target, a: Text, c: Text, nl: Text, e: Text, parsed: Result<seq<Rule>, Error>)
    requires UsableFormat(f) && IsNewline(nl) && ParseBlock(f, target, c) == parsed
    ensures ParseAt(f, target, Row(a, f.start, c, f.end, nl + e), |a|, |a| + |f.start| + |c|) ==
            if parsed.Err? then Err(parsed.error) else Ok(RowParsed(f, a, c, nl, e, parsed.value))
  {
    hide ParseBlock, NewlineOf, RegionStart, RegionStop, Row;
    AssembleRow(f, a, c, nl, e, if parsed.Err? then [] else parsed.value);
  }

  /** The parse of the document around a printed block. */
  function Found(f: Format, prefix: Text, rules: seq<Rule>, nl: Text, suffix: Text): Parsed {
    RowParsed(f, prefix, Unlines(InnerLines(f, rules), nl), nl, suffix, rules)
  }

  lemma ParseRow(f: Format, target: Target, a: Text, c: Text, nl: Text, e: Text, parsed: Result<seq<Rule>, Error>)
    requires GoodMarkers(f) && IsNewline(nl) && ParseBlock(f, target, c) == parsed
    requires Solo(Row(a, f.start, c, f.end, nl + e), f.start, |a|)
    requires Solo(Row(a, f.start, c, f.end, nl + e), f.end, |a| + |f.start| + |c|)
    ensures Parse(f, target, Row(a, f.start, c, f.end, nl + e)) ==
            if parsed.Err? then Err(parsed.error) else Ok(RowParsed(f, a, c, nl, e, parsed.value))
  {
    hide Parse, ParseAt, ParseBlock, RowParsed, Row, Solo;
    ParseSolo(f, target, Row(a, f.start, c, f.end, nl + e), |a|, |a| + |f.start| + |c|);
    ParseAtRow(f, target, a, c, nl, e, parsed);
  }

  /** Parsing the document around a printed block finds that block and nothing else. */
  lemma ParseAround(f: Format, target: Target, prefix: Text, rules: seq<Rule>, nl: Text, suffix: Text)
    requires GoodFormat(f) && GoodRules(f, target, rules) && SmallRules(rules) && ClearOfMarkers(f, rules)
    requires IsNewline(nl) && rules != [] && ClearText(f, prefix) && ClearText(f, suffix)
    ensures Parse(f, target, Around(f, prefix, rules, nl, suffix)) ==
            if DistinctIds(rules) then Ok(Found(f, prefix, rules, nl, suffix)) else Err(DuplicateRule)
  {
    hide Parse, ParseBlock, Solo, Row, Occurs, SmallRules;
    StartSolo(f, target, prefix, rules, nl, suffix);
    EndSolo(f, target, prefix, rules, nl, suffix);
    ParseBlockGood(f, target, rules, nl);
    var parsed := if DistinctIds(rules) then Ok(rules) else Err(DuplicateRule);
    ParseRow(f, target, prefix, Unlines(InnerLines(f, rules), nl), nl, suffix, parsed);
  }
}
