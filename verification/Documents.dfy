/** Two documents on which the planner does not do what its rule says, in every format. */
module Documents {
  import opened Prelude
  import opened Strings
  import opened Instructions
  import opened RoundTrip
  import opened Replacement
  import opened Planner
  import opened Plans

  /** Nothing but the document itself stands in the way of this rule. */
  ghost predicate SoundRule(f: Format, target: Target, r: Rule) {
    && GoodRule(f, target, r) && WithinBudget(f, [r], "\n") && ClearOfMarkers(f, [r])
  }

  /** The shortest of rules, in the sidecar's own delimiters, under the id its content has. */
  function PlainRule(f: Format, target: Target): Rule {
    Rule(target, "when", "do", "skip", f.idOf(target, "when", "do", "skip"))
  }

  lemma {:induction false} SizeBound(s: Text)
    ensures Utf8Size(s) <= 4 * |s|
  {
    if s != "" { SizeBound(s[1..]); }
  }

  lemma PlainRuleIsSmall(f: Format, target: Target)
    requires IsRuleId(PlainRule(f, target).id)
    ensures |RenderRule(PlainRule(f, target), "\n")| <= 100
  {
    var lines := RuleLines(PlainRule(f, target));
    var a, b, c := lines[1..], lines[2..], lines[3..];
    assert Join(c, "\n") == lines[3] && Join(b, "\n") == lines[2] + "\n" + Join(c, "\n");
    assert Join(a, "\n") == lines[1] + "\n" + Join(b, "\n") && Join(lines, "\n") == lines[0] + "\n" + Join(a, "\n");
  }

  lemma PlainRuleFits(f: Format, target: Target)
    requires f.start == BLOCK_START && f.end == BLOCK_END && f.heading == BLOCK_HEADING
    requires IsRuleId(PlainRule(f, target).id)
    ensures WithinBudget(f, [PlainRule(f, target)], "\n")
  {
    var r := PlainRule(f, target);
    var body := RenderRule(r, "\n");
    PlainRuleIsSmall(f, target);
    SizeBound(body);
    assert [f.heading] + Renders([r], "\n") == [f.heading, body];
    assert [f.heading, body][1..] == [body];
    assert Join([f.heading, body], "\n\n") == f.heading + "\n\n" + body;
    assert "\n" + "\n" == "\n\n";
    SizeBound(ManagedBlock(f, [r], "\n"));
  }

  lemma PrintedRule(r: Rule, nl: Text)
    ensures RenderRule(r, nl) ==
            "### " + r.id + nl + "- When: " + r.trigger + nl + "- Do: " + r.action + nl + "- Skip: " + r.skip
  {
    var lines := RuleLines(r);
    var a, b, c, d := "### " + r.id, "- When: " + r.trigger, "- Do: " + r.action, "- Skip: " + r.skip;
    assert lines == [a, b, c, d];
    assert [a, b, c, d][1..] == [b, c, d] && [b, c, d][1..] == [c, d] && [c, d][1..] == [d];
    assert Join([c, d], nl) == c + nl + d && Join([b, c, d], nl) == b + nl + Join([c, d], nl);
    assert Join(lines, nl) == a + nl + (b + nl + (c + nl + d));
    assert a + nl + (b + nl + (c + nl + d)) == a + nl + b + nl + c + nl + d;
  }

  /** What one rule looks like in a document. */
  lemma PrintedBlock(f: Format, r: Rule, nl: Text)
    ensures ManagedBlock(f, [r], nl) == f.start + nl + f.heading + nl + nl + RenderRule(r, nl) + nl + f.end + nl
  {
    var parts, body := [f.heading] + Renders([r], nl), RenderRule(r, nl);
    assert parts[1..] == [body];
    var joined := f.heading + (nl + nl) + body;
    assert Join(parts, nl + nl) == joined;
    assert f.start + nl + joined + nl + f.end + nl == f.start + nl + f.heading + nl + nl + body + nl + f.end + nl;
  }

  /** Sound rules exist in the sidecar's format, whatever the ids, if plain words are normalised. */
  lemma PlainRuleIsSound(f: Format, target: Target)
    requires f.start == BLOCK_START && f.end == BLOCK_END && f.heading == BLOCK_HEADING
    requires forall t, a, b, c :: IsRuleId(f.idOf(t, a, b, c))
    requires f.norm("when") == "when" && f.norm("do") == "do" && f.norm("skip") == "skip"
    ensures GoodFormat(f) && SoundRule(f, target, PlainRule(f, target))
  {
    SidecarFormat(f);
    PlainRuleFits(f, target);
    assert !HasControl("when") && !HasControl("do") && !HasControl("skip");
    assert |BLOCK_START| > 4 && |BLOCK_END| > 4;
    forall s | s in {"when", "do", "skip"} ensures ClearText(f, s) {
      forall i ensures !MatchesAt(s, BLOCK_START, i) && !MatchesAt(s, BLOCK_END, i) { }
    }
  }

  // ------------------------------------------------------------------ a block somebody wrote by hand

  /** Delimiters and heading, and no rule: a block the planner reads but would not print. */
  function HandWritten(f: Format): Text {
    Row("", f.start, Unlines(["", f.heading], "\n"), f.end, "\n")
  }

  lemma HeadingAlone(f: Format, target: Target)
    requires GoodFormat(f)
    ensures ParseBlock(f, target, Unlines(["", f.heading], "\n")) == Ok([])
  {
    var inner := ["", f.heading];
    SplitUnlines(inner, "\n");
    assert inner + [""] == [""] + [f.heading, ""] && [f.heading, ""] == [f.heading] + [""];
    TrimFrontBlank([f.heading, ""]);
    TrimBackBlank([f.heading]);
    assert LinesOf(Unlines(inner, "\n")) == [f.heading];
    assert [f.heading][1..] == [];
    assert Ids([]) == {};
  }

  lemma HandWrittenParses(f: Format, target: Target) returns (p: Parsed)
    requires GoodFormat(f)
    ensures Parse(f, target, HandWritten(f)) == Ok(p) && p.rules == [] && p.region.Some? && p.newline == "\n"
  {
    var inner := Unlines(["", f.heading], "\n");
    assert InnerLines(f, []) == ["", f.heading];
    forall pat | pat in {f.start, f.end} ensures !Occurs("", pat) { AbsentFirst("", pat); }
    assert "\n" + "" == "\n";
    TailsClear(f, target, [], "\n", "", f.start);
    TailsClear(f, target, [], "\n", "", f.end);
    InnerStarts(f, [], "\n");
    RowStartSolo("", f.start, inner, f.end, "\n");
    RowEndSolo("", f.start, inner, f.end, "\n");
    HeadingAlone(f, target);
    ParseRow(f, target, "", inner, "\n", "", Ok([]));
    p := RowParsed(f, "", inner, "\n", "", []);
    HandWrittenNewline(f);
  }

  lemma HandWrittenNewline(f: Format)
    requires GoodFormat(f)
    ensures NewlineOf(HandWritten(f)) == "\n"
  {
    UnlinesNoCr(["", f.heading]);
    assert '\r' !in HandWritten(f);
  }

  /** Adding any sound rule to such a block succeeds, and revoking it does not give the document back. */
  lemma RevokeDoesNotRestore(f: Format, target: Target, r: Rule)
    requires GoodFormat(f) && Idempotent(f) && SoundRule(f, target, r)
    ensures UsableFormat(f) && PlanDeploy(f, target, HandWritten(f), r, {}).Ok?
    ensures PlanRevoke(f, target, PlanDeploy(f, target, HandWritten(f), r, {}).value, r.id) != Ok(HandWritten(f))
  {
    var data := HandWritten(f);
    var p := HandWrittenParses(f, target);
    assert p.rules + [r] == [r];
    PlanSucceedsExactly(f, target, data, p, [r]);
    var after := PlanDeploy(f, target, data, r, {}).value;
    AddThenRevoke(f, target, data, p, r, after);
    EmptyNotCanonical(f, target, data, p);
  }

  // ------------------------------------------------------------------ a lone CR

  /** One character and a CR: every first rule is refused, though it is sound and fits without the CR. */
  lemma FirstRuleRefused(f: Format, target: Target, r: Rule)
    requires GoodFormat(f) && SoundRule(f, target, r)
    ensures UsableFormat(f) && Parse(f, target, "a\r").Ok? && PlanDeploy(f, target, "a\r", r, {}).Err?
    ensures PlanDeploy(f, target, "a", r, {}).Ok?
  {
    forall data | data in {"a\r", "a"} ensures Parse(f, target, data) == Ok(Parsed([], None, "\n", data)) {
      AbsentFirst(data, f.start);
      AbsentFirst(data, f.end);
      ParsedWithout(f, target, data);
      assert !HasCrlf(data);
    }
    assert [] + [r] == [r];
    LoneCrRefused(f, target, "a\r", Parsed([], None, "\n", "a\r"), r);
    PlanSucceedsExactly(f, target, "a", Parsed([], None, "\n", "a"), [r]);
  }
}
