/**
 The planner's own check, run after every replacement: exactly when it passes, and what a
 replacement does to the rest of the document.
 */
module Replacement {
  import opened Prelude
  import opened Strings
  import opened Instructions
  import opened RoundTrip

  // ------------------------------------------------------------------ newlines

  ghost predicate CrlfAcross(a: Text, b: Text) {
    a != "" && b != "" && a[|a| - 1] == '\r' && b[0] == '\n'
  }

  lemma CrlfInSum(a: Text, b: Text)
    ensures HasCrlf(a + b) <==> HasCrlf(a) || HasCrlf(b) || CrlfAcross(a, b)
  {
    var s := a + b;
    if HasCrlf(a) {
      var k :| 0 <= k < |a| - 1 && a[k] == '\r' && a[k + 1] == '\n';
      assert s[k] == '\r' && s[k + 1] == '\n';
    }
    if HasCrlf(b) {
      var k :| 0 <= k < |b| - 1 && b[k] == '\r' && b[k + 1] == '\n';
      assert s[|a| + k] == '\r' && s[|a| + k + 1] == '\n';
    }
    if CrlfAcross(a, b) { assert s[|a| - 1] == '\r' && s[|a|] == '\n'; }
    if HasCrlf(s) {
      var k :| 0 <= k < |s| - 1 && s[k] == '\r' && s[k + 1] == '\n';
      if k + 1 < |a| { assert a[k] == '\r' && a[k + 1] == '\n'; }
      else if k >= |a| { assert b[k - |a|] == '\r' && b[k - |a| + 1] == '\n'; }
    }
  }

  lemma {:induction false} UnlinesNoCr(lines: seq<Text>)
    requires forall k :: 0 <= k < |lines| ==> OneLine(lines[k])
    ensures '\r' !in Unlines(lines, "\n")
  {
    if lines != [] { UnlinesNoCr(lines[1..]); }
  }

  lemma InnerOneLine(f: Format, target: Target, rules: seq<Rule>)
    requires GoodFormat(f) && GoodRules(f, target, rules)
    ensures forall k :: 0 <= k < |InnerLines(f, rules)| ==> OneLine(InnerLines(f, rules)[k])
  {
    BodyLinesOneLine(f, target, rules);
    forall k | 0 <= k < |InnerLines(f, rules)| ensures OneLine(InnerLines(f, rules)[k]) {
      if k >= 2 { assert InnerLines(f, rules)[k] == BodyLines(rules)[k - 2]; }
    }
  }

  /** A printed block brings CRLF with it exactly when it is printed with CRLF. */
  lemma BlockCrlf(f: Format, target: Target, rules: seq<Rule>, nl: Text)
    requires GoodFormat(f) && GoodRules(f, target, rules) && IsNewline(nl) && rules != []
    ensures HasCrlf(ManagedBlock(f, rules, nl)) <==> nl == "\r\n"
    ensures nl == "\n" ==> '\r' !in ManagedBlock(f, rules, nl)
    ensures ManagedBlock(f, rules, nl) != "" && ManagedBlock(f, rules, nl)[0] == '<'
  {
    var inner := Unlines(InnerLines(f, rules), nl);
    BlockShape(f, rules, nl);
    if nl == "\n" {
      InnerOneLine(f, target, rules);
      UnlinesNoCr(InnerLines(f, rules));
    } else {
      CrlfInSum(f.end, nl);
      assert nl[0] == '\r' && nl[1] == '\n';
      CrlfInSum(f.start + inner, f.end + nl);
    }
  }

  /** A document keeps its newline when a printed block in that newline replaces part of it. */
  lemma NewlineKept(f: Format, target: Target, prefix: Text, rules: seq<Rule>, nl: Text, suffix: Text)
    requires GoodFormat(f) && GoodRules(f, target, rules) && IsNewline(nl) && rules != []
    requires nl == "\n" ==> !HasCrlf(prefix) && !HasCrlf(suffix)
    ensures NewlineOf(prefix + ManagedBlock(f, rules, nl) + suffix) == nl
  {
    var block := ManagedBlock(f, rules, nl);
    BlockCrlf(f, target, rules, nl);
    CrlfInSum(prefix, block);
    CrlfInSum(prefix + block, suffix);
    assert (prefix + block)[|prefix + block| - 1] == block[|block| - 1];
  }

  lemma RegionStartLocal(d: Text, e: Text, marker: nat, nl: Text)
    requires marker <= |d| && marker <= |e| && d[..marker] == e[..marker]
    ensures RegionStart(d, marker, nl) == RegionStart(e, marker, nl)
  {
    var n := |nl + nl|;
    if marker >= n {
      assert d[marker - n..marker] == d[..marker][marker - n..];
      assert e[marker - n..marker] == e[..marker][marker - n..];
    }
  }

  // ------------------------------------------------------------------ what parsing says of a document

  lemma ParsedWithout(f: Format, target: Target, data: Text)
    requires GoodMarkers(f)
    ensures ClearText(f, data) ==> Parse(f, target, data) == Ok(Parsed([], None, NewlineOf(data), data))
    ensures Parse(f, target, data).Ok? && Parse(f, target, data).value.region.None? ==> ClearText(f, data)
  {
    CountMeans(data, f.start);
    CountMeans(data, f.end);
  }

  lemma ParsedShorter(f: Format, target: Target, data: Text)
    requires GoodMarkers(f) && !ClearText(f, data)
    ensures Parse(f, target, data).Ok? ==> |Parse(f, target, data).value.outside| < |data|
  {
    CountMeans(data, f.start);
    CountMeans(data, f.end);
  }

  /** The two texts a document's block stands between. */
  ghost predicate Parted(f: Format, data: Text, p: Parsed, prefix: Text, suffix: Text) {
    && p.region.Some? && var g := p.region.value;
    && g.start <= g.marker < g.stop <= |data| && prefix == data[..g.marker] && suffix == data[g.stop..]
    && g.start == RegionStart(data, g.marker, p.newline)
    && p.outside == data[..g.start] + data[g.stop..] && p.newline == NewlineOf(data)
    && ClearText(f, prefix) && ClearText(f, suffix)
  }

  lemma SoloAround(data: Text, pat: Text, p: nat, lo: nat, hi: nat)
    requires pat != "" && Solo(data, pat, p) && lo <= hi <= |data|
    ensures p + |pat| > lo ==> !Occurs(data[..lo], pat)
    ensures p < hi ==> !Occurs(data[hi..], pat)
  {
    OccursInPart(data, pat, 0, lo);
    OccursInPart(data, pat, hi, |data|);
    assert data[0..lo] == data[..lo] && data[hi..|data|] == data[hi..];
  }

  lemma ParsedParts(f: Format, target: Target, data: Text, p: Parsed)
    requires GoodMarkers(f) && Parse(f, target, data) == Ok(p) && p.region.Some?
    ensures Parted(f, data, p, data[..p.region.value.marker], data[p.region.value.stop..])
  {
    CountMeans(data, f.start);
    CountMeans(data, f.end);
    var g := p.region.value;
    var first :| Solo(data, f.start, first);
    var last :| Solo(data, f.end, last);
    assert first == g.marker && first < last && last < g.stop;
    SoloAround(data, f.start, first, g.marker, g.stop);
    SoloAround(data, f.end, last, g.marker, g.stop);
  }

  // ------------------------------------------------------------------ the planner's check

  /** The check the planner makes on the text it is about to write. */
  ghost predicate Passes(f: Format, target: Target, after: Text, rules: seq<Rule>, outside: Text)
    requires UsableFormat(f)
  {
    var verified := Parse(f, target, after);
    verified.Ok? && verified.value.rules == rules && verified.value.outside == outside
  }

  lemma PassesWithout(f: Format, target: Target, data: Text)
    requires GoodMarkers(f)
    ensures Passes(f, target, data, [], data) <==> ClearText(f, data)
  {
    ParsedWithout(f, target, data);
    if !ClearText(f, data) { ParsedShorter(f, target, data); }
  }

  lemma PassesAround(f: Format, target: Target, prefix: Text, rules: seq<Rule>, nl: Text, suffix: Text, outside: Text)
    requires GoodFormat(f) && GoodRules(f, target, rules) && SmallRules(rules)
    requires IsNewline(nl) && rules != [] && ClearText(f, prefix) && ClearText(f, suffix)
    ensures var data := prefix + ManagedBlock(f, rules, nl) + suffix;
            && |prefix| <= |data|
            && (Passes(f, target, data, rules, outside) <==>
                && DistinctIds(rules) && ClearOfMarkers(f, rules)
                && outside == prefix[..RegionStart(data, |prefix|, NewlineOf(data))] + suffix)
  {
    AroundShape(f, prefix, rules, nl, suffix);
    if ClearOfMarkers(f, rules) {
      ParseAround(f, target, prefix, rules, nl, suffix);
    } else {
      MentionBreaks(f, target, prefix, rules, nl, suffix);
    }
  }

  /** Replacing a block keeps the newline and so what counts as outside. */
  lemma PassesInPlace(f: Format, target: Target, data: Text, p: Parsed, prefix: Text, rules: seq<Rule>, suffix: Text)
    requires GoodFormat(f) && GoodRules(f, target, rules) && SmallRules(rules) && rules != []
    requires Parted(f, data, p, prefix, suffix)
    ensures Passes(f, target, prefix + ManagedBlock(f, rules, p.newline) + suffix, rules, p.outside) <==>
            DistinctIds(rules) && ClearOfMarkers(f, rules)
  {
    var after := prefix + ManagedBlock(f, rules, p.newline) + suffix;
    var g := p.region.value;
    if p.newline == "\n" {
      CrlfInSum(prefix, data[g.marker..]);
      assert prefix + data[g.marker..] == data;
      CrlfInSum(data[..g.stop], suffix);
      assert data[..g.stop] + suffix == data;
    }
    NewlineKept(f, target, prefix, rules, p.newline, suffix);
    PassesAround(f, target, prefix, rules, p.newline, suffix, p.outside);
    assert after[..g.marker] == prefix;
    RegionStartLocal(data, after, g.marker, p.newline);
    assert prefix[..g.start] == data[..g.start];
  }

  /** The document with the blank line the planner puts before a new block. */
  function Spaced(data: Text): Text {
    if data == "" then "" else data + NewlineOf(data) + NewlineOf(data)
  }

  lemma SpacedClear(f: Format, data: Text)
    requires GoodMarkers(f) && ClearText(f, data)
    ensures ClearText(f, Spaced(data))
  {
    var nl := NewlineOf(data);
    forall pat | pat in {f.start, f.end} ensures !Occurs(Spaced(data), pat) {
      AbsentFirst(nl, pat);
      OccursInSum(data, nl, pat);
      OccursInSum(data + nl, nl, pat);
    }
  }

  /** What precedes an appended block is the document itself, unless appending made a CRLF. */
  lemma SpacedStart(data: Text, tail: Text)
    requires tail != "" && tail[0] != '\n' && (NewlineOf(data) == "\n" ==> '\r' !in tail)
    ensures var s, at := Spaced(data) + tail, |Spaced(data)|;
            at <= |s| && (Spaced(data)[..RegionStart(s, at, NewlineOf(s))] == data <==> !LoneCrEnd(data))
  {
    var nl, spaced := NewlineOf(data), Spaced(data);
    var s, at := spaced + tail, |spaced|;
    if data != "" {
      CrlfInSum(data, nl + nl);
      assert data + (nl + nl) == spaced;
      CrlfInSum(nl, nl);
      CrlfInSum(spaced, tail);
      assert spaced[at - 1] == '\n';
      assert LoneCrEnd(data) <==> NewlineOf(s) != nl;
      assert s[|data|..at] == nl + nl;
      if LoneCrEnd(data) {
        assert NewlineOf(s) == "\r\n";
        assert at >= 4 ==> s[at - 4..at][2] == s[at - 2] == '\n';
        assert RegionStart(s, at, "\r\n") == at;
      } else {
        assert RegionStart(s, at, nl) == |data|;
      }
    }
  }

  lemma PassesAppended(f: Format, target: Target, data: Text, rules: seq<Rule>)
    requires GoodFormat(f) && GoodRules(f, target, rules) && SmallRules(rules) && rules != [] && ClearText(f, data)
    ensures Passes(f, target, Spaced(data) + ManagedBlock(f, rules, NewlineOf(data)), rules, data) <==>
            DistinctIds(rules) && ClearOfMarkers(f, rules) && !LoneCrEnd(data)
  {
    var nl := NewlineOf(data);
    var block := ManagedBlock(f, rules, nl);
    SpacedClear(f, data);
    BlockCrlf(f, target, rules, nl);
    SpacedStart(data, block);
    assert !Occurs("", f.start) && !Occurs("", f.end);
    PassesAround(f, target, Spaced(data), rules, nl, "", data);
    assert Spaced(data) + block + "" == Spaced(data) + block;
  }

  /** The text the planner writes for a parsed document. */
  function After(f: Format, data: Text, p: Parsed, rules: seq<Rule>): Text
    requires p.region.Some? ==> p.region.value.start <= p.region.value.marker <= p.region.value.stop <= |data|
  {
    if p.region.None? then (if rules == [] then data else Spaced(data) + ManagedBlock(f, rules, p.newline))
    else if rules == [] then data[..p.region.value.start] + data[p.region.value.stop..]
    else data[..p.region.value.marker] + ManagedBlock(f, rules, p.newline) + data[p.region.value.stop..]
  }

  lemma PlanWrites(f: Format, target: Target, data: Text, p: Parsed, rules: seq<Rule>)
    requires UsableFormat(f) && Parse(f, target, data) == Ok(p) && WithinBudget(f, rules, p.newline)
    requires forall i :: 0 <= i < |rules| ==> rules[i].target == target
    ensures ReplaceRegion(f, target, data, rules) == Ok(After(f, data, p, rules))
    ensures PlanReplace(f, target, data, rules).Ok? <==> Passes(f, target, After(f, data, p, rules), rules, p.outside)
    ensures PlanReplace(f, target, data, rules).Ok? ==>
            PlanReplace(f, target, data, rules).value == After(f, data, p, rules)
  {
    var nl := p.newline;
    assert nl == NewlineOf(data);
    assert data + (nl + nl) == data + nl + nl && data + "" == data;
    assert ReplaceRegion(f, target, data, rules) == Ok(After(f, data, p, rules));
  }

  lemma OverBudget(f: Format, target: Target, data: Text, p: Parsed, rules: seq<Rule>)
    requires UsableFormat(f) && Parse(f, target, data) == Ok(p) && !WithinBudget(f, rules, p.newline)
    ensures PlanReplace(f, target, data, rules).Err?
    ensures PlanReplace(f, target, data, rules) ==
            Err(if exists i :: 0 <= i < |rules| && rules[i].target != target then TargetMismatch else CapacityExceeded)
  {
    hide Parse, WithinBudget;
  }

  /**
   For every parseable document and every list of well-formed rules, the planner succeeds
   exactly when both budgets hold, the ids are distinct, no rule mentions a delimiter, an
   appended block does not follow a lone CR, and a removed block leaves no delimiter behind.
   */
  lemma PlanSucceedsExactly(f: Format, target: Target, data: Text, p: Parsed, rules: seq<Rule>)
    requires GoodFormat(f) && Parse(f, target, data) == Ok(p) && GoodRules(f, target, rules)
    ensures PlanReplace(f, target, data, rules).Ok? <==>
            WithinBudget(f, rules, p.newline) && DistinctIds(rules) && ClearOfMarkers(f, rules)
            && Replaceable(f, data, p, rules)
  {
    if WithinBudget(f, rules, p.newline) {
      WithinBudgetSucceeds(f, target, data, p, rules);
    } else {
      OverBudget(f, target, data, p, rules);
    }
  }

  lemma WithinBudgetSucceeds(f: Format, target: Target, data: Text, p: Parsed, rules: seq<Rule>)
    requires GoodFormat(f) && Parse(f, target, data) == Ok(p)
    requires GoodRules(f, target, rules) && WithinBudget(f, rules, p.newline)
    ensures PlanReplace(f, target, data, rules).Ok? <==>
            DistinctIds(rules) && ClearOfMarkers(f, rules) && Replaceable(f, data, p, rules)
  {
    PlanWrites(f, target, data, p, rules);
    ParsedWithout(f, target, data);
    if p.region.None? {
      if rules == [] { PassesWithout(f, target, data); } else { PassesAppended(f, target, data, rules); }
    } else {
      ParsedParts(f, target, data, p);
      if rules == [] {
        PassesWithout(f, target, p.outside);
      } else {
        PassesInPlace(f, target, data, p, data[..p.region.value.marker], rules, data[p.region.value.stop..]);
      }
    }
  }
}
