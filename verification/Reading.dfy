/** Exactly which documents the parser reads, and what it reads from them. */
module Reading {
  import opened Prelude
  import opened Strings
  import opened Instructions
  import opened RoundTrip
  import opened Plans

  // ------------------------------------------------------------------ one rule

  /** A text the format accepts: not empty, and without control characters. */
  ghost predicate Printable(x: Text) {
    x != "" && forall k :: 0 <= k < |x| ==> x[k] as int >= 0x20 && x[k] as int != 0x7f
  }

  /** Four lines from number `k` on spell this rule out, under the id of its own content. */
  ghost predicate GroupAt(f: Format, target: Target, lines: seq<Text>, k: int, r: Rule) {
    && 0 <= k && k + 4 <= |lines|
    && StartsWith(lines[k], "### ") && Strip(lines[k][4..]) == r.id && IsRuleId(r.id)
    && Spells(f, lines[k + 1], "- When: ", r.trigger) && Spells(f, lines[k + 2], "- Do: ", r.action)
    && Spells(f, lines[k + 3], "- Skip: ", r.skip)
    && r.target == target && r.id == f.idOf(target, r.trigger, r.action, r.skip)
    && Utf8Size(RenderRule(r, "\n")) <= 1024
  }

  /** The line is the prefix and a text whose normal form is `x`. */
  ghost predicate Spells(f: Format, line: Text, prefix: Text, x: Text) {
    && Printable(x)
    && exists raw :: raw != "" && line == prefix + raw && f.norm(raw) == x
  }

  lemma NormalIsPrintable(f: Format, x: Text)
    ensures NormalText(f, x) <==> Printable(x)
  {
  }

  lemma FieldSpells(f: Format, line: Text, prefix: Text, x: Text)
    ensures Spells(f, line, prefix, x) <==> IsField(line, prefix) && f.norm(line[|prefix|..]) == x && NormalText(f, x)
  {
    NormalIsPrintable(f, x);
    if raw :| raw != "" && line == prefix + raw && f.norm(raw) == x {
      assert line[..|prefix|] == prefix && line[|prefix|..] == raw;
    }
    if IsField(line, prefix) { assert line == prefix + line[|prefix|..]; }
  }

  lemma RuleReadExactly(f: Format, target: Target, lines: seq<Text>, r: Rule)
    requires lines != []
    ensures ParseRule(f, target, lines) == Ok(r) <==> GroupAt(f, target, lines, 0, r)
  {
    if |lines| >= 4 {
      FieldSpells(f, lines[1], "- When: ", r.trigger);
      FieldSpells(f, lines[2], "- Do: ", r.action);
      FieldSpells(f, lines[3], "- Skip: ", r.skip);
    }
    hide Spells, Strip, IsRuleId, Utf8Size, RenderRule, NormalText;
  }

  // ------------------------------------------------------------------ many rules

  /** The rules stand in groups at ascending places, and every other line is blank. */
  ghost predicate LaidOut(f: Format, target: Target, lines: seq<Text>, rules: seq<Rule>, at: seq<int>) {
    && |at| == |rules|
    && (forall i :: 0 <= i < |at| ==> GroupAt(f, target, lines, at[i], rules[i]))
    && (forall i, j :: 0 <= i < j < |at| ==> at[i] + 4 <= at[j])
    && (forall k :: 0 <= k < |lines| ==> IsBlank(lines[k]) || Covered(at, k))
  }

  ghost predicate Covered(at: seq<int>, k: int) {
    exists i :: 0 <= i < |at| && at[i] <= k < at[i] + 4
  }

  lemma {:induction false} TrimFrontExactly(lines: seq<Text>) returns (n: nat)
    ensures n <= |lines| && TrimFront(lines) == lines[n..] && forall k :: 0 <= k < n ==> IsBlank(lines[k])
  {
    hide IsBlank;
    n := 0;
    if lines != [] && IsBlank(lines[0]) {
      n := TrimFrontExactly(lines[1..]);
      assert forall k :: 0 < k < |lines| ==> lines[1..][k - 1] == lines[k];
      n := n + 1;
    }
  }

  lemma GroupNotBlank(f: Format, target: Target, lines: seq<Text>, k: int, r: Rule)
    requires GroupAt(f, target, lines, k, r)
    ensures !IsBlank(lines[k])
  {
    assert lines[k][..4] == "### ";
    assert lines[k][0] == lines[k][..4][0] && !IsSpace('#');
  }

  lemma GroupShift(f: Format, target: Target, lines: seq<Text>, d: nat, k: int, r: Rule)
    requires d <= |lines| && k >= 0
    ensures GroupAt(f, target, lines[d..], k, r) <==> GroupAt(f, target, lines, k + d, r)
  {
    hide Spells;
    if k + d + 4 <= |lines| {
      assert lines[d..][k] == lines[k + d] && lines[d..][k + 1] == lines[k + d + 1];
      assert lines[d..][k + 2] == lines[k + d + 2] && lines[d..][k + 3] == lines[k + d + 3];
    }
  }

  function Moved(at: seq<int>, d: int): seq<int> {
    seq(|at|, i requires 0 <= i < |at| => at[i] + d)
  }

  /** A layout read on from behind its first group. */
  lemma LayoutTail(f: Format, target: Target, lines: seq<Text>, rules: seq<Rule>, at: seq<int>)
    requires LaidOut(f, target, lines, rules, at) && rules != []
    ensures 0 <= at[0] && at[0] + 4 <= |lines|
    ensures LaidOut(f, target, lines[at[0] + 4..], rules[1..], Moved(at[1..], -(at[0] + 4)))
    ensures forall k :: 0 <= k < at[0] ==> IsBlank(lines[k])
  {
    hide GroupAt, IsBlank;
    var d := at[0] + 4;
    assert GroupAt(f, target, lines, at[0], rules[0]);
    GroupFits(f, target, lines, at[0], rules[0]);
    var rest, tail := lines[d..], Moved(at[1..], -d);
    forall i | 0 <= i < |tail| ensures GroupAt(f, target, rest, tail[i], rules[1..][i]) {
      assert GroupAt(f, target, lines, at[i + 1], rules[i + 1]);
      GroupShift(f, target, lines, d, tail[i], rules[i + 1]);
    }
    forall k | 0 <= k < |rest| ensures IsBlank(rest[k]) || Covered(tail, k) {
      if Covered(at, k + d) {
        var i :| 0 <= i < |at| && at[i] <= k + d < at[i] + 4;
        assert i > 0 && tail[i - 1] <= k < tail[i - 1] + 4;
      }
    }
    forall k | 0 <= k < at[0] ensures !Covered(at, k) {
      forall i | 0 <= i < |at| ensures at[0] <= at[i] { assert i == 0 || at[0] + 4 <= at[i]; }
    }
  }

  lemma GroupFits(f: Format, target: Target, lines: seq<Text>, k: int, r: Rule)
    requires GroupAt(f, target, lines, k, r)
    ensures 0 <= k && k + 4 <= |lines|
  {
  }

  /** And the other way round: one more group in front, after blank lines. */
  lemma LayoutFront(f: Format, target: Target, lines: seq<Text>, n: nat, r: Rule, rules: seq<Rule>, at: seq<int>)
    requires GroupAt(f, target, lines, n, r) && n + 4 <= |lines| && forall k :: 0 <= k < n ==> IsBlank(lines[k])
    requires LaidOut(f, target, lines[n + 4..], rules, at)
    ensures LaidOut(f, target, lines, [r] + rules, [n] + Moved(at, n + 4))
  {
    hide GroupAt, IsBlank;
    var d, all, made := n + 4, [n] + Moved(at, n + 4), [r] + rules;
    forall i | 0 <= i < |all| ensures GroupAt(f, target, lines, all[i], made[i]) && (i > 0 ==> all[i] >= d) {
      if i > 0 {
        assert GroupAt(f, target, lines[d..], at[i - 1], rules[i - 1]);
        GroupFits(f, target, lines[d..], at[i - 1], rules[i - 1]);
        GroupShift(f, target, lines, d, at[i - 1], rules[i - 1]);
      }
    }
    forall k | 0 <= k < |lines| ensures IsBlank(lines[k]) || Covered(all, k) {
      if n <= k < d {
        assert all[0] <= k < all[0] + 4;
      } else if k >= d && !IsBlank(lines[k]) {
        assert lines[d..][k - d] == lines[k];
        var i :| 0 <= i < |at| && at[i] <= k - d < at[i] + 4;
        assert all[i + 1] <= k < all[i + 1] + 4;
      }
    }
  }

  /** The rule loop reads exactly these rules when the lines are groups for them and blanks. */
  lemma {:induction false} RulesReadExactly(f: Format, target: Target, lines: seq<Text>, rules: seq<Rule>)
    ensures ParseRules(f, target, lines) == Ok(rules) <==> exists at :: LaidOut(f, target, lines, rules, at)
    decreases |lines|
  {
    var n := TrimFrontExactly(lines);
    if ParseRules(f, target, lines) == Ok(rules) {
      var at := LayoutRead(f, target, lines, n, rules);
    }
    if at :| LaidOut(f, target, lines, rules, at) {
      LayoutReads(f, target, lines, n, rules, at);
    }
  }

  lemma LayoutRead(f: Format, target: Target, lines: seq<Text>, n: nat, rules: seq<Rule>) returns (at: seq<int>)
    requires n <= |lines| && TrimFront(lines) == lines[n..] && forall k :: 0 <= k < n ==> IsBlank(lines[k])
    requires ParseRules(f, target, lines) == Ok(rules)
    ensures LaidOut(f, target, lines, rules, at)
    decreases |lines|, 0
  {
    hide GroupAt, IsBlank;
    if n == |lines| {
      at := [];
    } else {
      hide ParseRule;
      var rest := lines[n..];
      RuleReadExactly(f, target, rest, rules[0]);
      GroupFits(f, target, rest, 0, rules[0]);
      GroupShift(f, target, lines, n, 0, rules[0]);
      assert rest[4..] == lines[n + 4..] && rules == [rules[0]] + rules[1..];
      hide TrimFront, LaidOut;
      RulesReadExactly(f, target, lines[n + 4..], rules[1..]);
      var tail :| LaidOut(f, target, lines[n + 4..], rules[1..], tail);
      LayoutFront(f, target, lines, n, rules[0], rules[1..], tail);
      at := [n] + Moved(tail, n + 4);
    }
  }

  lemma TrimmedNotBlank(lines: seq<Text>, n: nat)
    requires n <= |lines| && TrimFront(lines) == lines[n..]
    ensures n < |lines| ==> !IsBlank(lines[n])
  {
    hide IsBlank;
    assert n < |lines| ==> lines[n..][0] == lines[n];
  }

  lemma LayoutReads(f: Format, target: Target, lines: seq<Text>, n: nat, rules: seq<Rule>, at: seq<int>)
    requires n <= |lines| && TrimFront(lines) == lines[n..] && forall k :: 0 <= k < n ==> IsBlank(lines[k])
    requires LaidOut(f, target, lines, rules, at)
    ensures ParseRules(f, target, lines) == Ok(rules)
    decreases |lines|, 0
  {
    hide GroupAt, IsBlank, ParseRule;
    TrimmedNotBlank(lines, n);
    if rules == [] {
      assert forall k :: 0 <= k < |lines| ==> !Covered(at, k);
      assert n == |lines|;
    } else {
      LayoutTail(f, target, lines, rules, at);
      assert GroupAt(f, target, lines, at[0], rules[0]);
      GroupNotBlank(f, target, lines, at[0], rules[0]);
      assert n == at[0];
      GroupShift(f, target, lines, n, 0, rules[0]);
      RuleReadExactly(f, target, lines[n..], rules[0]);
      RulesReadExactly(f, target, lines[n + 4..], rules[1..]);
      assert lines[n..][4..] == lines[n + 4..] && rules == [rules[0]] + rules[1..];
    }
  }

  // ------------------------------------------------------------------ the block

  /** Between the delimiters stand the heading, the rules, and blank lines, and no id comes twice. */
  ghost predicate BlockReads(f: Format, target: Target, inner: Text, rules: seq<Rule>) {
    DistinctIds(rules) && exists h, at :: BlockAt(f, target, Split(Unix(inner)), rules, h, at)
  }

  ghost predicate BlockAt(f: Format, target: Target, lines: seq<Text>, rules: seq<Rule>, h: int, at: seq<int>) {
    && 0 <= h < |lines| && lines[h] == f.heading && (forall k :: 0 <= k < h ==> IsBlank(lines[k]))
    && LaidOut(f, target, lines[h + 1..], rules, at)
  }

  lemma {:induction false} TrimBackExactly(lines: seq<Text>) returns (n: nat)
    ensures n <= |lines| && TrimBack(lines) == lines[..n] && forall k :: n <= k < |lines| ==> IsBlank(lines[k])
    ensures n > 0 ==> !IsBlank(lines[n - 1])
  {
    hide IsBlank;
    n := |lines|;
    if lines != [] && IsBlank(lines[|lines| - 1]) {
      var init := lines[..|lines| - 1];
      n := TrimBackExactly(init);
      assert forall k :: 0 <= k < |init| ==> init[k] == lines[k];
    }
  }

  /** Blank lines at the end change no layout. */
  lemma LayoutBlankEnd(f: Format, target: Target, lines: seq<Text>, n: nat, rules: seq<Rule>, at: seq<int>)
    requires n <= |lines| && forall k :: n <= k < |lines| ==> IsBlank(lines[k])
    ensures LaidOut(f, target, lines[..n], rules, at) ==> LaidOut(f, target, lines, rules, at)
  {
    hide IsBlank, Spells;
    assert forall k :: 0 <= k < n ==> lines[..n][k] == lines[k];
    if LaidOut(f, target, lines[..n], rules, at) {
      forall i | 0 <= i < |at| ensures GroupAt(f, target, lines, at[i], rules[i]) {
        assert GroupAt(f, target, lines[..n], at[i], rules[i]);
      }
    }
  }

  lemma FieldNotBlank(f: Format, line: Text, prefix: Text, x: Text)
    requires Spells(f, line, prefix, x) && prefix != "" && prefix[0] == '-'
    ensures !IsBlank(line)
  {
    var raw :| raw != "" && line == prefix + raw && f.norm(raw) == x;
    assert line[0] == '-' && !IsSpace('-');
  }

  /** A group ends on a line that is not blank, so it does not reach into blank lines at the end. */
  lemma GroupInside(f: Format, target: Target, lines: seq<Text>, n: nat, k: int, r: Rule)
    requires n <= |lines| && (forall m :: n <= m < |lines| ==> IsBlank(lines[m])) && GroupAt(f, target, lines, k, r)
    ensures k + 4 <= n && GroupAt(f, target, lines[..n], k, r)
  {
    FieldNotBlank(f, lines[k + 3], "- Skip: ", r.skip);
    hide IsBlank, Spells;
    assert forall m :: 0 <= m < n ==> lines[..n][m] == lines[m];
  }

  lemma LayoutCutEnd(f: Format, target: Target, lines: seq<Text>, n: nat, rules: seq<Rule>, at: seq<int>)
    requires n <= |lines| && forall k :: n <= k < |lines| ==> IsBlank(lines[k])
    requires LaidOut(f, target, lines, rules, at)
    ensures LaidOut(f, target, lines[..n], rules, at)
  {
    hide IsBlank, GroupAt;
    assert forall k :: 0 <= k < n ==> lines[..n][k] == lines[k];
    forall i | 0 <= i < |at| ensures GroupAt(f, target, lines[..n], at[i], rules[i]) {
      assert GroupAt(f, target, lines, at[i], rules[i]);
      GroupInside(f, target, lines, n, at[i], rules[i]);
    }
  }

  /** Leading and trailing blank lines apart, the lines between the delimiters are these. */
  lemma LinesAre(inner: Text) returns (h: nat, n: nat)
    ensures var lines := Split(Unix(inner));
            && h <= n <= |lines| && LinesOf(inner) == lines[h..n]
            && (forall k :: 0 <= k < h ==> IsBlank(lines[k])) && (forall k :: n <= k < |lines| ==> IsBlank(lines[k]))
            && (h < n ==> !IsBlank(lines[h]))
  {
    hide IsBlank, Split, Unix;
    var lines := Split(Unix(inner));
    h := TrimFrontExactly(lines);
    TrimmedNotBlank(lines, h);
    var m := TrimBackExactly(lines[h..]);
    n := h + m;
    assert forall k :: h <= k < |lines| ==> lines[h..][k - h] == lines[k];
    assert lines[h..][..m] == lines[h..n];
  }

  /** The block is read, and read as these rules, exactly when it is laid out so. */
  lemma BlockReadExactly(f: Format, target: Target, inner: Text, rules: seq<Rule>)
    requires !IsBlank(f.heading)
    ensures ParseBlock(f, target, inner) == Ok(rules) <==> BlockReads(f, target, inner, rules)
  {
    hide IsBlank, Split, Unix, LaidOut, ParseRules, LinesOf;
    var lines := Split(Unix(inner));
    var h, n := LinesAre(inner);
    if h < n {
      var body, rest := lines[h + 1..n], lines[h + 1..];
      assert rest[..n - (h + 1)] == body && LinesOf(inner)[1..] == body && LinesOf(inner)[0] == lines[h];
      assert forall k :: n - (h + 1) <= k < |rest| ==> rest[k] == lines[k + h + 1];
      RulesReadExactly(f, target, body, rules);
      DistinctIdsCount(rules);
      if at :| LaidOut(f, target, body, rules, at) {
        LayoutBlankEnd(f, target, rest, n - (h + 1), rules, at);
        assert lines[h] == f.heading ==> BlockAt(f, target, lines, rules, h, at);
      }
      forall g, at | BlockAt(f, target, lines, rules, g, at)
        ensures g == h && LaidOut(f, target, body, rules, at)
      {
        LayoutCutEnd(f, target, rest, n - (h + 1), rules, at);
      }
    } else {
      forall g, at ensures !BlockAt(f, target, lines, rules, g, at) { }
    }
  }

  // ------------------------------------------------------------------ the document

  /** Where the block ends: behind its delimiter and the newline that follows. */
  ghost predicate StopsAt(data: Text, after: nat, stop: nat) {
    && after <= stop <= |data|
    && stop == after + if StartsWith(data[after..], "\r\n") then 2 else if StartsWith(data[after..], "\n") then 1 else 0
  }

  /** Where it begins: an empty line in front of it goes with it. */
  ghost predicate StartsAt(data: Text, marker: nat, nl: Text, start: nat) {
    if exists k :: MatchesAt(data, nl + nl, k) && k + |nl + nl| == marker then start == marker - |nl + nl|
    else start == marker
  }

  /** A document with one block: each delimiter in one place only, and rules laid out between them. */
  ghost predicate Reads(f: Format, target: Target, data: Text, p: Parsed, first: nat, last: nat) {
    && Solo(data, f.start, first) && Solo(data, f.end, last) && first + |f.start| <= last
    && BlockReads(f, target, data[first + |f.start|..last], p.rules)
    && CutsOut(data, p, first, last + |f.end|)
  }

  /** The region is cut out of the text, in the newline of the whole document. */
  ghost predicate CutsOut(data: Text, p: Parsed, first: nat, after: nat) {
    var nl := if exists k :: MatchesAt(data, "\r\n", k) then "\r\n" else "\n";
    && p.newline == nl && p.region.Some? && p.region.value.marker == first
    && StartsAt(data, first, nl, p.region.value.start) && StopsAt(data, after, p.region.value.stop)
    && p.region.value.start <= p.region.value.stop <= |data|
    && p.outside == data[..p.region.value.start] + data[p.region.value.stop..]
  }

  lemma AssembledExactly(f: Format, data: Text, first: nat, last: nat, rules: seq<Rule>, p: Parsed)
    requires f.end != "" && first < last && last + |f.end| <= |data|
    ensures Assemble(f, data, first, last, Ok(rules)) == Ok(p) <==>
            p.rules == rules && CutsOut(data, p, first, last + |f.end|)
  {
    hide StartsAt, RegionStart;
    NewlineExactly(data);
    StartExactly(data, first, NewlineOf(data));
    if p.region.Some? && StartsAt(data, first, NewlineOf(data), p.region.value.start) {
      StartOnce(data, first, NewlineOf(data), RegionStart(data, first, NewlineOf(data)), p.region.value.start);
    }
  }

  lemma NewlineExactly(data: Text)
    ensures NewlineOf(data) == if exists k :: MatchesAt(data, "\r\n", k) then "\r\n" else "\n"
  {
    if HasCrlf(data) {
      var k :| 0 <= k < |data| - 1 && data[k] == '\r' && data[k + 1] == '\n';
      assert MatchesAt(data, "\r\n", k);
    }
    if k :| MatchesAt(data, "\r\n", k) {
      assert data[k..k + 2][0] == data[k] && data[k..k + 2][1] == data[k + 1];
    }
  }

  lemma StartExactly(data: Text, marker: nat, nl: Text)
    requires marker <= |data|
    ensures StartsAt(data, marker, nl, RegionStart(data, marker, nl))
  {
    var sep := nl + nl;
    if marker >= |sep| && data[marker - |sep|..marker] == sep { assert MatchesAt(data, sep, marker - |sep|); }
  }

  lemma StartOnce(data: Text, marker: nat, nl: Text, a: nat, b: nat)
    requires StartsAt(data, marker, nl, a) && StartsAt(data, marker, nl, b)
    ensures a == b
  {
  }

  lemma DelimitersApart(f: Format, data: Text, first: int, last: int)
    requires GoodMarkers(f) && MatchesAt(data, f.start, first) && MatchesAt(data, f.end, last) && first < last
    ensures first + |f.start| <= last
  {
    forall m | first < m < first + |f.start| ensures data[m] != '<' {
      assert data[first..first + |f.start|][m - first] == f.start[m - first];
    }
    assert data[last..last + |f.end|][0] == data[last] == '<';
  }

  lemma BetweenReadExactly(f: Format, target: Target, data: Text, p: Parsed, first: nat, last: nat)
    requires f.start != "" && f.end != "" && !IsBlank(f.heading)
    requires first + |f.start| <= last && last + |f.end| <= |data|
    ensures ParseAt(f, target, data, first, last) == Ok(p) <==>
            BlockReads(f, target, data[first + |f.start|..last], p.rules) && CutsOut(data, p, first, last + |f.end|)
  {
    hide CutsOut, BlockReads, ParseBlock, Assemble, IsBlank;
    var inner := data[first + |f.start|..last];
    var read := ParseBlock(f, target, inner);
    assert Slice(data, first + |f.start|, last) == inner;
    assert ParseAt(f, target, data, first, last) == Assemble(f, data, first, last, read);
    hide ParseAt, Slice;
    BlockReadExactly(f, target, inner, p.rules);
    if read.Ok? {
      BlockReadExactly(f, target, inner, read.value);
      AssembledExactly(f, data, first, last, read.value, p);
    } else {
      AssembleFails(f, data, first, last, read);
    }
  }

  lemma OutOfOrder(f: Format, target: Target, data: Text, first: nat, last: nat)
    requires UsableFormat(f) && last <= first
    ensures ParseAt(f, target, data, first, last) == Err(BlockInvalid)
  {
    hide Assemble, ParseBlock, Slice;
  }

  /** What the parser makes of a document with each delimiter in one place. */
  lemma RegionReadExactly(f: Format, target: Target, data: Text, p: Parsed, first: nat, last: nat)
    requires GoodFormat(f) && Solo(data, f.start, first) && Solo(data, f.end, last)
    ensures ParseAt(f, target, data, first, last) == Ok(p) <==> Reads(f, target, data, p, first, last)
    ensures last <= first ==> ParseAt(f, target, data, first, last) == Err(BlockInvalid)
  {
    hide ParseAt, CutsOut, BlockReads;
    SoloMatches(f, data, first, last);
    if first < last {
      DelimitersApart(f, data, first, last);
      BetweenReadExactly(f, target, data, p, first, last);
    } else {
      OutOfOrder(f, target, data, first, last);
    }
  }

  lemma AssembleFails(f: Format, data: Text, first: nat, last: nat, rules: Result<seq<Rule>, Error>)
    requires f.end != "" && first < last && last + |f.end| <= |data| && rules.Err?
    ensures Assemble(f, data, first, last, rules).Err?
  {
  }

  lemma SoloMatches(f: Format, data: Text, first: nat, last: nat)
    requires Solo(data, f.start, first) && Solo(data, f.end, last)
    ensures MatchesAt(data, f.start, first) && MatchesAt(data, f.end, last)
  {
  }

  /**
   A document is read exactly when it has no delimiter at all, and then it has no rules; or when
   it has each of them in one place, in order, with the heading and rules between them.
   */
  lemma DocumentReadExactly(f: Format, target: Target, data: Text, p: Parsed)
    requires GoodFormat(f)
    ensures Parse(f, target, data) == Ok(p) <==>
            || (!Occurs(data, f.start) && !Occurs(data, f.end) && p == Parsed([], None, NewlineOf(data), data))
            || exists first, last :: Reads(f, target, data, p, first, last)
    ensures (Occurs(data, f.start) || Occurs(data, f.end))
            && (forall first, last :: !(Solo(data, f.start, first) && Solo(data, f.end, last) && first < last)) ==>
              Parse(f, target, data) == Err(BlockInvalid)
  {
    CountMeans(data, f.start);
    CountMeans(data, f.end);
    if Count(data, f.start) == 1 && Count(data, f.end) == 1 {
      var first, last := Index(data, f.start), Index(data, f.end);
      RegionReadExactly(f, target, data, p, first, last);
    }
    hide ParseAt, BlockReads;
  }
}
