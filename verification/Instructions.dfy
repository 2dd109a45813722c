/**
 The managed block inside an instruction document: printing, parsing, replacing. The whole
 document is parsed again after every replacement, exactly as the planner does.
 */
module Instructions {
  import opened Prelude
  import opened Strings

  datatype Target = GlobalAgents | ProjectAgents

  datatype Rule = Rule(target: Target, trigger: Text, action: Text, skip: Text, id: Text)

  datatype Error =
    | BlockInvalid | InvalidRuleId | InvalidProposal | IdMismatch | DuplicateRule
    | CapacityExceeded | TargetMismatch | RoundTripFailed | OutsideChanged
    | RevisionInvalid | EditDuplicate | InvalidBundle | RevisionStale | NotApplicable | RuleNotFound

  /**
   The fixed texts of the format, and the two functions kept abstract: text normalisation
   (NFC, then strip) and the rule id computed from the hash of the content.
   */
  datatype Format = Format(start: Text, end: Text, heading: Text,
                           norm: Text -> Text, idOf: (Target, Text, Text, Text) -> Text)

  const MAX_RULE_BYTES: nat := 1024
  const MAX_BLOCK_BYTES: nat := 8 * 1024

  const BLOCK_START: Text := "<!-- agent-memory:confirmed-rules:start -->"
  const BLOCK_END: Text := "<!-- agent-memory:confirmed-rules:end -->"
  const BLOCK_HEADING: Text := "## Confirmed collaboration rules"

  predicate IsHex(c: char) {
    '0' <= c <= '9' || 'a' <= c <= 'f'
  }

  predicate IsRuleId(id: Text) {
    |id| == 17 && id[..5] == "rule_" && forall k :: 5 <= k < 17 ==> IsHex(id[k])
  }

  ghost predicate GoodFormat(f: Format) {
    && GoodMarkers(f)
    && OneLine(f.heading) && !IsBlank(f.heading) && '<' !in f.heading
    && (forall t, a, b, c :: IsRuleId(f.idOf(t, a, b, c)))
  }

  ghost predicate GoodMarkers(f: Format) {
    && Marker(f.start) && Marker(f.end) && f.start[0] == '<' && f.end[0] == '<'
    && OneLine(f.start) && OneLine(f.end)
    && !Occurs(f.start, f.end) && !Occurs(f.end, f.start)
  }

  // ------------------------------------------------------------------ printing

  function RuleLines(r: Rule): seq<Text> {
    ["### " + r.id, "- When: " + r.trigger, "- Do: " + r.action, "- Skip: " + r.skip]
  }

  function RenderRule(r: Rule, nl: Text): Text {
    Join(RuleLines(r), nl)
  }

  function Renders(rules: seq<Rule>, nl: Text): seq<Text> {
    seq(|rules|, i requires 0 <= i < |rules| => RenderRule(rules[i], nl))
  }

  function ManagedBlock(f: Format, rules: seq<Rule>, nl: Text): Text {
    if rules == [] then ""
    else f.start + nl + Join([f.heading] + Renders(rules, nl), nl + nl) + nl + f.end + nl
  }

  // ------------------------------------------------------------------ parsing

  predicate HasCrlf(s: Text) {
    exists k :: 0 <= k < |s| - 1 && s[k] == '\r' && s[k + 1] == '\n'
  }

  function NewlineOf(s: Text): (nl: Text)
    ensures IsNewline(nl)
  {
    if HasCrlf(s) then "\r\n" else "\n"
  }

  predicate NormalText(f: Format, x: Text) {
    x != "" && !HasControl(x)
  }

  /** A rule from texts as a person or a file gives them. */
  function Create(f: Format, target: Target, trigger: Text, action: Text, skip: Text): Result<Rule, Error> {
    var t, a, s := f.norm(trigger), f.norm(action), f.norm(skip);
    if !NormalText(f, t) || !NormalText(f, a) || !NormalText(f, s) then Err(InvalidProposal)
    else
      var r := Rule(target, t, a, s, f.idOf(target, t, a, s));
      if Utf8Size(RenderRule(r, "\n")) > MAX_RULE_BYTES then Err(CapacityExceeded) else Ok(r)
  }

  predicate IsField(line: Text, prefix: Text) {
    StartsWith(line, prefix) && |line| > |prefix|
  }

  /** One rule from the first four lines. */
  function ParseRule(f: Format, target: Target, lines: seq<Text>): Result<Rule, Error>
    requires lines != []
  {
    if !StartsWith(lines[0], "### ") || |lines| < 4 then Err(BlockInvalid)
    else if !IsRuleId(Strip(lines[0][4..])) then Err(InvalidRuleId)
    else if !IsField(lines[1], "- When: ") || !IsField(lines[2], "- Do: ") || !IsField(lines[3], "- Skip: ") then
      Err(BlockInvalid)
    else
      var r := Create(f, target, lines[1][8..], lines[2][6..], lines[3][8..]);
      if r.Ok? && r.value.id != Strip(lines[0][4..]) then Err(IdMismatch) else r
  }

  function TrimFront(lines: seq<Text>): (r: seq<Text>)
    ensures |r| <= |lines|
    ensures r != [] ==> !IsBlank(r[0])
  {
    if lines != [] && IsBlank(lines[0]) then TrimFront(lines[1..]) else lines
  }

  function TrimBack(lines: seq<Text>): (r: seq<Text>)
    ensures |r| <= |lines|
  {
    if lines != [] && IsBlank(lines[|lines| - 1]) then TrimBack(lines[..|lines| - 1]) else lines
  }

  function ParseRules(f: Format, target: Target, lines: seq<Text>): Result<seq<Rule>, Error>
    decreases |lines|
  {
    var rest := TrimFront(lines);
    if rest == [] then Ok([])
    else
      var r := ParseRule(f, target, rest);
      if r.Err? then Err(r.error)
      else
        var more := ParseRules(f, target, rest[4..]);
        if more.Err? then more else Ok([r.value] + more.value)
  }

  ghost predicate DistinctIds(rules: seq<Rule>) {
    forall i, j :: 0 <= i < j < |rules| ==> rules[i].id != rules[j].id
  }

  function Ids(rules: seq<Rule>): set<Text> {
    set i | 0 <= i < |rules| :: rules[i].id
  }

  /** The lines between the markers, blank ones at either end dropped. */
  function LinesOf(inner: Text): seq<Text> {
    TrimBack(TrimFront(Split(Unix(inner))))
  }

  function ParseBlock(f: Format, target: Target, inner: Text): Result<seq<Rule>, Error> {
    var lines := LinesOf(inner);
    if lines == [] || lines[0] != f.heading then Err(BlockInvalid)
    else
      var rules := ParseRules(f, target, lines[1..]);
      if rules.Ok? && |Ids(rules.value)| != |rules.value| then Err(DuplicateRule) else rules
  }

  /** Where the block sits: its marker, and the region removed with it. */
  datatype Region = Region(marker: nat, start: nat, stop: nat)

  datatype Parsed = Parsed(rules: seq<Rule>, region: Option<Region>, newline: Text, outside: Text)

  /** The newline after the end marker belongs to the region. */
  function RegionStop(data: Text, after: nat): (stop: nat)
    requires after <= |data|
    ensures after <= stop <= |data|
  {
    if StartsWith(data[after..], "\r\n") then after + 2
    else if StartsWith(data[after..], "\n") then after + 1
    else after
  }

  /** So does a blank line before the start marker, in the document's own newline. */
  function RegionStart(data: Text, marker: nat, nl: Text): (start: nat)
    requires marker <= |data|
    ensures start <= marker
  {
    var separator := nl + nl;
    if marker >= |separator| && data[marker - |separator|..marker] == separator then marker - |separator| else marker
  }

  function Slice(s: Text, lo: int, hi: int): Text {
    if 0 <= lo <= hi <= |s| then s[lo..hi] else ""
  }

  predicate UsableFormat(f: Format) {
    f.start != "" && f.end != ""
  }

  /** The parse of a document from where its only markers stand and what was read between them. */
  function Assemble(f: Format, data: Text, first: nat, last: nat, rules: Result<seq<Rule>, Error>)
    : (r: Result<Parsed, Error>)
    requires f.end != "" && first < last && last + |f.end| <= |data|
    ensures r.Ok? ==> r.value.region.Some? && r.value.region.value.start <= first < r.value.region.value.stop <= |data|
    ensures r.Ok? ==> r.value.region.value.marker == first
  {
    if rules.Err? then Err(rules.error)
    else
      var start, stop := RegionStart(data, first, NewlineOf(data)), RegionStop(data, last + |f.end|);
      Ok(Parsed(rules.value, Some(Region(first, start, stop)), NewlineOf(data), data[..start] + data[stop..]))
  }

  function ParseAt(f: Format, target: Target, data: Text, first: nat, last: nat): (r: Result<Parsed, Error>)
    requires UsableFormat(f)
    ensures r.Ok? ==> r.value.region.Some? && r.value.region.value.start <= first < r.value.region.value.stop <= |data|
    ensures r.Ok? ==> r.value.region.value.marker == first
  {
    if last <= first || last + |f.end| > |data| then Err(BlockInvalid)
    else Assemble(f, data, first, last, ParseBlock(f, target, Slice(data, first + |f.start|, last)))
  }

  function Parse(f: Format, target: Target, data: Text): (r: Result<Parsed, Error>)
    requires UsableFormat(f)
    ensures r.Ok? && r.value.region.Some? ==>
              var g := r.value.region.value; g.start <= g.marker < g.stop <= |data|
  {
    if Count(data, f.start) == 0 && Count(data, f.end) == 0 then Ok(Parsed([], None, NewlineOf(data), data))
    else if Count(data, f.start) != 1 || Count(data, f.end) != 1 then Err(BlockInvalid)
    else ParseAt(f, target, data, Index(data, f.start), Index(data, f.end))
  }

  // ------------------------------------------------------------------ replacing

  predicate WithinBudget(f: Format, rules: seq<Rule>, nl: Text) {
    && (forall i :: 0 <= i < |rules| ==> Utf8Size(RenderRule(rules[i], "\n")) <= MAX_RULE_BYTES)
    && Utf8Size(ManagedBlock(f, rules, nl)) <= MAX_BLOCK_BYTES
  }

  function ReplaceRegion(f: Format, target: Target, data: Text, rules: seq<Rule>): Result<Text, Error>
    requires UsableFormat(f)
  {
    match Parse(f, target, data)
    case Err(e) => Err(e)
    case Ok(p) =>
      var block := ManagedBlock(f, rules, p.newline);
      if !WithinBudget(f, rules, p.newline) then Err(CapacityExceeded)
      else if p.region.None? then
        if rules == [] then Ok(data)
        else Ok(data + (if data == "" then "" else p.newline + p.newline) + block)
      else
        var g := p.region.value;
        if rules == [] then Ok(data[..g.start] + data[g.stop..])
        else Ok(data[..g.marker] + block + data[g.stop..])
  }

  /** The planner: replace, parse the result again, and compare rules and outside text. */
  function PlanReplace(f: Format, target: Target, data: Text, rules: seq<Rule>): Result<Text, Error>
    requires UsableFormat(f)
  {
    var before := Parse(f, target, data);
    if before.Err? then Err(before.error)
    else if exists i :: 0 <= i < |rules| && rules[i].target != target then Err(TargetMismatch)
    else
      var after := ReplaceRegion(f, target, data, rules);
      if after.Err? then after
      else
        var verified := Parse(f, target, after.value);
        if verified.Err? then Err(verified.error)
        else if verified.value.rules != rules then Err(RoundTripFailed)
        else if verified.value.outside != before.value.outside then Err(OutsideChanged)
        else after
  }

  // ------------------------------------------------------------------ the conditions

  /** A rule as `from_proposal` makes it: normalised texts and the id of its own content. */
  ghost predicate GoodRule(f: Format, target: Target, r: Rule) {
    && r.target == target && r.id == f.idOf(target, r.trigger, r.action, r.skip)
    && Normalised(f, r.trigger) && Normalised(f, r.action) && Normalised(f, r.skip)
  }

  ghost predicate Normalised(f: Format, x: Text) {
    f.norm(x) == x && NormalText(f, x)
  }

  ghost predicate GoodRules(f: Format, target: Target, rules: seq<Rule>) {
    forall i :: 0 <= i < |rules| ==> GoodRule(f, target, rules[i])
  }

  ghost predicate ClearOfMarkers(f: Format, rules: seq<Rule>) {
    forall i :: 0 <= i < |rules| ==>
      ClearText(f, rules[i].trigger) && ClearText(f, rules[i].action) && ClearText(f, rules[i].skip)
  }

  ghost predicate ClearText(f: Format, x: Text) {
    !Occurs(x, f.start) && !Occurs(x, f.end)
  }

  /** The document without a CRLF that ends in a lone CR: appending LF to it would make one. */
  predicate LoneCrEnd(data: Text) {
    data != "" && !HasCrlf(data) && data[|data| - 1] == '\r'
  }

  /** What the document must allow: no lone CR to append to, no delimiter born by removal. */
  ghost predicate Replaceable(f: Format, data: Text, p: Parsed, rules: seq<Rule>) {
    && (p.region.None? && rules != [] ==> !LoneCrEnd(data))
    && (p.region.Some? && rules == [] ==> ClearText(f, p.outside))
  }
}
