/** The parser as the source runs it: a list of lines, popped from both ends. */
module DocumentReader {
  import opened Prelude
  import opened Strings
  import opened Instructions

  method ReadLines(inner: Text) returns (lines: seq<Text>)
    ensures lines == LinesOf(inner)
  {
    lines := Split(Unix(inner));
    while lines != [] && IsBlank(lines[0])
      invariant TrimFront(lines) == TrimFront(Split(Unix(inner)))
      decreases |lines|
    {
      lines := lines[1..];
    }
    ghost var front := lines;
    while lines != [] && IsBlank(lines[|lines| - 1])
      invariant TrimBack(lines) == TrimBack(front)
      decreases |lines|
    {
      lines := lines[..|lines| - 1];
    }
  }

  /** What was read so far, put before what is still to read. */
  function Prepend(rules: seq<Rule>, rest: Result<seq<Rule>, Error>): Result<seq<Rule>, Error> {
    if rest.Err? then rest else Ok(rules + rest.value)
  }

  method ReadRules(f: Format, target: Target, body: seq<Text>) returns (r: Result<seq<Rule>, Error>)
    ensures r == ParseRules(f, target, body)
  {
    var lines := body;
    var rules: seq<Rule> := [];
    assert forall x: Result<seq<Rule>, Error> :: x.Ok? ==> [] + x.value == x.value;
    while lines != []
      invariant ParseRules(f, target, body) == Prepend(rules, ParseRules(f, target, lines))
      decreases |lines|
    {
      ghost var before := lines;
      while lines != [] && IsBlank(lines[0])
        invariant TrimFront(lines) == TrimFront(before) && |lines| <= |before|
        decreases |lines|
      {
        lines := lines[1..];
      }
      if lines == [] {
        break;
      }
      var rule := ParseRule(f, target, lines);
      if rule.Err? {
        return Err(rule.error);
      }
      Step(rules, rule.value, ParseRules(f, target, lines[4..]));
      rules := rules + [rule.value];
      lines := lines[4..];
    }
    assert rules + [] == rules;
    r := Ok(rules);
  }

  lemma Step(rules: seq<Rule>, rule: Rule, rest: Result<seq<Rule>, Error>)
    ensures Prepend(rules, Prepend([rule], rest)) == Prepend(rules + [rule], rest)
  {
    if rest.Ok? { assert rules + ([rule] + rest.value) == rules + [rule] + rest.value; }
  }

  method ReadBlock(f: Format, target: Target, inner: Text) returns (r: Result<seq<Rule>, Error>)
    ensures r == ParseBlock(f, target, inner)
  {
    var lines := ReadLines(inner);
    if lines == [] || lines[0] != f.heading {
      return Err(BlockInvalid);
    }
    r := ReadRules(f, target, lines[1..]);
    if r.Ok? && |Ids(r.value)| != |r.value| {
      return Err(DuplicateRule);
    }
  }

  method CutRegion(f: Format, data: Text, first: nat, last: nat, rules: seq<Rule>) returns (r: Result<Parsed, Error>)
    requires f.end != "" && first < last && last + |f.end| <= |data|
    ensures r == Assemble(f, data, first, last, Ok(rules))
  {
    var nl := NewlineOf(data);
    var stop := last + |f.end|;
    if StartsWith(data[stop..], "\r\n") {
      stop := stop + 2;
    } else if StartsWith(data[stop..], "\n") {
      stop := stop + 1;
    }
    var start := RegionStart(data, first, nl);
    r := Ok(Parsed(rules, Some(Region(first, start, stop)), nl, data[..start] + data[stop..]));
  }

  method ReadRegion(f: Format, target: Target, data: Text, first: nat, last: nat) returns (r: Result<Parsed, Error>)
    requires UsableFormat(f)
    ensures r == ParseAt(f, target, data, first, last)
  {
    if last <= first || last + |f.end| > |data| {
      return Err(BlockInvalid);
    }
    var rules := ReadBlock(f, target, Slice(data, first + |f.start|, last));
    if rules.Err? {
      return Err(rules.error);
    }
    r := CutRegion(f, data, first, last, rules.value);
  }

  /** The whole parser computes `Parse`, the function every result about documents is stated on. */
  method ReadDocument(f: Format, target: Target, data: Text) returns (r: Result<Parsed, Error>)
    requires UsableFormat(f)
    ensures r == Parse(f, target, data)
  {
    var starts, ends := Count(data, f.start), Count(data, f.end);
    if starts == 0 && ends == 0 {
      return Ok(Parsed([], None, NewlineOf(data), data));
    }
    if starts != 1 || ends != 1 {
      return Err(BlockInvalid);
    }
    r := ReadRegion(f, target, data, Index(data, f.start), Index(data, f.end));
  }
}
