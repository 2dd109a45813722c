/** Searching, splitting and measuring text, as the byte and string methods of the source do. */
module Strings {
  import opened Prelude

  // ------------------------------------------------------------------ search

  ghost predicate MatchesAt(s: Text, pat: Text, i: int) {
    0 <= i && i + |pat| <= |s| && s[i..i + |pat|] == pat
  }

  ghost predicate Occurs(s: Text, pat: Text) {
    exists i :: MatchesAt(s, pat, i)
  }

  ghost predicate Solo(s: Text, pat: Text, p: int) {
    MatchesAt(s, pat, p) && forall i :: MatchesAt(s, pat, i) ==> i == p
  }

  /** `count`: occurrences found left to right without overlap. */
  function CountFrom(s: Text, pat: Text, i: nat): nat
    requires pat != "" && i <= |s|
    decreases |s| - i
  {
    if i + |pat| > |s| then 0
    else if s[i..i + |pat|] == pat then 1 + CountFrom(s, pat, i + |pat|)
    else CountFrom(s, pat, i + 1)
  }

  function Count(s: Text, pat: Text): nat
    requires pat != ""
  {
    CountFrom(s, pat, 0)
  }

  /** `index`: the first occurrence, or the length when there is none. */
  function IndexFrom(s: Text, pat: Text, i: nat): (p: nat)
    requires pat != "" && i <= |s|
    ensures i <= p <= |s|
    ensures p < |s| ==> MatchesAt(s, pat, p)
    ensures forall k :: i <= k < p ==> !MatchesAt(s, pat, k)
    decreases |s| - i
  {
    if i + |pat| > |s| then |s|
    else if s[i..i + |pat|] == pat then i
    else IndexFrom(s, pat, i + 1)
  }

  function Index(s: Text, pat: Text): (p: nat)
    requires pat != ""
    ensures p <= |s|
  {
    IndexFrom(s, pat, 0)
  }

  /** A pattern whose first character does not come back cannot overlap itself. */
  ghost predicate Marker(pat: Text) {
    pat != "" && forall k :: 0 < k < |pat| ==> pat[k] != pat[0]
  }

  lemma NoOverlap(s: Text, pat: Text, i: int, j: int)
    requires Marker(pat) && MatchesAt(s, pat, i) && MatchesAt(s, pat, j) && i < j
    ensures i + |pat| <= j
  {
    assert s[j] == s[j..j + |pat|][0] == pat[0];
    forall k | i < k < i + |pat| ensures s[k] != pat[0] {
      assert s[k] == s[i..i + |pat|][k - i] == pat[k - i];
    }
  }

  lemma {:induction false} CountZero(s: Text, pat: Text, i: nat)
    requires pat != "" && i <= |s|
    ensures CountFrom(s, pat, i) == 0 <==> forall k :: k >= i ==> !MatchesAt(s, pat, k)
    decreases |s| - i
  {
    if i + |pat| > |s| {
    } else if s[i..i + |pat|] == pat {
      assert MatchesAt(s, pat, i);
    } else {
      CountZero(s, pat, i + 1);
      assert !MatchesAt(s, pat, i);
    }
  }

  ghost predicate SoloFrom(s: Text, pat: Text, i: nat, p: int) {
    p >= i && MatchesAt(s, pat, p) && forall k :: k >= i && MatchesAt(s, pat, k) ==> k == p
  }

  lemma {:induction false} CountOne(s: Text, pat: Text, i: nat)
    requires Marker(pat) && i <= |s|
    ensures CountFrom(s, pat, i) == 1 <==> exists p :: SoloFrom(s, pat, i, p)
    decreases |s| - i
  {
    if i + |pat| > |s| {
    } else if s[i..i + |pat|] == pat {
      assert MatchesAt(s, pat, i);
      CountZero(s, pat, i + |pat|);
      forall k | k > i && MatchesAt(s, pat, k) ensures k >= i + |pat| { NoOverlap(s, pat, i, k); }
      if CountFrom(s, pat, i) == 1 { assert SoloFrom(s, pat, i, i); }
      if p :| SoloFrom(s, pat, i, p) { assert p == i; }
    } else {
      assert !MatchesAt(s, pat, i);
      CountOne(s, pat, i + 1);
      var next := i + 1;
      if p :| SoloFrom(s, pat, next, p) { assert SoloFrom(s, pat, i, p); }
      if p :| SoloFrom(s, pat, i, p) { assert SoloFrom(s, pat, next, p); }
    }
  }

  /** `count` of a delimiter is zero or one exactly when it occurs nowhere or in one place. */
  lemma CountMeans(s: Text, pat: Text)
    requires Marker(pat)
    ensures Count(s, pat) == 0 <==> !Occurs(s, pat)
    ensures Count(s, pat) == 1 <==> exists p :: Solo(s, pat, p)
    ensures forall p :: Solo(s, pat, p) ==> Index(s, pat) == p
  {
    CountZero(s, pat, 0);
    CountOne(s, pat, 0);
    if p :| SoloFrom(s, pat, 0, p) { assert Solo(s, pat, p); }
    if p :| Solo(s, pat, p) { assert SoloFrom(s, pat, 0, p); }
  }

  /** No occurrence of `pat` crosses from `a` into `b`. */
  ghost predicate Seam(a: Text, b: Text, pat: Text) {
    pat != "" && (a == "" || b == "" || b[0] == pat[0] || b[0] !in pat || a[|a| - 1] !in pat || pat[0] !in a)
  }

  lemma MatchesInSum(a: Text, b: Text, pat: Text, i: int)
    requires Marker(pat) && Seam(a, b, pat)
    ensures MatchesAt(a + b, pat, i) <==> MatchesAt(a, pat, i) || (i >= |a| && MatchesAt(b, pat, i - |a|))
  {
    var s := a + b;
    if 0 <= i && i + |pat| <= |s| {
      if i + |pat| <= |a| {
        assert s[i..i + |pat|] == a[i..i + |pat|];
      } else if i >= |a| {
        assert s[i..i + |pat|] == b[i - |a|..i - |a| + |pat|];
      } else {
        var t := s[i..i + |pat|];
        assert t[|a| - i] == b[0] && t[|a| - 1 - i] == a[|a| - 1] && t[0] == a[i];
      }
    }
  }

  lemma OccursInSum(a: Text, b: Text, pat: Text)
    requires Marker(pat) && Seam(a, b, pat)
    ensures Occurs(a + b, pat) <==> Occurs(a, pat) || Occurs(b, pat)
  {
    forall i { MatchesInSum(a, b, pat, i); }
    if i :| MatchesAt(b, pat, i) { assert MatchesAt(a + b, pat, |a| + i); }
    if i :| MatchesAt(a, pat, i) { assert MatchesAt(a + b, pat, i); }
    if i :| MatchesAt(a + b, pat, i) { assert MatchesAt(a, pat, i) || MatchesAt(b, pat, i - |a|); }
  }

  /** Text around a single occurrence that is free of the pattern keeps it single. */
  lemma SoloInSum(a: Text, b: Text, pat: Text, p: int)
    requires Marker(pat) && Seam(a, b, pat)
    ensures !Occurs(a, pat) && Solo(b, pat, p) ==> Solo(a + b, pat, |a| + p)
    ensures Solo(a, pat, p) && !Occurs(b, pat) ==> Solo(a + b, pat, p)
  {
    forall i ensures MatchesAt(a + b, pat, i) <==> MatchesAt(a, pat, i) || (i >= |a| && MatchesAt(b, pat, i - |a|)) {
      MatchesInSum(a, b, pat, i);
    }
  }

  /** A part of a text holds an occurrence only if the text does. */
  lemma OccursInPart(s: Text, pat: Text, lo: nat, hi: nat)
    requires lo <= hi <= |s|
    ensures Occurs(s[lo..hi], pat) ==> exists i :: lo <= i && i + |pat| <= hi && MatchesAt(s, pat, i)
  {
    if i :| MatchesAt(s[lo..hi], pat, i) {
      var at := lo + i;
      var a, b := s[lo..hi][i..i + |pat|], s[at..at + |pat|];
      assert forall k :: 0 <= k < |pat| ==> a[k] == s[at + k] == b[k];
      assert MatchesAt(s, pat, lo + i);
    }
  }

  // ------------------------------------------------------------------ lines

  function Split(s: Text): (lines: seq<Text>)
    ensures lines != []
    ensures forall k :: 0 <= k < |lines| ==> '\n' !in lines[k]
  {
    if s == "" then [""]
    else
      var rest := Split(s[1..]);
      if s[0] == '\n' then [""] + rest else [[s[0]] + rest[0]] + rest[1..]
  }

  /** `replace("\r\n", "\n")`. */
  function Unix(s: Text): Text {
    if s == "" then ""
    else if |s| >= 2 && s[0] == '\r' && s[1] == '\n' then "\n" + Unix(s[2..])
    else [s[0]] + Unix(s[1..])
  }

  predicate IsNewline(nl: Text) {
    nl == "\n" || nl == "\r\n"
  }

  predicate OneLine(s: Text) {
    '\n' !in s && '\r' !in s
  }

  /** Every line followed by the newline. */
  function Unlines(lines: seq<Text>, nl: Text): Text {
    if lines == [] then "" else lines[0] + nl + Unlines(lines[1..], nl)
  }

  function Join(parts: seq<Text>, sep: Text): Text {
    if parts == [] then "" else if |parts| == 1 then parts[0] else parts[0] + sep + Join(parts[1..], sep)
  }

  /** Split gives the only lines without a newline that make up the text again. */
  lemma {:induction false} SplitJoins(s: Text)
    ensures Join(Split(s), "\n") == s
    ensures Split(s) != [] && forall k :: 0 <= k < |Split(s)| ==> '\n' !in Split(s)[k]
  {
    if s != "" {
      SplitJoins(s[1..]);
      var rest := Split(s[1..]);
      assert s == [s[0]] + s[1..];
      if s[0] == '\n' {
        assert ([""] + rest)[1..] == rest;
      } else {
        var lines := [[s[0]] + rest[0]] + rest[1..];
        assert lines[1..] == rest[1..];
        if |rest| > 1 {
          assert [s[0]] + (rest[0] + "\n" + Join(rest[1..], "\n")) == lines[0] + "\n" + Join(lines[1..], "\n");
        }
      }
    }
  }

  /** No CRLF from here on. */
  ghost predicate NoCrlf(s: Text) {
    forall k :: 0 <= k < |s| - 1 ==> !(s[k] == '\r' && s[k + 1] == '\n')
  }

  /** Text without CRLF is left alone, a lone CR included; the first CRLF of any other text becomes LF. */
  lemma {:induction false} UnixExactly(a: Text, b: Text)
    requires NoCrlf(a)
    ensures Unix(a) == a
    ensures Unix(a + "\r\n" + b) == a + "\n" + Unix(b)
  {
    var s := a + "\r\n" + b;
    if a == "" {
      assert s[2..] == b;
    } else {
      forall k | 0 <= k < |a| - 2 ensures !(a[1..][k] == '\r' && a[1..][k + 1] == '\n') {
        assert !(a[k + 1] == '\r' && a[k + 2] == '\n');
      }
      UnixExactly(a[1..], b);
      assert s[1..] == a[1..] + "\r\n" + b && [a[0]] + a[1..] == a;
      assert |a| > 1 ==> !(a[0] == '\r' && a[1] == '\n');
      assert s[0] == a[0] && s[1] == if |a| > 1 then a[1] else '\r';
    }
  }

  lemma {:induction false} SplitLine(a: Text, b: Text)
    requires '\n' !in a
    ensures Split(a + "\n" + b) == [a] + Split(b)
  {
    var s := a + "\n" + b;
    if a == "" {
      assert s[1..] == b;
    } else {
      SplitLine(a[1..], b);
      assert s[1..] == a[1..] + "\n" + b;
      assert [s[0]] + a[1..] == a;
    }
  }

  lemma {:induction false} UnixLine(a: Text, nl: Text, b: Text)
    requires OneLine(a) && IsNewline(nl)
    ensures Unix(a + nl + b) == a + "\n" + Unix(b)
  {
    var s := a + nl + b;
    if a == "" {
      assert nl == "\r\n" ==> s[2..] == b;
      assert nl == "\n" ==> s[1..] == b;
    } else {
      UnixLine(a[1..], nl, b);
      assert s[1..] == a[1..] + nl + b;
      assert [s[0]] + a[1..] == a;
    }
  }

  /** Splitting what was written line by line, with either newline, gives the lines back. */
  lemma {:induction false} SplitUnlines(lines: seq<Text>, nl: Text)
    requires IsNewline(nl) && forall k :: 0 <= k < |lines| ==> OneLine(lines[k])
    ensures Split(Unix(Unlines(lines, nl))) == lines + [""]
  {
    if lines == [] {
    } else {
      var rest := Unlines(lines[1..], nl);
      UnixLine(lines[0], nl, rest);
      SplitLine(lines[0], Unix(rest));
      SplitUnlines(lines[1..], nl);
      hide Unix, Split, OneLine;
      assert [lines[0]] + (lines[1..] + [""]) == lines + [""];
    }
  }

  lemma {:induction false} UnlinesConcat(a: seq<Text>, b: seq<Text>, nl: Text)
    ensures Unlines(a + b, nl) == Unlines(a, nl) + Unlines(b, nl)
  {
    if a == [] {
      assert a + b == b;
    } else {
      UnlinesConcat(a[1..], b, nl);
      assert (a + b)[1..] == a[1..] + b && (a + b)[0] == a[0];
      var first, rest, last := a[0] + nl, Unlines(a[1..], nl), Unlines(b, nl);
      assert Unlines(a + b, nl) == first + (rest + last);
      assert first + (rest + last) == (first + rest) + last;
    }
  }

  // ------------------------------------------------------------------ white space and size

  /** `str.isspace` of one character. */
  predicate IsSpace(c: char) {
    var n := c as int;
    || 0x09 <= n <= 0x0d || 0x1c <= n <= 0x20 || n == 0x85 || n == 0xa0 || n == 0x1680
    || 0x2000 <= n <= 0x200a || n == 0x2028 || n == 0x2029 || n == 0x202f || n == 0x205f || n == 0x3000
  }

  /** The blanks of Unicode one by one, with the four separators of ASCII. */
  lemma SpacesOneByOne(c: char)
    ensures IsSpace(c) <==> c as int in {
              0x09, 0x0a, 0x0b, 0x0c, 0x0d, 0x1c, 0x1d, 0x1e, 0x1f, 0x20, 0x85, 0xa0, 0x1680,
              0x2000, 0x2001, 0x2002, 0x2003, 0x2004, 0x2005, 0x2006, 0x2007, 0x2008, 0x2009, 0x200a,
              0x2028, 0x2029, 0x202f, 0x205f, 0x3000}
  {
  }

  /** Not `strip()`. */
  predicate IsBlank(s: Text) {
    forall k :: 0 <= k < |s| ==> IsSpace(s[k])
  }

  function Strip(s: Text): Text
    decreases |s|
  {
    if s == "" then ""
    else if IsSpace(s[0]) then Strip(s[1..])
    else if IsSpace(s[|s| - 1]) then Strip(s[..|s| - 1])
    else s
  }

  ghost predicate BlankEnds(s: Text, front: nat, back: nat) {
    && front + back <= |s| && (forall k :: 0 <= k < front ==> IsSpace(s[k]))
    && (forall k :: |s| - back <= k < |s| ==> IsSpace(s[k]))
  }

  lemma BlankFront(s: Text, front: nat, back: nat)
    requires s != "" && IsSpace(s[0]) && BlankEnds(s[1..], front, back)
    ensures BlankEnds(s, front + 1, back) && s[front + 1..|s| - back] == s[1..][front..|s| - 1 - back]
  {
    hide IsSpace;
    assert forall k :: 0 < k < |s| ==> s[k] == s[1..][k - 1];
  }

  lemma BlankBack(s: Text, front: nat, back: nat)
    requires s != "" && IsSpace(s[|s| - 1]) && BlankEnds(s[..|s| - 1], front, back)
    ensures BlankEnds(s, front, back + 1)
    ensures s[front..|s| - (back + 1)] == s[..|s| - 1][front..|s| - 1 - back]
  {
    hide IsSpace;
    assert forall k :: 0 <= k < |s| - 1 ==> s[k] == s[..|s| - 1][k];
  }

  /** Strip drops blanks at both ends, all of them, and nothing else. */
  lemma {:induction false} StripExactly(s: Text) returns (front: nat, back: nat)
    ensures BlankEnds(s, front, back) && Strip(s) == s[front..|s| - back]
    ensures Strip(s) != "" ==> !IsSpace(Strip(s)[0]) && !IsSpace(Strip(s)[|Strip(s)| - 1])
    decreases |s|
  {
    hide BlankEnds, IsSpace;
    front, back := 0, 0;
    if s != "" && IsSpace(s[0]) {
      front, back := StripExactly(s[1..]);
      BlankFront(s, front, back);
      front := front + 1;
    } else if s != "" && IsSpace(s[|s| - 1]) {
      front, back := StripExactly(s[..|s| - 1]);
      BlankBack(s, front, back);
      back := back + 1;
    } else {
      NothingBlank(s);
    }
  }

  lemma NothingBlank(s: Text)
    ensures BlankEnds(s, 0, 0) && s[0..|s| - 0] == s
  {
  }

  /** Bytes of one character in UTF-8. */
  function Utf8Width(c: char): nat {
    var n := c as int;
    if n < 0x80 then 1 else if n < 0x800 then 2 else if n < 0x1_0000 then 3 else 4
  }

  function Utf8Size(s: Text): nat {
    if s == "" then 0 else Utf8Width(s[0]) + Utf8Size(s[1..])
  }

  /** One character in UTF-8, by section 3 of RFC 3629. */
  ghost function Utf8(c: char): seq<int> {
    var n := c as int;
    if n <= 0x7f then [n]
    else if n <= 0x7ff then [0xc0 + n / 64, 0x80 + n % 64]
    else if n <= 0xffff then [0xe0 + n / 4096, 0x80 + n / 64 % 64, 0x80 + n % 64]
    else [0xf0 + n / 262144, 0x80 + n / 4096 % 64, 0x80 + n / 64 % 64, 0x80 + n % 64]
  }

  ghost function Utf8Text(s: Text): seq<int> {
    if s == "" then [] else Utf8(s[0]) + Utf8Text(s[1..])
  }

  /** The size counted is the number of bytes written. */
  lemma {:induction false} SizeIsBytes(s: Text)
    ensures Utf8Size(s) == |Utf8Text(s)|
  {
    if s != "" { SizeIsBytes(s[1..]); }
  }

  predicate HasControl(s: Text) {
    exists k :: 0 <= k < |s| && (s[k] as int < 0x20 || s[k] as int == 0x7f)
  }

  predicate StartsWith(s: Text, prefix: Text) {
    |prefix| <= |s| && s[..|prefix|] == prefix
  }

  // ------------------------------------------------------------------ order

  /** The order of Python strings. */
  predicate LexLess(a: Text, b: Text) {
    b != "" && (a == "" || a[0] < b[0] || (a[0] == b[0] && LexLess(a[1..], b[1..])))
  }

  /** One text comes first where they first differ, or if it is a proper beginning of the other. */
  lemma {:induction false} LexMeans(a: Text, b: Text)
    ensures LexLess(a, b) <==>
            exists k :: 0 <= k <= |a| && k < |b| && a[..k] == b[..k] && (k == |a| || a[k] < b[k])
  {
    if b != "" && a != "" {
      var x, y := a[1..], b[1..];
      LexMeans(x, y);
      if a[0] == b[0] && LexLess(x, y) {
        var k :| 0 <= k <= |x| && k < |y| && x[..k] == y[..k] && (k == |x| || x[k] < y[k]);
        assert a[..k + 1] == [a[0]] + x[..k] && b[..k + 1] == [b[0]] + y[..k];
      } else if a[0] < b[0] {
        assert a[..0] == b[..0];
      }
      if k :| 0 <= k <= |a| && k < |b| && a[..k] == b[..k] && (k == |a| || a[k] < b[k]) {
        if k > 0 {
          assert a[..k][0] == b[..k][0];
          assert x[..k - 1] == a[..k][1..] && y[..k - 1] == b[..k][1..];
        }
      }
    } else if b != "" {
      assert a[..0] == b[..0];
    }
  }

  lemma {:induction false} LexTotal(a: Text, b: Text)
    ensures a == b || LexLess(a, b) || LexLess(b, a)
  {
    if a != "" && b != "" && a[0] == b[0] {
      LexTotal(a[1..], b[1..]);
      assert a == [a[0]] + a[1..] && b == [b[0]] + b[1..];
    }
  }

  lemma {:induction false} LexIrreflexive(a: Text)
    ensures !LexLess(a, a)
  {
    if a != "" { LexIrreflexive(a[1..]); }
  }

  lemma {:induction false} LexTransitive(a: Text, b: Text, c: Text)
    requires LexLess(a, b) && LexLess(b, c)
    ensures LexLess(a, c)
  {
    if a != "" && a[0] == b[0] == c[0] { LexTransitive(a[1..], b[1..], c[1..]); }
  }
}
