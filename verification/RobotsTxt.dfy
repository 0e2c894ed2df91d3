/**
 The robots.txt body: the honeypot routes merged into the first wildcard group of the text
 that the site has, or appended as a new group.  The output is compared with the input byte by byte.
 */
module RobotsTxt {
  import opened Prelude

  // ------------------------------------------------------------------ text

  predicate IsSpace(c: char) {
    c == ' ' || '\t' <= c <= '\r'
  }

  function Lower(c: char): char {
    if 'A' <= c <= 'Z' then (c as int + 32) as char else c
  }

  function Lowered(s: string): string {
    seq(|s|, i requires 0 <= i < |s| => Lower(s[i]))
  }

  predicate AllSpace(s: string) {
    forall i :: 0 <= i < |s| ==> IsSpace(s[i])
  }

  /** No space at either end. */
  predicate Tight(s: string) {
    s != "" ==> !IsSpace(s[0]) && !IsSpace(Last(s))
  }

  function TrimLeft(s: string): string {
    if s != "" && IsSpace(s[0]) then TrimLeft(s[1..]) else s
  }

  function TrimRight(s: string): string {
    if s != "" && IsSpace(Last(s)) then TrimRight(Front(s)) else s
  }

  function Trim(s: string): string {
    TrimRight(TrimLeft(s))
  }

  function IndexOf(s: string, c: char): (r: nat)
    ensures r <= |s| && c !in s[..r] && (r < |s| ==> s[r] == c)
  {
    if s == "" || s[0] == c then 0
    else
      assert s == [s[0]] + s[1..];
      1 + IndexOf(s[1..], c)
  }

  const FIELD := "user-agent"

  predicate IsWildcard(line: string) {
    var trimmed := Trim(line);
    var colon := IndexOf(trimmed, ':');
    colon < |trimmed| && Lowered(Trim(trimmed[..colon])) == FIELD && Trim(trimmed[colon + 1..]) == "*"
  }

  // ------------------------------------------------------------------ lines

  function SplitLines(text: string): seq<string>
    decreases |text|
  {
    if text == "" then []
    else
      var i := IndexOf(text, '\n');
      if i == |text| then [text] else [text[..i]] + SplitLines(text[i + 1..])
  }

  /** Every line with a newline behind it. */
  function Joined(lines: seq<string>): string {
    if lines == [] then "" else lines[0] + "\n" + Joined(lines[1..])
  }

  predicate EndsWithNewline(text: string) {
    text != "" && Last(text) == '\n'
  }

  /** The text with its last line closed. */
  function Closed(text: string): string {
    if text == "" || EndsWithNewline(text) then text else text + "\n"
  }

  /** The other way round: without the last newline if `model` has none. */
  function EndedLike(text: string, model: string): string {
    if text == "" || EndsWithNewline(model) then text else Front(text)
  }

  predicate OneLine(s: string) {
    '\n' !in s
  }

  method Split(text: string) returns (lines: seq<string>)
    ensures lines == SplitLines(text)
  {
    lines := [];
    var rest := text;
    while rest != ""
      invariant lines + SplitLines(rest) == SplitLines(text)
      decreases |rest|
    {
      var i := IndexOf(rest, '\n');
      NextLine(lines, rest, i);
      lines := lines + [rest[..i]];
      rest := if i == |rest| then "" else rest[i + 1..];
    }
  }

  lemma {:induction false} NextLine(lines: seq<string>, rest: string, i: nat)
    requires rest != "" && i == IndexOf(rest, '\n')
    ensures lines + SplitLines(rest) == lines + [rest[..i]] + SplitLines(if i == |rest| then "" else rest[i + 1..])
  {
    SplitStep(rest, i);
    Assoc(lines, [rest[..i]], SplitLines(if i == |rest| then "" else rest[i + 1..]));
  }

  lemma {:induction false} SplitStep(rest: string, i: nat)
    requires rest != "" && i == IndexOf(rest, '\n')
    ensures SplitLines(rest) == [rest[..i]] + SplitLines(if i == |rest| then "" else rest[i + 1..])
  {
    if i == |rest| { assert rest[..i] == rest; }
  }

  lemma {:induction false} Assoc<T>(a: seq<T>, b: seq<T>, c: seq<T>)
    ensures a + (b + c) == a + b + c
  {
  }

  lemma {:induction false} JoinedConcat(a: seq<string>, b: seq<string>)
    ensures Joined(a + b) == Joined(a) + Joined(b)
  {
    if a == [] {
      assert a + b == b;
    } else {
      assert (a + b)[1..] == a[1..] + b;
      JoinedConcat(a[1..], b);
    }
  }

  lemma {:induction false} JoinedCons(line: string, lines: seq<string>)
    ensures Joined([line] + lines) == line + "\n" + Joined(lines)
  {
    assert ([line] + lines)[1..] == lines;
  }

  lemma {:induction false} ClosedRest(text: string, i: nat)
    requires i < |text| && text[i] == '\n'
    ensures Closed(text) == text[..i] + "\n" + Closed(text[i + 1..])
  {
    var rest := text[i + 1..];
    assert text == text[..i] + "\n" + rest;
    if rest == "" { assert Last(text) == '\n'; } else { assert Last(text) == Last(rest); }
  }

  /** Splitting loses nothing but whether the last line was closed. */
  lemma {:induction false} JoinOfSplit(text: string)
    ensures Joined(SplitLines(text)) == Closed(text)
    decreases |text|
  {
    if text != "" {
      var i := IndexOf(text, '\n');
      if i == |text| {
        JoinedCons(text, []);
        assert [text] + [] == [text] && text[..i] == text;
        assert Closed(text) == text + "\n" + "";
      } else {
        JoinOfSplit(text[i + 1..]);
        JoinedCons(text[..i], SplitLines(text[i + 1..]));
        ClosedRest(text, i);
      }
    }
  }

  lemma {:induction false} SplitGivesLines(text: string)
    ensures forall l :: l in SplitLines(text) ==> OneLine(l)
    decreases |text|
  {
    if text != "" {
      var i := IndexOf(text, '\n');
      if i == |text| { assert text[..i] == text; } else { SplitGivesLines(text[i + 1..]); }
    }
  }

  lemma {:induction false} SplitOfJoin(lines: seq<string>)
    requires forall l :: l in lines ==> OneLine(l)
    ensures SplitLines(Joined(lines)) == lines
  {
    if lines != [] {
      var rest := Joined(lines[1..]);
      var text := lines[0] + "\n" + rest;
      assert lines[0] in lines;
      FirstBreak(lines[0], rest);
      SplitOfJoin(lines[1..]);
      assert lines == [lines[0]] + lines[1..];
    }
  }

  lemma {:induction false} FirstBreak(line: string, rest: string)
    requires OneLine(line)
    ensures IndexOf(line + "\n" + rest, '\n') == |line|
    ensures (line + "\n" + rest)[..|line|] == line && (line + "\n" + rest)[|line| + 1..] == rest
  {
    var text := line + "\n" + rest;
    assert text[|line|] == '\n';
  }

  /** The last newline may go, unless only an empty line stands before it. */
  lemma {:induction false} SplitWithoutLastNewline(lines: seq<string>)
    requires lines != [] && Last(lines) != "" && forall l :: l in lines ==> OneLine(l)
    ensures Joined(lines) != "" && SplitLines(Front(Joined(lines))) == lines
  {
    var first, rest := lines[0], Joined(lines[1..]);
    assert first in lines && lines == [first] + lines[1..];
    JoinedCons(first, lines[1..]);
    if |lines| == 1 {
      OnlyLine(first);
    } else {
      SplitWithoutLastNewline(lines[1..]);
      assert Front(first + "\n" + rest) == first + "\n" + Front(rest);
      FirstBreak(first, Front(rest));
    }
  }

  lemma {:induction false} OnlyLine(line: string)
    requires line != "" && OneLine(line)
    ensures Front(line + "\n" + "") == line && SplitLines(line) == [line]
  {
    assert Front(line + "\n" + "") == line;
  }

  // ------------------------------------------------------------------ the body

  const HEADER := "User-agent: *"

  function DisallowLines(routes: seq<string>): seq<string> {
    seq(|routes|, i requires 0 <= i < |routes| => "Disallow: " + routes[i])
  }

  /** The first wildcard line, or the number of lines. */
  function FirstWildcard(lines: seq<string>): (r: nat)
    ensures r <= |lines|
    ensures forall k :: 0 <= k < r ==> !IsWildcard(lines[k])
    ensures r < |lines| ==> IsWildcard(lines[r])
  {
    if lines == [] || IsWildcard(lines[0]) then 0 else 1 + FirstWildcard(lines[1..])
  }

  predicate HasGroup(base: string) {
    FirstWildcard(SplitLines(base)) < |SplitLines(base)|
  }

  /** How many lines stand before the place of the block. */
  function Cut(base: string): (r: nat)
    ensures r <= |SplitLines(base)|
  {
    var lines := SplitLines(base);
    var k := FirstWildcard(lines);
    if k < |lines| then k + 1 else k
  }

  /** The text up to and with the first wildcard line, and what follows. */
  function Head(base: string): string {
    Joined(SplitLines(base)[..Cut(base)])
  }

  function Tail(base: string): string {
    Joined(SplitLines(base)[Cut(base)..])
  }

  lemma {:induction false} HeadAndTail(base: string)
    ensures Head(base) + Tail(base) == Closed(base)
  {
    JoinOfSplit(base);
    JoinedCut(SplitLines(base), Cut(base));
  }

  lemma {:induction false} JoinedCut(lines: seq<string>, cut: nat)
    requires cut <= |lines|
    ensures Joined(lines[..cut]) + Joined(lines[cut..]) == Joined(lines)
  {
    JoinedConcat(lines[..cut], lines[cut..]);
    assert lines[..cut] + lines[cut..] == lines;
  }

  /** What is served, in terms of the text as it stands. */
  function Body(base: string, routes: seq<string>): string {
    var block := Joined(DisallowLines(routes));
    if routes == [] then base
    else if base == "" then HEADER + "\n" + block
    else if HasGroup(base) then EndedLike(Head(base) + block + Tail(base), base)
    else Closed(base) + "\n" + HEADER + "\n" + block
  }

  method Build(base: string, routes: seq<string>) returns (out: string)
    ensures out == Body(base, routes)
  {
    if routes == [] {
      return base;
    }
    var disallow := Disallow(routes);
    if base == "" {
      out := HEADER + "\n";
      var all := JoinAll(disallow);
      out := out + all;
      return;
    }
    var lines := Split(base);
    var endsWithNewline := Last(base) == '\n';
    var it := FindWildcard(lines);
    var merged := it < |lines|;
    lines := Extend(base, lines, it, disallow);
    out := JoinAll(lines);
    ExtendedBody(base, routes, out);
    if !endsWithNewline && merged {
      out := Front(out);
    }
  }

  /** The lines with the block in them, or with a new group behind them. */
  method Extend(ghost base: string, lines: seq<string>, it: nat, disallow: seq<string>) returns (all: seq<string>)
    requires base != "" && lines == SplitLines(base) && it == FirstWildcard(lines)
    ensures Joined(all) == Extended(base, disallow)
  {
    if it < |lines| {
      ExtendedByMerging(base, lines, it, disallow);
      all := lines[..it + 1] + disallow + lines[it + 1..];
    } else {
      ExtendedByAppending(base, lines, it, disallow);
      all := lines + [""];
      all := all + [HEADER];
      all := all + disallow;
    }
  }

  lemma {:induction false} ExtendedByMerging(base: string, lines: seq<string>, it: nat, disallow: seq<string>)
    requires lines == SplitLines(base) && it == FirstWildcard(lines) < |lines|
    ensures Joined(lines[..it + 1] + disallow + lines[it + 1..]) == Extended(base, disallow)
  {
    assert HasGroup(base) && Cut(base) == it + 1;
    MergedText(base, disallow);
  }

  lemma {:induction false} ExtendedByAppending(base: string, lines: seq<string>, it: nat, disallow: seq<string>)
    requires base != "" && lines == SplitLines(base) && it == FirstWildcard(lines) == |lines|
    ensures Joined(lines + [""] + [HEADER] + disallow) == Extended(base, disallow)
  {
    assert !HasGroup(base);
    AppendedText(base, disallow);
  }

  function Extended(base: string, disallow: seq<string>): string {
    if HasGroup(base) then Head(base) + Joined(disallow) + Tail(base) else Closed(base) + "\n" + HEADER + "\n" + Joined(disallow)
  }

  lemma {:induction false} ExtendedBody(base: string, routes: seq<string>, out: string)
    requires base != "" && routes != [] && out == Extended(base, DisallowLines(routes))
    ensures HasGroup(base) ==> out != ""
    ensures Body(base, routes) == if HasGroup(base) && !EndsWithNewline(base) then Front(out) else out
  {
    if HasGroup(base) { MergedText(base, DisallowLines(routes)); }
  }

  method Disallow(routes: seq<string>) returns (lines: seq<string>)
    ensures lines == DisallowLines(routes)
  {
    lines := [];
    for i := 0 to |routes|
      invariant |lines| == i && forall k :: 0 <= k < i ==> lines[k] == "Disallow: " + routes[k]
    {
      lines := lines + ["Disallow: " + routes[i]];
    }
  }

  method JoinAll(lines: seq<string>) returns (out: string)
    ensures out == Joined(lines)
  {
    out := "";
    for i := 0 to |lines|
      invariant out == Joined(lines[..i])
    {
      assert lines[..i + 1] == lines[..i] + [lines[i]];
      JoinedConcat(lines[..i], [lines[i]]);
      assert Joined([lines[i]]) == lines[i] + "\n" + Joined([]);
      out := out + (lines[i] + "\n");
    }
    assert lines[..|lines|] == lines;
  }

  method FindWildcard(lines: seq<string>) returns (i: nat)
    ensures i == FirstWildcard(lines)
  {
    i := 0;
    assert lines[0..] == lines;
    while i < |lines| && !IsWildcard(lines[i])
      invariant i <= |lines| && FirstWildcard(lines) == i + FirstWildcard(lines[i..])
    {
      assert lines[i..][1..] == lines[i + 1..];
      i := i + 1;
    }
  }

  lemma {:induction false} MergedText(base: string, disallow: seq<string>)
    requires HasGroup(base)
    ensures var lines, cut := SplitLines(base), Cut(base);
            && Joined(lines[..cut] + disallow + lines[cut..]) == Head(base) + Joined(disallow) + Tail(base)
            && Joined(lines[..cut] + disallow + lines[cut..]) != ""
  {
    var lines, cut := SplitLines(base), Cut(base);
    JoinedConcat(lines[..cut] + disallow, lines[cut..]);
    JoinedConcat(lines[..cut], disallow);
    assert lines[..cut] != [];
  }

  lemma {:induction false} AppendedText(base: string, disallow: seq<string>)
    requires base != ""
    ensures Joined(SplitLines(base) + [""] + [HEADER] + disallow) == Closed(base) + "\n" + HEADER + "\n" + Joined(disallow)
  {
    var lines := SplitLines(base);
    JoinOfSplit(base);
    JoinedConcat(lines + [""] + [HEADER], disallow);
    JoinedConcat(lines + [""], [HEADER]);
    JoinedConcat(lines, [""]);
    assert Joined([""]) == "" + "\n" + Joined([]);
    assert Joined([HEADER]) == HEADER + "\n" + Joined([]);
  }

  // ------------------------------------------------------------------ what the body keeps of the text

  /** Without honeypot routes the text is served untouched; without a group to merge into it is an exact prefix. */
  lemma {:induction false} TextIsKept(base: string, routes: seq<string>)
    ensures Body(base, []) == base
    ensures !HasGroup(base) ==> base <= Body(base, routes)
  {
  }

  /**
   Merging only inserts: before the block stands the text up to and with its first wildcard
   line, behind it the rest, and together these are the text, last newline or none.
   */
  lemma {:induction false} MergingInserts(base: string, routes: seq<string>)
    requires routes != [] && HasGroup(base)
    ensures base != ""
    ensures Closed(base) == Head(base) + Tail(base)
    ensures Body(base, routes) == EndedLike(Head(base) + Joined(DisallowLines(routes)) + Tail(base), base)
    ensures EndedLike(Head(base) + Tail(base), base) == base
  {
    HeadAndTail(base);
    if !EndsWithNewline(base) { assert Front(base + "\n") == base; }
  }

  /** A body without the lines from `from` up to `to`, its last newline as it was. */
  function WithoutLines(body: string, from: nat, to: nat): string
    requires from <= to <= |SplitLines(body)|
  {
    var lines := SplitLines(body);
    EndedLike(Joined(lines[..from] + lines[to..]), body)
  }

  predicate Plain(routes: seq<string>) {
    forall r :: r in routes ==> OneLine(r)
  }

  lemma {:induction false} DisallowAreLines(routes: seq<string>)
    ensures (forall l :: l in DisallowLines(routes) ==> OneLine(l)) <==> Plain(routes)
    ensures forall l :: l in DisallowLines(routes) ==> l != ""
  {
    forall i | 0 <= i < |routes| ensures OneLine(DisallowLines(routes)[i]) <==> OneLine(routes[i]) {
      assert DisallowLines(routes)[i] == "Disallow: " + routes[i];
      assert OneLine("Disallow: ");
    }
    if Plain(routes) {
      forall l | l in DisallowLines(routes) ensures OneLine(l) {
        var i :| 0 <= i < |routes| && DisallowLines(routes)[i] == l;
        assert routes[i] in routes;
      }
    }
    if forall l :: l in DisallowLines(routes) ==> OneLine(l) {
      forall r | r in routes ensures OneLine(r) {
        var i :| 0 <= i < |routes| && routes[i] == r;
        assert DisallowLines(routes)[i] in DisallowLines(routes);
      }
    }
  }

  /** The lines that merging aims at. */
  function MergedLines(base: string, routes: seq<string>): seq<string> {
    SplitLines(base)[..Cut(base)] + DisallowLines(routes) + SplitLines(base)[Cut(base)..]
  }

  lemma {:induction false} LastLineIsNotEmpty(text: string)
    requires text != "" && !EndsWithNewline(text)
    ensures SplitLines(text) != [] && Last(SplitLines(text)) != ""
    decreases |text|
  {
    var i := IndexOf(text, '\n');
    if i < |text| {
      var rest := text[i + 1..];
      assert rest != "";
      assert Last(rest) == Last(text);
      LastLineIsNotEmpty(rest);
      SplitStep(text, i);
      assert Last([text[..i]] + SplitLines(rest)) == Last(SplitLines(rest));
    }
  }

  lemma {:induction false} MergedLinesAreLines(base: string, routes: seq<string>)
    requires Plain(routes)
    ensures forall l :: l in MergedLines(base, routes) ==> OneLine(l)
  {
    SplitGivesLines(base);
    DisallowAreLines(routes);
  }

  lemma {:induction false} LastMergedLine(base: string, routes: seq<string>)
    requires routes != [] && base != "" && !EndsWithNewline(base)
    ensures MergedLines(base, routes) != [] && Last(MergedLines(base, routes)) != ""
  {
    LastLineIsNotEmpty(base);
    DisallowAreLines(routes);
    var lines, cut := SplitLines(base), Cut(base);
    if cut == |lines| {
      assert Last(MergedLines(base, routes)) == Last(DisallowLines(routes));
      assert Last(DisallowLines(routes)) in DisallowLines(routes);
    } else {
      assert Last(MergedLines(base, routes)) == Last(lines);
    }
  }

  /** Taking the last newline off again shows. */
  lemma {:induction false} FrontIsOpen(lines: seq<string>)
    requires lines != [] && Last(lines) != "" && forall l :: l in lines ==> OneLine(l)
    ensures Joined(lines) != "" && !EndsWithNewline(Front(Joined(lines)))
  {
    SplitWithoutLastNewline(lines);
    JoinOfSplit(Front(Joined(lines)));
  }

  lemma {:induction false} MergedSplits(base: string, routes: seq<string>)
    requires routes != [] && HasGroup(base) && Plain(routes)
    ensures SplitLines(Body(base, routes)) == MergedLines(base, routes)
    ensures EndsWithNewline(Body(base, routes)) == EndsWithNewline(base) && Body(base, routes) != ""
  {
    var all := MergedLines(base, routes);
    MergedText(base, DisallowLines(routes));
    MergedLinesAreLines(base, routes);
    if EndsWithNewline(base) {
      SplitOfJoin(all);
      JoinOfSplit(Joined(all));
    } else {
      LastMergedLine(base, routes);
      SplitWithoutLastNewline(all);
      FrontIsOpen(all);
    }
  }

  /** Taking the block's lines out of the output gives back the text, byte for byte. */
  lemma {:induction false} DeletingTheBlockRestores(base: string, routes: seq<string>)
    requires routes != [] && HasGroup(base) && Plain(routes)
    ensures Cut(base) + |routes| <= |SplitLines(Body(base, routes))|
    ensures SplitLines(Body(base, routes))[Cut(base)..Cut(base) + |routes|] == DisallowLines(routes)
    ensures WithoutLines(Body(base, routes), Cut(base), Cut(base) + |routes|) == base
  {
    var lines, cut, body := SplitLines(base), Cut(base), Body(base, routes);
    MergedSplits(base, routes);
    BlockCutsOut(lines, DisallowLines(routes), cut);
    JoinOfSplit(base);
    MergingInserts(base, routes);
  }

  lemma {:induction false} BlockCutsOut(lines: seq<string>, block: seq<string>, cut: nat)
    requires cut <= |lines|
    ensures var all := lines[..cut] + block + lines[cut..];
            all[cut..cut + |block|] == block && all[..cut] + all[cut + |block|..] == lines
  {
  }

  /** A route with a line break in it is the one thing that spoils the lines. */
  lemma {:induction false} LinesAreMergedExactly(base: string, routes: seq<string>)
    requires routes != [] && HasGroup(base)
    ensures SplitLines(Body(base, routes)) == MergedLines(base, routes) <==> Plain(routes)
  {
    if Plain(routes) { MergedSplits(base, routes); }
    if SplitLines(Body(base, routes)) == MergedLines(base, routes) {
      SplitGivesLines(Body(base, routes));
      forall l | l in DisallowLines(routes) ensures OneLine(l) { assert l in MergedLines(base, routes); }
      DisallowAreLines(routes);
    }
  }

  // ------------------------------------------------------------------ what a wildcard line is

  lemma {:induction false} TrimLeftSplits(s: string)
    ensures exists a :: AllSpace(a) && s == a + TrimLeft(s)
    ensures TrimLeft(s) != "" ==> !IsSpace(TrimLeft(s)[0]) && Last(TrimLeft(s)) == Last(s)
  {
    if s != "" && IsSpace(s[0]) {
      TrimLeftSplits(s[1..]);
      var a :| AllSpace(a) && s[1..] == a + TrimLeft(s[1..]);
      assert s == ([s[0]] + a) + TrimLeft(s) && AllSpace([s[0]] + a);
    } else {
      assert s == "" + s && AllSpace("");
    }
  }

  lemma {:induction false} TrimRightSplits(s: string)
    ensures exists d :: AllSpace(d) && s == TrimRight(s) + d
    ensures TrimRight(s) != "" ==> !IsSpace(Last(TrimRight(s))) && TrimRight(s)[0] == s[0]
  {
    if s != "" && IsSpace(Last(s)) {
      TrimRightSplits(Front(s));
      var d :| AllSpace(d) && Front(s) == TrimRight(Front(s)) + d;
      assert s == TrimRight(s) + (d + [Last(s)]) && AllSpace(d + [Last(s)]);
    } else {
      assert s == s + "" && AllSpace("");
    }
  }

  /** Trimming takes space off both ends and stops. */
  lemma {:induction false} TrimSplits(s: string) returns (a: string, d: string)
    ensures AllSpace(a) && AllSpace(d) && s == a + Trim(s) + d && Tight(Trim(s))
  {
    TrimLeftSplits(s);
    a :| AllSpace(a) && s == a + TrimLeft(s);
    TrimRightSplits(TrimLeft(s));
    d :| AllSpace(d) && TrimLeft(s) == Trim(s) + d;
    Assoc(a, Trim(s), d);
  }

  lemma {:induction false} TrimLeftOf(a: string, m: string)
    requires AllSpace(a) && (m != "" ==> !IsSpace(m[0]))
    ensures TrimLeft(a + m) == m
  {
    if a == "" {
      assert a + m == m;
    } else {
      assert (a + m)[1..] == a[1..] + m;
      TrimLeftOf(a[1..], m);
    }
  }

  lemma {:induction false} TrimRightOf(m: string, d: string)
    requires AllSpace(d) && (m != "" ==> !IsSpace(Last(m)))
    ensures TrimRight(m + d) == m
  {
    if d == "" {
      assert m + d == m;
    } else {
      assert Front(m + d) == m + Front(d);
      TrimRightOf(m, Front(d));
    }
  }

  lemma {:induction false} TrimOf(a: string, m: string, d: string)
    requires AllSpace(a) && AllSpace(d) && m != "" && Tight(m)
    ensures Trim(a + m + d) == m
  {
    Assoc(a, m, d);
    assert (m + d)[0] == m[0];
    TrimLeftOf(a, m + d);
    TrimRightOf(m, d);
  }

  /** A line with the wildcard's pieces: the field in any case, a colon, a star, and space anywhere between. */
  ghost predicate Pieces(line: string, a: string, field: string, b: string, c: string, d: string) {
    && AllSpace(a) && AllSpace(b) && AllSpace(c) && AllSpace(d)
    && Lowered(field) == FIELD
    && line == a + (field + b + ":" + (c + "*")) + d
  }

  lemma {:induction false} FieldIsTight(field: string)
    requires Lowered(field) == FIELD
    ensures |field| == 10 && Tight(field) && ':' !in field
  {
    assert |field| == |Lowered(field)| == 10;
    forall i | 0 <= i < 10 ensures field[i] != ':' && !IsSpace(field[i]) {
      assert Lower(field[i]) == Lowered(field)[i] == FIELD[i];
    }
  }

  lemma {:induction false} FirstColon(f: string, rest: string)
    requires ':' !in f
    ensures IndexOf(f + ":" + rest, ':') == |f| && (f + ":" + rest)[..|f|] == f && (f + ":" + rest)[|f| + 1..] == rest
  {
    assert (f + ":" + rest)[|f|] == ':';
  }

  lemma {:induction false} PiecesMakeWildcard(line: string, a: string, field: string, b: string, c: string, d: string)
    requires Pieces(line, a, field, b, c, d)
    ensures IsWildcard(line)
  {
    FieldIsTight(field);
    var m := field + b + ":" + (c + "*");
    TrimOf(a, m, d);
    FirstColon(field + b, c + "*");
    TrimOf("", field, b);
    assert "" + field + b == field + b;
    TrimOf(c, "*", "");
    assert c + "*" + "" == c + "*";
  }

  lemma {:induction false} WildcardHasPieces(line: string) returns (a: string, field: string, b: string, c: string, d: string)
    requires IsWildcard(line)
    ensures Pieces(line, a, field, b, c, d)
  {
    var trimmed := Trim(line);
    var colon := IndexOf(trimmed, ':');
    var a0, d0 := TrimSplits(line);
    var a1, b1 := TrimSplits(trimmed[..colon]);
    var c1, d1 := TrimSplits(trimmed[colon + 1..]);
    field := Trim(trimmed[..colon]);
    assert trimmed == trimmed[..colon] + ":" + trimmed[colon + 1..];
    a, b, c, d := a0 + a1, b1, c1, d1 + d0;
    Regroup(a0, a1, field, b, c, d1, d0);
  }

  lemma {:induction false} Regroup(a0: string, a1: string, f: string, b: string, c: string, d1: string, d0: string)
    ensures a0 + (a1 + f + b + ":" + (c + "*" + d1)) + d0 == (a0 + a1) + (f + b + ":" + (c + "*")) + (d1 + d0)
  {
  }

  /** Which lines open a wildcard group. */
  lemma {:induction false} WildcardShape(line: string)
    ensures IsWildcard(line) <==> exists a, field, b, c, d :: Pieces(line, a, field, b, c, d)
  {
    if IsWildcard(line) {
      var a, field, b, c, d := WildcardHasPieces(line);
      assert Pieces(line, a, field, b, c, d);
    }
    if exists a, field, b, c, d :: Pieces(line, a, field, b, c, d) {
      var a, field, b, c, d :| Pieces(line, a, field, b, c, d);
      PiecesMakeWildcard(line, a, field, b, c, d);
    }
  }

  lemma {:induction false} HeaderIsWildcard()
    ensures IsWildcard(HEADER) && !IsWildcard("")
  {
    assert Lowered("User-agent") == FIELD;
    assert HEADER == "" + ("User-agent" + "" + ":" + (" " + "*")) + "";
    PiecesMakeWildcard(HEADER, "", "User-agent", "", " ", "");
  }

  // ------------------------------------------------------------------ what crawlers get to see

  lemma {:induction false} FirstWildcardIs(lines: seq<string>, k: nat)
    requires k < |lines| && IsWildcard(lines[k]) && forall i :: 0 <= i < k ==> !IsWildcard(lines[i])
    ensures FirstWildcard(lines) == k
  {
  }

  lemma {:induction false} AppendedSplits(base: string, routes: seq<string>)
    requires routes != [] && !HasGroup(base) && Plain(routes)
    ensures SplitLines(Body(base, routes)) == (if base == "" then [] else SplitLines(base) + [""]) + [HEADER] + DisallowLines(routes)
  {
    var start := if base == "" then [] else SplitLines(base) + [""];
    var all := start + [HEADER] + DisallowLines(routes);
    if base != "" {
      AppendedText(base, DisallowLines(routes));
    } else {
      assert all == [HEADER] + DisallowLines(routes);
      JoinedCons(HEADER, DisallowLines(routes));
    }
    SplitGivesLines(base);
    DisallowAreLines(routes);
    assert OneLine("") && OneLine(HEADER);
    SplitOfJoin(all);
  }

  predicate OpensWith(lines: seq<string>, block: seq<string>) {
    var k := FirstWildcard(lines);
    k + |block| < |lines| && lines[k + 1..k + 1 + |block|] == block
  }

  lemma {:induction false} OpensAfter(before: seq<string>, group: string, block: seq<string>, after: seq<string>)
    requires IsWildcard(group) && forall l :: l in before ==> !IsWildcard(l)
    ensures OpensWith(before + [group] + block + after, block)
  {
    var lines := before + [group] + block + after;
    forall i | 0 <= i < |before| ensures !IsWildcard(lines[i]) { assert lines[i] == before[i]; }
    assert lines[|before|] == group;
    FirstWildcardIs(lines, |before|);
  }

  /** Whatever the text, the first wildcard group of the body opens with every honeypot route, in order. */
  lemma {:induction false} FirstGroupListsEveryRoute(base: string, routes: seq<string>)
    requires routes != [] && Plain(routes)
    ensures OpensWith(SplitLines(Body(base, routes)), DisallowLines(routes))
  {
    var lines, block := SplitLines(base), DisallowLines(routes);
    if HasGroup(base) {
      MergedSplits(base, routes);
      MergedOpens(lines, FirstWildcard(lines), block);
    } else {
      HeaderIsWildcard();
      AppendedSplits(base, routes);
      var before := if base == "" then [] else lines + [""];
      OpensAfter(before, HEADER, block, []);
      assert before + [HEADER] + block + [] == before + [HEADER] + block;
    }
  }

  lemma {:induction false} MergedOpens(lines: seq<string>, k: nat, block: seq<string>)
    requires k == FirstWildcard(lines) < |lines|
    ensures OpensWith(lines[..k + 1] + block + lines[k + 1..], block)
  {
    OpensAfter(lines[..k], lines[k], block, lines[k + 1..]);
    assert lines[..k] + [lines[k]] == lines[..k + 1];
  }

  // ------------------------------------------------------------------ the bytes of the block

  /** One line for each route, in order. */
  function Listing(routes: seq<string>): string {
    if routes == [] then "" else "Disallow: " + routes[0] + "\n" + Listing(routes[1..])
  }

  lemma {:induction false} BlockIsListing(routes: seq<string>)
    ensures Joined(DisallowLines(routes)) == Listing(routes)
  {
    if routes != [] {
      BlockIsListing(routes[1..]);
      assert DisallowLines(routes)[1..] == DisallowLines(routes[1..]);
    }
  }

  lemma {:induction false} GroupText(closed: string, block: string)
    ensures closed + "\n" + HEADER + "\n" + block == closed + "\nUser-agent: *\n" + block
    ensures HEADER + "\n" + block == "User-agent: *\n" + block
  {
    assert "\n" + HEADER + "\n" == "\nUser-agent: *\n";
    assert closed + "\n" + HEADER + "\n" == closed + ("\n" + HEADER + "\n");
  }

  lemma {:induction false} NoGroup(base: string)
    requires forall l :: l in SplitLines(base) ==> !IsWildcard(l)
    ensures !HasGroup(base)
  {
    var _ := FirstWildcard(SplitLines(base));
  }

  lemma {:induction false} AppendedBody(base: string, routes: seq<string>)
    requires routes != [] && (forall l :: l in SplitLines(base) ==> !IsWildcard(l))
    ensures Body(base, routes) == if base == "" then "User-agent: *\n" + Listing(routes)
                                  else base + (if base[|base| - 1] == '\n' then "" else "\n") + "\nUser-agent: *\n" + Listing(routes)
  {
    NoGroup(base);
    BlockIsListing(routes);
    GroupText(Closed(base), Listing(routes));
    if base != "" && base[|base| - 1] == '\n' { assert base + "" == base; }
  }

  lemma {:induction false} MergedBody(base: string, routes: seq<string>)
    requires routes != [] && exists l :: l in SplitLines(base) && IsWildcard(l)
    ensures base != "" && var whole := Head(base) + Listing(routes) + Tail(base);
            whole != "" && Body(base, routes) == if base[|base| - 1] == '\n' then whole else whole[..|whole| - 1]
  {
    BlockIsListing(routes);
    var lines := SplitLines(base);
    var l :| l in lines && IsWildcard(l);
    var i :| 0 <= i < |lines| && lines[i] == l;
    assert FirstWildcard(lines) <= i;
    MergingInserts(base, routes);
    assert Listing(routes) != "";
  }

  /** Without routes the text itself; else the listing as a new group, or right behind the first wildcard line. */
  lemma {:induction false} BodyExactly(base: string, routes: seq<string>)
    ensures routes == [] ==> Body(base, routes) == base
    ensures routes != [] && (forall l :: l in SplitLines(base) ==> !IsWildcard(l)) ==>
              Body(base, routes) == if base == "" then "User-agent: *\n" + Listing(routes)
                                    else base + (if base[|base| - 1] == '\n' then "" else "\n") + "\nUser-agent: *\n" + Listing(routes)
    ensures routes != [] && (exists l :: l in SplitLines(base) && IsWildcard(l)) ==>
              base != "" && var whole := Head(base) + Listing(routes) + Tail(base);
              whole != "" && Body(base, routes) == if base[|base| - 1] == '\n' then whole else whole[..|whole| - 1]
  {
    if routes != [] {
      if exists l :: l in SplitLines(base) && IsWildcard(l) { MergedBody(base, routes); } else { AppendedBody(base, routes); }
    }
  }

  // ------------------------------------------------------------------ characters

  /** White space is what the C locale says: space, and the five controls from tab to carriage return. */
  lemma {:induction false} SpacesExactly(c: char)
    ensures IsSpace(c) <==> c as int == 32 || 9 <= c as int <= 13
  {
  }

  /** The field name is read in any case. */
  lemma {:induction false} FieldExactly(field: string)
    ensures Lowered(field) == FIELD <==>
              |field| == 10 && forall i :: 0 <= i < 10 ==> field[i] == "user-agent"[i] || field[i] == "USER-AGENT"[i]
  {
    assert |FIELD| == 10 && |Lowered(field)| == |field|;
    if |field| == 10 {
      forall i | 0 <= i < 10 ensures Lowered(field)[i] == FIELD[i] <==> field[i] == "user-agent"[i] || field[i] == "USER-AGENT"[i] {
        OneLetter(field[i], i);
      }
      if Lowered(field) == FIELD {
        forall i | 0 <= i < 10 ensures field[i] == "user-agent"[i] || field[i] == "USER-AGENT"[i] { assert Lowered(field)[i] == FIELD[i]; }
      }
    }
  }

  lemma {:induction false} OneLetter(c: char, i: nat)
    requires i < 10
    ensures Lower(c) == FIELD[i] <==> c == "user-agent"[i] || c == "USER-AGENT"[i]
  {
  }
}
