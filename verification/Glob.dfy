/** Shell patterns compiled to regular expressions: what `translate` writes is read back as
    a regular expression and proved to match exactly the strings the pattern means. */
module Glob {

  import Sequences

  // ---- What a pattern means ----

  /** `rest` follows a `[`: its set ends at `j`, the first `]` that is not the first
      character of the set. */
  ghost predicate ClosesAt(rest: string, j: nat) {
    var first := if rest != [] && rest[0] == '!' then 1 else 0;
    first < j < |rest| && rest[j] == ']' && forall k :: first < k < j ==> rest[k] != ']'
  }

  /** Membership in a set's text, read from the left: `a-z` is a range, anything else stands
      for itself; a reversed range holds nothing. */
  predicate InSet(body: string, c: char) {
    if body == [] then false
    else if |body| >= 3 && body[1] == '-' then body[0] <= c <= body[2] || InSet(body[3..], c)
    else c == body[0] || InSet(body[1..], c)
  }

  /** The pattern matches the whole string. */
  ghost predicate Matches(p: string, s: string)
    decreases |p|, |s|
  {
    if p == [] then s == []
    else if p[0] == '*' then Matches(p[1..], s) || (s != [] && Matches(p, s[1..]))
    else if p[0] == '?' then s != [] && Matches(p[1..], s[1..])
    else if p[0] == '[' && exists j :: ClosesAt(p[1..], j) then
      var j :| ClosesAt(p[1..], j);
      var negated := p[1] == '!';
      var body := if negated then p[2..j + 1] else p[1..j + 1];
      s != [] && InSet(body, s[0]) != negated && Matches(p[j + 2..], s[1..])
    else s != [] && s[0] == p[0] && Matches(p[1..], s[1..])
  }

  // ---- The regular expressions that are written ----

  datatype Part = Single(c: char) | Span(lo: char, hi: char)

  datatype Token = One | Star | Lit(c: char) | Class(negated: bool, parts: seq<Part>) | Never

  predicate InPart(p: Part, c: char) {
    match p
    case Single(x) => c == x
    case Span(lo, hi) => lo <= c <= hi
  }

  predicate InClass(parts: seq<Part>, c: char) {
    exists i :: 0 <= i < |parts| && InPart(parts[i], c)
  }

  /** The expression matches the whole string, `.` matching every character. */
  predicate Accepts(ts: seq<Token>, s: string) {
    if ts == [] then s == []
    else
      var rest := ts[1..];
      match ts[0]
      case One => s != [] && Accepts(rest, s[1..])
      case Star => exists k :: 0 <= k <= |s| && Accepts(rest, s[k..])
      case Lit(c) => s != [] && s[0] == c && Accepts(rest, s[1..])
      case Class(negated, parts) => s != [] && InClass(parts, s[0]) != negated && Accepts(rest, s[1..])
      case Never => false
  }

  /** The characters with a meaning of their own in a regular expression under the `u` flag. */
  predicate IsSyntax(c: char) {
    c in "\\^$.*+?()[]{}|/"
  }

  predicate IsClassSyntax(c: char) {
    c in "\\][^-"
  }

  function Escape(c: char): string {
    if IsSyntax(c) then ['\\', c] else [c]
  }

  function ClassEscape(c: char): string {
    if IsClassSyntax(c) then ['\\', c] else [c]
  }

  function PrintPart(p: Part): string {
    match p
    case Single(c) => ClassEscape(c)
    case Span(lo, hi) => ClassEscape(lo) + "-" + ClassEscape(hi)
  }

  function PrintParts(ps: seq<Part>): string {
    if ps == [] then [] else PrintPart(ps[0]) + PrintParts(ps[1..])
  }

  function PrintToken(t: Token): string {
    match t
    case One => "."
    case Star => ".*"
    case Lit(c) => Escape(c)
    case Class(negated, parts) => "[" + (if negated then "^" else "") + PrintParts(parts) + "]"
    case Never => "(?!)"
  }

  function Print(ts: seq<Token>): string {
    if ts == [] then [] else PrintToken(ts[0]) + Print(ts[1..])
  }

  // ---- Reading a regular expression ----

  datatype Read<T> = Got(value: T, rest: string) | Bad

  /** One character of a class, `-` and `]` standing for themselves only when escaped. */
  function ReadAtom(t: string): (r: Read<char>)
  {
    if t == [] then Bad
    else if t[0] == '\\' then (if |t| > 1 && IsClassSyntax(t[1]) then Got(t[1], t[2..]) else Bad)
    else if t[0] == '-' || t[0] == ']' then Bad
    else Got(t[0], t[1..])
  }

  function ReadParts(t: string): (r: Read<seq<Part>>)
    ensures r.Got? ==> |r.rest| < |t|
    decreases |t|
  {
    if t == [] then Bad
    else if t[0] == ']' then Got([], t[1..])
    else
      match ReadAtom(t)
      case Bad => Bad
      case Got(lo, t1) =>
        if t1 != [] && t1[0] == '-' then
          match ReadAtom(t1[1..])
          case Bad => Bad
          case Got(hi, t2) =>
            if lo > hi then Bad
            else
              match ReadParts(t2)
              case Bad => Bad
              case Got(ps, t3) => Got([Span(lo, hi)] + ps, t3)
        else
          match ReadParts(t1)
          case Bad => Bad
          case Got(ps, t2) => Got([Single(lo)] + ps, t2)
  }

  function ReadToken(t: string): (r: Read<Token>)
    requires t != []
  {
    if t[0] == '.' then (if |t| > 1 && t[1] == '*' then Got(Star, t[2..]) else Got(One, t[1..]))
    else if t[0] == '\\' then (if |t| > 1 && IsSyntax(t[1]) then Got(Lit(t[1]), t[2..]) else Bad)
    else if |t| >= 4 && t[..4] == "(?!)" then Got(Never, t[4..])
    else if t[0] == '[' then
      var negated := |t| > 1 && t[1] == '^';
      match ReadParts(if negated then t[2..] else t[1..])
      case Bad => Bad
      case Got(ps, rest) => Got(Class(negated, ps), rest)
    else if IsSyntax(t[0]) then Bad
    else Got(Lit(t[0]), t[1..])
  }

  /** The expression a text denotes, for the constructs above; Bad for any other text. */
  function ReadRegex(t: string): Read<seq<Token>>
    decreases |t|
  {
    if t == [] then Got([], [])
    else
      match ReadToken(t)
      case Bad => Bad
      case Got(tok, rest) =>
        match ReadRegex(rest)
        case Bad => Bad
        case Got(ts, end) => Got([tok] + ts, end)
  }

  /** Expressions that can be written: ranges in order, no class without parts. */
  ghost predicate Printable(t: Token) {
    t.Class? ==> t.parts != [] && forall i :: 0 <= i < |t.parts| ==> Ordered(t.parts[i])
  }

  predicate Ordered(p: Part) { p.Span? ==> p.lo <= p.hi }

  lemma ReadsAtom(c: char, rest: string)
    ensures ReadAtom(ClassEscape(c) + rest) == Got(c, rest)
  {
    assert (ClassEscape(c) + rest)[|ClassEscape(c)|..] == rest;
  }

  lemma ReadsSingle(c: char, tail: string, ps: seq<Part>, rest: string)
    requires ReadParts(tail) == Got(ps, rest) && (tail == [] || tail[0] != '-')
    ensures ReadParts(ClassEscape(c) + tail) == Got([Single(c)] + ps, rest)
  {
    ReadsAtom(c, tail);
  }

  lemma ReadsSpan(lo: char, hi: char, tail: string, ps: seq<Part>, rest: string)
    requires ReadParts(tail) == Got(ps, rest) && lo <= hi
    ensures ReadParts(ClassEscape(lo) + ("-" + (ClassEscape(hi) + tail))) == Got([Span(lo, hi)] + ps, rest)
  {
    var t1 := "-" + (ClassEscape(hi) + tail);
    ReadsAtom(lo, t1);
    assert t1[1..] == ClassEscape(hi) + tail;
    ReadsAtom(hi, tail);
    assert (ClassEscape(lo) + t1)[0] != ']';
  }

  lemma {:induction false} ReadsParts(ps: seq<Part>, rest: string)
    requires forall i :: 0 <= i < |ps| ==> Ordered(ps[i])
    ensures ReadParts(PrintParts(ps) + "]" + rest) == Got(ps, rest)
  {
    hide ReadParts, PrintParts, ClassEscape;
    if ps == [] {
      EmptyParts(rest);
    } else {
      var tail := PrintParts(ps[1..]) + "]" + rest;
      ReadsParts(ps[1..], rest);
      assert [ps[0]] + ps[1..] == ps;
      PartFirst(ps, rest);
      match ps[0]
      case Single(c) =>
        NoDashFirst(ps[1..], rest);
        ReadsSingle(c, tail, ps[1..], rest);
      case Span(lo, hi) =>
        assert PrintPart(ps[0]) + tail == ClassEscape(lo) + ("-" + (ClassEscape(hi) + tail));
        ReadsSpan(lo, hi, tail, ps[1..], rest);
    }
  }

  lemma PartFirst(ps: seq<Part>, rest: string)
    requires ps != []
    ensures PrintParts(ps) + "]" + rest == PrintPart(ps[0]) + (PrintParts(ps[1..]) + "]" + rest)
  {
  }

  lemma EmptyParts(rest: string)
    ensures ReadParts(PrintParts([]) + "]" + rest) == Got([], rest)
  {
    assert (PrintParts([]) + "]" + rest)[1..] == rest;
  }

  lemma NoDashFirst(ps: seq<Part>, rest: string)
    ensures (PrintParts(ps) + "]" + rest)[0] != '-'
  {
  }

  lemma {:induction false} NoStarFirst(ts: seq<Token>)
    ensures Print(ts) == [] || Print(ts)[0] != '*'
  {
  }

  lemma ReadsClass(negated: bool, parts: seq<Part>, rest: string)
    requires Printable(Class(negated, parts))
    ensures ReadToken(PrintToken(Class(negated, parts)) + rest) == Got(Class(negated, parts), rest)
  {
    hide ReadParts, PrintParts;
    var t := PrintToken(Class(negated, parts)) + rest;
    var body := PrintParts(parts) + "]" + rest;
    FirstNotCaret(parts, rest);
    ReadsParts(parts, rest);
    assert t == (if negated then "[^" else "[") + body;
    assert (if negated then t[2..] else t[1..]) == body;
  }

  lemma ReadsToken(tok: Token, rest: string)
    requires Printable(tok) && (rest == [] || rest[0] != '*')
    ensures ReadToken(PrintToken(tok) + rest) == Got(tok, rest)
  {
    if tok.Class? {
      ReadsClass(tok.negated, tok.parts, rest);
    } else {
      hide ReadParts, PrintParts;
      var t := PrintToken(tok) + rest;
      assert t[|PrintToken(tok)|..] == rest;
      if tok.Never? {
        assert t[..4] == "(?!)";
      }
    }
  }

  lemma FirstNotCaret(ps: seq<Part>, rest: string)
    requires ps != []
    ensures (PrintParts(ps) + "]" + rest)[0] != '^'
  {
  }

  /** Reading inverts writing: no escape is missing, and none changes the meaning. */
  lemma {:induction false} ReadsBack(ts: seq<Token>)
    requires forall i :: 0 <= i < |ts| ==> Printable(ts[i])
    ensures ReadRegex(Print(ts)) == Got(ts, [])
  {
    if ts != [] {
      ReadsBack(ts[1..]);
      NoStarFirst(ts[1..]);
      ReadsToken(ts[0], Print(ts[1..]));
      assert [ts[0]] + ts[1..] == ts;
    }
  }

  // ---- Compiling a pattern ----

  /** The first `]` from position `k` on, or the end of the text. */
  function CloseFrom(rest: string, k: nat): (j: nat)
    decreases |rest| - k
  {
    if k >= |rest| then |rest| else if rest[k] == ']' then k else CloseFrom(rest, k + 1)
  }

  function Close(rest: string): nat {
    CloseFrom(rest, if rest != [] && rest[0] == '!' then 2 else 1)
  }

  lemma {:induction false} CloseFromFinds(rest: string, k: nat)
    ensures
      var j := CloseFrom(rest, k);
      && j <= |rest| && (forall i :: k <= i < j && i < |rest| ==> rest[i] != ']')
      && (j < |rest| ==> k <= j && rest[j] == ']')
    decreases |rest| - k
  {
    if k < |rest| && rest[k] != ']' {
      CloseFromFinds(rest, k + 1);
    }
  }

  lemma CloseFinds(rest: string)
    ensures Close(rest) <= |rest|
    ensures Close(rest) < |rest| ==> ClosesAt(rest, Close(rest))
    ensures forall j :: ClosesAt(rest, j) ==> j == Close(rest) < |rest|
  {
    CloseFromFinds(rest, if rest != [] && rest[0] == '!' then 2 else 1);
  }

  /** A set's text as class parts; a reversed range is dropped. */
  function Parts(body: string): seq<Part> {
    if body == [] then []
    else if |body| >= 3 && body[1] == '-' then
      (if body[0] <= body[2] then [Span(body[0], body[2])] else []) + Parts(body[3..])
    else [Single(body[0])] + Parts(body[1..])
  }

  function SetToken(negated: bool, parts: seq<Part>): Token {
    if parts != [] then Class(negated, parts) else if negated then One else Never
  }

  /** What a pattern is compiled to. */
  function Tokens(p: string): seq<Token>
    decreases |p|
  {
    if p == [] then []
    else
      var rest := p[1..];
      if p[0] == '*' then (if rest != [] && rest[0] == '*' then Tokens(rest) else [Star] + Tokens(rest))
      else if p[0] == '?' then [One] + Tokens(rest)
      else if p[0] == '[' && Close(rest) < |rest| then
        CloseFinds(rest);
        var negated := rest[0] == '!';
        var body := if negated then rest[1..Close(rest)] else rest[..Close(rest)];
        [SetToken(negated, Parts(body))] + Tokens(rest[Close(rest) + 1..])
      else [Lit(p[0])] + Tokens(rest)
  }

  lemma {:induction false} PartsOrdered(body: string)
    ensures forall i :: 0 <= i < |Parts(body)| ==> Ordered(Parts(body)[i])
  {
    if body != [] {
      if |body| >= 3 && body[1] == '-' { PartsOrdered(body[3..]); } else { PartsOrdered(body[1..]); }
    }
  }

  lemma {:induction false} TokensPrintable(p: string)
    ensures forall i :: 0 <= i < |Tokens(p)| ==> Printable(Tokens(p)[i])
    decreases |p|
  {
    if p != [] {
      var rest := p[1..];
      TokensPrintable(rest);
      if p[0] == '[' && Close(rest) < |rest| {
        CloseFinds(rest);
        TokensPrintable(rest[Close(rest) + 1..]);
        PartsOrdered(if rest[0] == '!' then rest[1..Close(rest)] else rest[..Close(rest)]);
      }
    }
  }

  lemma {:induction false} PartsMean(body: string, c: char)
    ensures InClass(Parts(body), c) <==> InSet(body, c)
  {
    if body != [] {
      var range := |body| >= 3 && body[1] == '-';
      var rest := if range then body[3..] else body[1..];
      PartsMean(rest, c);
      var ps, tail := Parts(body), Parts(rest);
      if ps != tail {
        assert ps == [ps[0]] + tail;
        OneMorePart(ps[0], tail, c);
      }
    }
  }

  lemma OneMorePart(p: Part, tail: seq<Part>, c: char)
    ensures InClass([p] + tail, c) <==> InPart(p, c) || InClass(tail, c)
  {
    var ps := [p] + tail;
    if InClass(tail, c) {
      var i :| 0 <= i < |tail| && InPart(tail[i], c);
      assert InPart(ps[i + 1], c);
    }
    if InPart(p, c) {
      assert InPart(ps[0], c);
    }
    if InClass(ps, c) && !InPart(p, c) {
      var i :| 0 <= i < |ps| && InPart(ps[i], c);
      assert InPart(tail[i - 1], c);
    }
  }

  // ---- The meaning is preserved ----

  /** A star takes any first part of the string. */
  lemma {:induction false} StarSplits(p: string, s: string)
    requires p != [] && p[0] == '*'
    ensures Matches(p, s) <==> exists k :: 0 <= k <= |s| && Matches(p[1..], s[k..])
    decreases |s|
  {
    if s == [] {
      assert s[0..] == s;
    } else {
      StarSplits(p, s[1..]);
      if Matches(p[1..], s) {
        assert Matches(p[1..], s[0..]) by { assert s[0..] == s; }
      } else if Matches(p, s[1..]) {
        var k :| 0 <= k <= |s[1..]| && Matches(p[1..], s[1..][k..]);
        assert s[1..][k..] == s[k + 1..];
      }
      if k :| 0 <= k <= |s| && Matches(p[1..], s[k..]) {
        if k == 0 {
          assert s[0..] == s;
        } else {
          assert s[1..][k - 1..] == s[k..];
        }
      }
    }
  }

  /** Two stars mean what one means. */
  lemma StarsCollapse(p: string, s: string)
    requires |p| >= 2 && p[0] == '*' && p[1] == '*'
    ensures Matches(p, s) <==> Matches(p[1..], s)
  {
    StarSplits(p, s);
    StarSplits(p[1..], s);
    if k :| 0 <= k <= |s| && Matches(p[1..], s[k..]) {
      StarSplits(p[1..], s[k..]);
      var m :| 0 <= m <= |s[k..]| && Matches(p[1..][1..], s[k..][m..]);
      assert s[k..][m..] == s[k + m..];
      assert Matches(p[1..], s);
    }
    if Matches(p[1..], s) {
      assert s[0..] == s;
    }
  }

  lemma {:induction false} TokensMean(p: string, s: string)
    ensures Accepts(Tokens(p), s) <==> Matches(p, s)
    decreases |p|
  {
    if p == [] {
    } else if p[0] == '*' {
      if |p| >= 2 && p[1] == '*' {
        StarsCollapse(p, s);
        TokensMean(p[1..], s);
      } else {
        StarMeans(p, s);
      }
    } else if p[0] == '[' {
      CloseFinds(p[1..]);
      if Close(p[1..]) < |p[1..]| {
        SetMeans(p, s);
      } else if s != [] {
        TokensMean(p[1..], s[1..]);
      }
    } else if s != [] {
      TokensMean(p[1..], s[1..]);
    }
  }

  lemma {:induction false} StarMeans(p: string, s: string)
    requires p != [] && p[0] == '*' && (|p| == 1 || p[1] != '*')
    ensures Accepts(Tokens(p), s) <==> Matches(p, s)
    decreases |p|, 0
  {
    StarSplits(p, s);
    forall k | 0 <= k <= |s| ensures Accepts(Tokens(p[1..]), s[k..]) <==> Matches(p[1..], s[k..]) {
      TokensMean(p[1..], s[k..]);
    }
    assert Tokens(p) == [Star] + Tokens(p[1..]);
    assert Tokens(p)[1..] == Tokens(p[1..]);
  }

  lemma {:induction false} SetMeans(p: string, s: string)
    requires p != [] && p[0] == '[' && Close(p[1..]) < |p[1..]|
    ensures Accepts(Tokens(p), s) <==> Matches(p, s)
    decreases |p|, 0
  {
    var rest := p[1..];
    CloseFinds(rest);
    var j := Close(rest);
    var negated := rest[0] == '!';
    var body := if negated then rest[1..j] else rest[..j];
    assert body == if negated then p[2..j + 1] else p[1..j + 1];
    assert rest[j + 1..] == p[j + 2..];
    assert Tokens(p) == [SetToken(negated, Parts(body))] + Tokens(p[j + 2..]);
    assert Tokens(p)[1..] == Tokens(p[j + 2..]);
    if s != [] {
      TokensMean(p[j + 2..], s[1..]);
    }
    SetTokenMeans(negated, body, Tokens(p[j + 2..]), s);
    hide Accepts, InSet, Tokens, Parts, SetToken, Close;
  }

  /** A set's token takes one character that is in the set, or not in a negated one. */
  lemma SetTokenMeans(negated: bool, body: string, ts: seq<Token>, s: string)
    ensures Accepts([SetToken(negated, Parts(body))] + ts, s) <==>
            s != [] && InSet(body, s[0]) != negated && Accepts(ts, s[1..])
  {
    if s != [] {
      PartsMean(body, s[0]);
      assert Parts(body) == [] ==> !InClass(Parts(body), s[0]);
    }
    hide Parts, InSet, InClass;
    assert ([SetToken(negated, Parts(body))] + ts)[1..] == ts;
  }

  /** The regular expression written for a pattern is well formed and matches exactly the
      strings the pattern means. */
  lemma CompilesFaithfully(p: string, s: string)
    ensures ReadRegex(Print(Tokens(p))).Got?
    ensures Accepts(ReadRegex(Print(Tokens(p))).value, s) <==> Matches(p, s)
  {
    TokensPrintable(p);
    ReadsBack(Tokens(p));
    TokensMean(p, s);
  }

  // ---- The code ----

  function Join(parts: seq<string>): string {
    if parts == [] then "" else Join(parts[..|parts| - 1]) + parts[|parts| - 1]
  }

  lemma JoinOne(parts: seq<string>, x: string)
    ensures Join(parts + [x]) == Join(parts) + x
  {
    assert (parts + [x])[..|parts|] == parts;
  }

  /** What the first character, or the first range, of a set's text adds. */
  lemma FirstPart(body: string)
    requires body != []
    ensures
      var range := |body| >= 3 && body[1] == '-';
      var rest := if range then body[3..] else body[1..];
      var adds := !range || body[0] <= body[2];
      var text := if range then ClassEscape(body[0]) + "-" + ClassEscape(body[2]) else ClassEscape(body[0]);
      && PrintParts(Parts(body)) == (if adds then text else "") + PrintParts(Parts(rest))
      && |Parts(body)| == (if adds then 1 else 0) + |Parts(rest)|
  {
    var range := |body| >= 3 && body[1] == '-';
    var rest := if range then body[3..] else body[1..];
    if Parts(body) != Parts(rest) {
      assert Parts(body)[1..] == Parts(rest);
    }
  }

  predicate RangeAt(body: string, k: nat) {
    k + 2 < |body| && body[k + 1] == '-'
  }

  /** What one step of the scan over a set's text adds to the text written so far. */
  lemma PartAt(body: string, k: nat, done: string)
    requires k < |body|
    ensures
      var next := if RangeAt(body, k) then k + 3 else k + 1;
      var adds := !RangeAt(body, k) || body[k] <= body[k + 2];
      var text := if RangeAt(body, k) then ClassEscape(body[k]) + "-" + ClassEscape(body[k + 2]) else ClassEscape(body[k]);
      && done + PrintParts(Parts(body[k..]))
         == (if adds then done + text else done) + PrintParts(Parts(body[next..]))
      && |Parts(body[k..])| == (if adds then 1 else 0) + |Parts(body[next..])|
  {
    FirstPart(body[k..]);
    var next := if RangeAt(body, k) then k + 3 else k + 1;
    var text := if RangeAt(body, k) then ClassEscape(body[k]) + "-" + ClassEscape(body[k + 2]) else ClassEscape(body[k]);
    assert body[k..][next - k..] == body[next..];
    Sequences.Associates(done, text, PrintParts(Parts(body[next..])));
  }

  /** The parts of one set, as they are written. */
  method WriteParts(body: string) returns (parts: seq<string>)
    ensures Join(parts) == PrintParts(Parts(body)) && |parts| == |Parts(body)|
  {
    parts := [];
    var k := 0;
    assert body[0..] == body;
    Nothing();
    while k < |body|
      invariant 0 <= k <= |body|
      invariant Join(parts) + PrintParts(Parts(body[k..])) == PrintParts(Parts(body))
      invariant |parts| + |Parts(body[k..])| == |Parts(body)|
    {
      hide Join, PrintParts, Parts, ClassEscape;
      var lo := body[k];
      PartAt(body, k, Join(parts));
      if k + 2 < |body| && body[k + 1] == '-' {
        var hi := body[k + 2];
        if lo <= hi {
          JoinOne(parts, ClassEscape(lo) + "-" + ClassEscape(hi));
          parts := parts + [ClassEscape(lo) + "-" + ClassEscape(hi)];
        }
        k := k + 3;
      } else {
        JoinOne(parts, ClassEscape(lo));
        parts := parts + [ClassEscape(lo)];
        k := k + 1;
      }
    }
    assert body[k..] == "";
  }

  lemma Nothing()
    ensures Join([]) == "" && PrintParts(Parts("")) == "" && Parts("") == [] && Print(Tokens("")) == ""
  {
  }

  /** Where the set that starts at `i` (after its `[`) ends: the index of its `]`, or the end. */
  method FindClose(chars: string, i: nat) returns (j: nat)
    requires i <= |chars|
    ensures j == i + Close(chars[i..]) && j <= |chars|
  {
    var rest := chars[i..];
    j := i;
    if j < |chars| && chars[j] == '!' { j := j + 1; }
    if j < |chars| && chars[j] == ']' { j := j + 1; }
    var from := j - i;
    while j < |chars| && chars[j] != ']'
      invariant i + from <= j <= |chars|
      invariant forall k :: i + from <= k < j ==> chars[k] != ']'
    {
      j := j + 1;
    }
    CloseFinds(rest);
    if j < |chars| {
      assert ClosesAt(rest, j - i);
    }
  }

  /** The text of one set. */
  method WriteSet(negate: bool, body: string) returns (text: string)
    ensures text == PrintToken(SetToken(negate, Parts(body)))
  {
    var parts := WriteParts(body);
    if parts == [] {
      text := if negate then "." else "(?!)";
    } else {
      text := "[" + (if negate then "^" else "") + Join(parts) + "]";
    }
  }

  /** Writing the first token of what is left. */
  lemma Emits(pat: string, i: nat, next: nat, t: Token, done: string)
    requires i <= |pat| && next <= |pat| && Tokens(pat[i..]) == [t] + Tokens(pat[next..])
    ensures done + Print(Tokens(pat[i..])) == (done + PrintToken(t)) + Print(Tokens(pat[next..]))
  {
    var ts := Tokens(pat[next..]);
    assert ([t] + ts)[1..] == ts;
    Sequences.Associates(done, PrintToken(t), Print(ts));
  }

  lemma StarAt(pat: string, i: nat)
    requires i < |pat| && pat[i] == '*'
    ensures Tokens(pat[i..]) ==
            if i + 1 < |pat| && pat[i + 1] == '*' then Tokens(pat[i + 1..]) else [Star] + Tokens(pat[i + 1..])
  {
    assert pat[i..][1..] == pat[i + 1..];
  }

  lemma PlainAt(pat: string, i: nat)
    requires i < |pat| && pat[i] != '*' && (pat[i] == '[' ==> Close(pat[i + 1..]) == |pat[i + 1..]|)
    ensures Tokens(pat[i..]) == [if pat[i] == '?' then One else Lit(pat[i])] + Tokens(pat[i + 1..])
  {
    assert pat[i..][1..] == pat[i + 1..];
  }

  lemma SetAt(pat: string, i: nat, j: nat)
    requires i < |pat| && pat[i] == '[' && j == i + 1 + Close(pat[i + 1..]) < |pat|
    ensures
      var start := if pat[i + 1] == '!' then i + 2 else i + 1;
      && start <= j
      && Tokens(pat[i..]) == [SetToken(pat[i + 1] == '!', Parts(pat[start..j]))] + Tokens(pat[j + 1..])
  {
    var rest := pat[i..][1..];
    assert rest == pat[i + 1..];
    CloseFinds(rest);
    var start := if pat[i + 1] == '!' then i + 2 else i + 1;
    assert pat[start..j] == if rest[0] == '!' then rest[1..Close(rest)] else rest[..Close(rest)];
    assert rest[Close(rest) + 1..] == pat[j + 1..];
  }

  /** The character at `i` begins the token `t`, and `next` is where the scan goes on. */
  ghost predicate Begins(pat: string, i: nat, next: nat, t: Token) {
    i < next <= |pat| && Tokens(pat[i..]) == [t] + Tokens(pat[next..])
  }

  lemma PlainBegins(pat: string, i: nat)
    requires i < |pat| && pat[i] == '[' && Close(pat[i + 1..]) == |pat[i + 1..]|
    ensures Begins(pat, i, i + 1, Lit('[')) && PrintToken(Lit('[')) == "\\["
  {
    PlainAt(pat, i);
  }

  lemma SetBegins(pat: string, i: nat, j: nat, start: nat)
    requires i < |pat| && pat[i] == '[' && j == i + 1 + Close(pat[i + 1..]) < |pat|
    requires start == if pat[i + 1] == '!' then i + 2 else i + 1
    ensures start <= j && Begins(pat, i, j + 1, SetToken(pat[i + 1] == '!', Parts(pat[start..j])))
  {
    SetAt(pat, i, j);
  }

  lemma RunOfStars(pat: string, from: nat, i: nat)
    requires from < i <= |pat| && pat[i - 1] == '*' && (i < |pat| ==> pat[i] != '*')
    requires Tokens(pat[i - 1..]) == Tokens(pat[from..])
    ensures Begins(pat, from, i, Star)
  {
    StarAt(pat, i - 1);
  }

  /** Skip a run of stars. */
  method SkipStars(pat: string, from: nat) returns (i: nat)
    requires from < |pat| && pat[from] == '*'
    ensures Begins(pat, from, i, Star)
  {
    hide Tokens, Begins;
    i := from + 1;
    while i < |pat| && pat[i] == '*'
      invariant from < i <= |pat| && pat[i - 1] == '*' && Tokens(pat[i - 1..]) == Tokens(pat[from..])
    {
      StarAt(pat, i - 1);
      i := i + 1;
    }
    RunOfStars(pat, from, i);
  }

  /** A `[`: a set, or a plain character when nothing closes it. */
  method WriteBracket(pat: string, from: nat) returns (i: nat, text: string, ghost t: Token)
    requires from < |pat| && pat[from] == '['
    ensures Begins(pat, from, i, t) && text == PrintToken(t)
  {
    i := from + 1;
    var j := FindClose(pat, i);
    hide Begins, Tokens, Parts, Close, PrintToken, SetToken;
    if j >= |pat| {
      PlainBegins(pat, from);
      return i, "\\[", Lit('[');
    }
    var negate := false;
    var start := i;
    if pat[start] == '!' {
      negate := true;
      start := start + 1;
    }
    SetBegins(pat, from, j, start);
    var body := pat[start..j];
    text := WriteSet(negate, body);
    return j + 1, text, SetToken(negate, Parts(body));
  }

  /** `translate`: one scan over the pattern. */
  method Translate(pat: string) returns (res: string)
    ensures res == Print(Tokens(pat))
  {
    var i := 0;
    res := "";
    assert pat[0..] == pat;
    Nothing();
    while i < |pat|
      invariant 0 <= i <= |pat|
      invariant res + Print(Tokens(pat[i..])) == Print(Tokens(pat))
      decreases |pat| - i
    {
      hide Print, Tokens, Parts, Close;
      var c := pat[i];
      var text: string, next: nat;
      ghost var t: Token;
      if c == '*' {
        next := SkipStars(pat, i);
        text, t := ".*", Star;
      } else if c == '[' {
        next, text, t := WriteBracket(pat, i);
      } else {
        PlainAt(pat, i);
        next := i + 1;
        text, t := if c == '?' then "." else Escape(c), if c == '?' then One else Lit(c);
      }
      Emits(pat, i, next, t, res);
      i := next;
      res := res + text;
    }
    assert pat[i..] == "";
  }

  /** `fnmatchcase` with its cache of compiled patterns. */
  class Matcher {
    var cache: map<string, string>

    ghost predicate Valid()
      reads this
    {
      forall p :: p in cache ==> cache[p] == Print(Tokens(p))
    }

    constructor ()
      ensures Valid()
    {
      cache := map[];
    }

    method Fnmatchcase(name: string, pattern: string) returns (matched: bool)
      requires Valid()
      modifies this
      ensures Valid() && (matched <==> Matches(pattern, name))
    {
      var re;
      if pattern in cache {
        re := cache[pattern];
      } else {
        re := Translate(pattern);
        if |cache| > 256 { cache := map[]; }
        cache := cache[pattern := re];
      }
      CompilesFaithfully(pattern, name);
      var compiled := ReadRegex(re);
      return Accepts(compiled.value, name);
    }
  }
}
