/** The shapes of an envelope's fields as the regular expressions that the reader of envelopes is
    written with, and the calendar as it is computed: the same shapes, for every text. */
module EnvelopeShapes {

  import opened Envelopes
  import opened Wrappers

  // ---- Regular expressions, anchored at both ends ----

  datatype Rx = Class(has: char -> bool) | Cat(a: Rx, b: Rx) | Or(a: Rx, b: Rx) | Star(a: Rx) | UpTo(a: Rx, n: nat)

  function Height(r: Rx): nat {
    match r
    case Class(_) => 0
    case Cat(a, b) => 1 + Height(a) + Height(b)
    case Or(a, b) => 1 + Height(a) + Height(b)
    case Star(a) => 1 + Height(a)
    case UpTo(a, _) => 1 + Height(a)
  }

  predicate Accepts(r: Rx, s: string)
    decreases Height(r), |s|
  {
    match r
    case Class(has) => |s| == 1 && has(s[0])
    case Cat(a, b) => exists k :: 0 <= k <= |s| && Accepts(a, s[..k]) && Accepts(b, s[k..])
    case Or(a, b) => Accepts(a, s) || Accepts(b, s)
    case Star(a) => s == "" || exists k :: 0 < k <= |s| && Accepts(a, s[..k]) && Accepts(r, s[k..])
    case UpTo(a, n) =>
      s == "" || (n > 0 && exists k :: 0 < k <= |s| && Accepts(a, s[..k]) && Accepts(UpTo(a, n - 1), s[k..]))
  }

  function Plus(a: Rx): Rx {
    Cat(a, Star(a))
  }

  function One(c: char): Rx {
    Class(x => x == c)
  }

  function Between(lo: char, hi: char): Rx {
    Class(x => lo <= x <= hi)
  }

  // ---- The expressions, as they are written in the source ----

  function LetterOrDigitRx(): Rx {
    Class(c => 'A' <= c <= 'Z' || 'a' <= c <= 'z' || '0' <= c <= '9')
  }

  function IdCharRx(): Rx {
    Class(c => 'A' <= c <= 'Z' || 'a' <= c <= 'z' || '0' <= c <= '9'
               || c == ':' || c == '.' || c == '_' || c == '/' || c == '@' || c == '#' || c == '-')
  }

  function ValueCharRx(): Rx {
    Class(c => 'A' <= c <= 'Z' || 'a' <= c <= 'z' || '0' <= c <= '9'
               || c == '.' || c == '_' || c == ':' || c == '/' || c == '@'
               || c == '#' || c == '+' || c == '=' || c == '-')
  }

  function WordRx(): Rx {
    Class(c => 'a' <= c <= 'z' || '0' <= c <= '9' || c == '_')
  }

  function IdRx(): Rx {
    Cat(LetterOrDigitRx(), UpTo(IdCharRx(), 255))
  }

  function SourceRx(): Rx {
    Cat(Class(c => 'a' <= c <= 'z' || '0' <= c <= '9'),
        UpTo(Class(c => 'a' <= c <= 'z' || '0' <= c <= '9' || c == '-'), 62))
  }

  function SubjectKeyRx(): Rx {
    Cat(Between('a', 'z'), UpTo(WordRx(), 31))
  }

  function SubjectValueRx(): Rx {
    Cat(LetterOrDigitRx(), Star(ValueCharRx()))
  }

  function KindRx(): Rx {
    Cat(Plus(WordRx()), Star(Cat(One('.'), Plus(WordRx()))))
  }

  function TypeRx(): Rx {
    Cat(Plus(WordRx()), Cat(One('.'), Cat(Plus(WordRx()), Cat(One('.'), Plus(WordRx())))))
  }

  // ---- Runs of one class ----

  predicate AllHave(has: char -> bool, s: string) {
    forall i :: 0 <= i < |s| ==> has(s[i])
  }

  lemma {:induction false} StarOfClass(has: char -> bool, s: string)
    ensures Accepts(Star(Class(has)), s) <==> AllHave(has, s)
    decreases |s|
  {
    if s != "" {
      StarOfClass(has, s[1..]);
      assert s[..1] == [s[0]];
      if Accepts(Star(Class(has)), s) {
        var k :| 0 < k <= |s| && Accepts(Class(has), s[..k]) && Accepts(Star(Class(has)), s[k..]);
        assert |s[..k]| == k == 1;
        assert forall i :: 0 < i < |s| ==> s[i] == s[1..][i - 1];
      }
      if AllHave(has, s) {
        assert Accepts(Class(has), s[..1]) && Accepts(Star(Class(has)), s[1..]);
      }
    }
  }

  lemma {:induction false} UpToOfClass(has: char -> bool, n: nat, s: string)
    ensures Accepts(UpTo(Class(has), n), s) <==> |s| <= n && AllHave(has, s)
    decreases |s|
  {
    if s != "" && n > 0 {
      UpToOfClass(has, n - 1, s[1..]);
      assert s[..1] == [s[0]];
      if Accepts(UpTo(Class(has), n), s) {
        var k :| 0 < k <= |s| && Accepts(Class(has), s[..k]) && Accepts(UpTo(Class(has), n - 1), s[k..]);
        assert |s[..k]| == k == 1;
        assert forall i :: 0 < i < |s| ==> s[i] == s[1..][i - 1];
      }
      if |s| <= n && AllHave(has, s) {
        assert Accepts(Class(has), s[..1]) && Accepts(UpTo(Class(has), n - 1), s[1..]);
      }
    }
  }

  /** An expression that begins with one character of a class. */
  lemma FirstOfClass(has: char -> bool, b: Rx, s: string)
    ensures Accepts(Cat(Class(has), b), s) <==> s != "" && has(s[0]) && Accepts(b, s[1..])
  {
    if Accepts(Cat(Class(has), b), s) {
      var k :| 0 <= k <= |s| && Accepts(Class(has), s[..k]) && Accepts(b, s[k..]);
      assert |s[..k]| == k == 1;
    }
    if s != "" && has(s[0]) && Accepts(b, s[1..]) {
      assert s[..1] == [s[0]];
      assert Accepts(Class(has), s[..1]);
    }
  }

  lemma AllBehindFirst(has: char -> bool, s: string)
    requires s != ""
    ensures AllHave(has, s) <==> has(s[0]) && AllHave(has, s[1..])
  {
    assert forall i :: 0 < i < |s| ==> s[i] == s[1..][i - 1];
    if AllHave(has, s) {
      forall i | 0 <= i < |s| - 1 ensures has(s[1..][i]) {
        assert s[1..][i] == s[i + 1];
      }
    }
  }

  /** A first character of one class, and behind it a limited number of another that holds it. */
  lemma FirstAndUpTo(first: char -> bool, has: char -> bool, n: nat, s: string)
    requires forall c :: first(c) ==> has(c)
    ensures Accepts(Cat(Class(first), UpTo(Class(has), n)), s) <==>
            1 <= |s| <= n + 1 && first(s[0]) && forall i :: 0 <= i < |s| ==> has(s[i])
  {
    FirstOfClass(first, UpTo(Class(has), n), s);
    if s != "" {
      UpToOfClass(has, n, s[1..]);
      AllBehindFirst(has, s);
    }
    hide Accepts;
  }

  lemma FirstAndStar(first: char -> bool, has: char -> bool, s: string)
    requires forall c :: first(c) ==> has(c)
    ensures Accepts(Cat(Class(first), Star(Class(has))), s) <==>
            1 <= |s| && first(s[0]) && forall i :: 0 <= i < |s| ==> has(s[i])
  {
    FirstOfClass(first, Star(Class(has)), s);
    if s != "" {
      StarOfClass(has, s[1..]);
      AllBehindFirst(has, s);
    }
    hide Accepts;
  }

  lemma IdsAre(s: string)
    ensures IsId(s) <==> Accepts(IdRx(), s)
  {
    FirstAndUpTo(LetterOrDigitRx().has, IdCharRx().has, 255, s);
    forall c: char ensures IdChar(c) <==> IdCharRx().has(c) {
      assert c in ":._/@#-" <==> c in {':', '.', '_', '/', '@', '#', '-'};
    }
    hide Accepts;
  }

  lemma SourcesAre(s: string)
    ensures IsSource(s) <==> Accepts(SourceRx(), s)
  {
    FirstAndUpTo(SourceRx().a.has, SourceRx().b.a.has, 62, s);
    hide Accepts;
  }

  lemma SubjectKeysAre(s: string)
    ensures IsSubjectKey(s) <==> Accepts(SubjectKeyRx(), s)
  {
    FirstAndUpTo(Between('a', 'z').has, WordRx().has, 31, s);
    hide Accepts;
  }

  lemma SubjectValuesAre(s: string)
    ensures IsSubjectValue(s) <==> |s| <= 256 && Accepts(SubjectValueRx(), s)
  {
    FirstAndStar(LetterOrDigitRx().has, ValueCharRx().has, s);
    forall c: char ensures ValueChar(c) <==> ValueCharRx().has(c) {
      assert c in "._:/@#+=-" <==> c in {'.', '_', ':', '/', '@', '#', '+', '=', '-'};
    }
    hide Accepts;
  }

  // ---- Words with dots between them ----

  predicate IsWords(s: string) {
    s != "" && AllHave(WordRx().has, s)
  }

  lemma WordsAre(s: string)
    ensures Accepts(Plus(WordRx()), s) <==> IsWords(s)
  {
    FirstAndStar(WordRx().has, WordRx().has, s);
    hide Accepts;
  }

  /** The place of the first dot, or the length. */
  function FirstDot(s: string): (k: nat)
    ensures k <= |s| && (k < |s| ==> s[k] == '.') && forall i :: 0 <= i < k ==> s[i] != '.'
  {
    if s == "" || s[0] == '.' then 0 else 1 + FirstDot(s[1..])
  }

  lemma {:induction false} DotsBehindFirst(s: string)
    ensures Dots(s) == if FirstDot(s) == |s| then 0 else 1 + Dots(s[FirstDot(s) + 1..])
  {
    if s != "" && s[0] != '.' {
      DotsBehindFirst(s[1..]);
      if FirstDot(s) < |s| {
        assert s[1..][FirstDot(s[1..]) + 1..] == s[FirstDot(s) + 1..];
      }
    }
  }

  lemma DottedSplits(s: string)
    ensures var k := FirstDot(s); IsDotted(s) <==> IsWords(s[..k]) && (k == |s| || IsDotted(s[k + 1..]))
  {
    hide IsDotted, IsWords, FirstDot;
    var k := FirstDot(s);
    if IsDotted(s) {
      DottedFirst(s, k);
    }
    if k == |s| {
      assert s[..k] == s;
      if IsWords(s) { NoDotsDotted(s); }
    } else if IsWords(s[..k]) && IsDotted(s[k + 1..]) {
      DottedJoins(s[..k], s[k + 1..]);
      assert s == s[..k] + "." + s[k + 1..];
    }
  }

  lemma DottedFirst(s: string, k: nat)
    requires IsDotted(s) && k <= |s| && (k < |s| ==> s[k] == '.') && forall i :: 0 <= i < k ==> s[i] != '.'
    ensures IsWords(s[..k]) && (k == |s| || IsDotted(s[k + 1..]))
  {
    assert k > 0;
    if k < |s| {
      var t := s[k + 1..];
      assert !(s[k] == '.' && k + 1 < |s| && s[k + 1] == '.');
      assert t != "" && t[0] == s[k + 1] && t[|t| - 1] == s[|s| - 1];
      forall i | 0 <= i < |t| - 1 ensures !(t[i] == '.' && t[i + 1] == '.') {
        assert t[i] == s[k + 1 + i] && t[i + 1] == s[k + 1 + i + 1];
      }
    }
  }

  lemma NoDotsDotted(s: string)
    requires IsWords(s)
    ensures IsDotted(s)
  {
  }

  lemma DottedJoins(w: string, t: string)
    requires IsWords(w) && IsDotted(t)
    ensures IsDotted(w + "." + t)
  {
    var s, k := w + "." + t, |w|;
    forall i | 0 <= i < |s| ensures (Word(s[i]) || s[i] == '.') && (i + 1 < |s| ==> !(s[i] == '.' && s[i + 1] == '.')) {
      if i < k {
        assert s[i] == w[i];
      } else if i > k {
        assert s[i] == t[i - k - 1];
        assert i + 1 < |s| ==> s[i + 1] == t[i - k];
      } else {
        assert i + 1 < |s| ==> s[i + 1] == t[0];
      }
    }
    assert s[0] == w[0] && s[|s| - 1] == t[|t| - 1];
  }

  lemma DotThen(c: Rx, s: string)
    ensures Accepts(Cat(One('.'), c), s) <==> s != "" && s[0] == '.' && Accepts(c, s[1..])
  {
    FirstOfClass(One('.').has, c, s);
  }

  /** Words, a dot, and what follows it. */
  lemma WordsThenDot(c: Rx, s: string)
    ensures Accepts(Cat(Plus(WordRx()), Cat(One('.'), c)), s) <==>
            FirstDot(s) < |s| && IsWords(s[..FirstDot(s)]) && Accepts(c, s[FirstDot(s) + 1..])
  {
    var m := FirstDot(s);
    if Accepts(Cat(Plus(WordRx()), Cat(One('.'), c)), s) {
      var k :| 0 <= k <= |s| && Accepts(Plus(WordRx()), s[..k]) && Accepts(Cat(One('.'), c), s[k..]);
      hide Accepts, IsWords;
      WordsAre(s[..k]);
      DotThen(c, s[k..]);
      WordsHaveNoDot(s, k);
      assert s[k..][1..] == s[k + 1..];
    }
    if m < |s| && IsWords(s[..m]) && Accepts(c, s[m + 1..]) {
      WordsAre(s[..m]);
      DotThen(c, s[m..]);
      assert s[m..][1..] == s[m + 1..];
      assert Accepts(Plus(WordRx()), s[..m]) && Accepts(Cat(One('.'), c), s[m..]);
    }
  }

  /** A dot behind words is the first. */
  lemma WordsHaveNoDot(s: string, k: nat)
    requires k <= |s| && IsWords(s[..k]) && (k < |s| ==> s[k] == '.')
    ensures FirstDot(s) == k
  {
    assert forall i :: 0 <= i < k ==> s[i] == s[..k][i];
  }

  lemma TypesAre(s: string)
    ensures IsType(s) <==> Accepts(TypeRx(), s)
  {
    var last := Plus(WordRx());
    var k := FirstDot(s);
    WordsThenDot(Cat(last, Cat(One('.'), last)), s);
    DottedSplits(s);
    DotsBehindFirst(s);
    hide Accepts, IsDotted, IsWords, Dots;
    if k < |s| {
      var t := s[k + 1..];
      var m := FirstDot(t);
      WordsThenDot(last, t);
      DottedSplits(t);
      DotsBehindFirst(t);
      if m < |t| {
        var u := t[m + 1..];
        WordsAre(u);
        DottedSplits(u);
        DotsBehindFirst(u);
        assert u[..|u|] == u;
        NoDotInWords(u);
      }
    }
  }

  lemma NoDotInWords(s: string)
    ensures IsWords(s) ==> FirstDot(s) == |s|
  {
    assert s[..|s|] == s;
    if IsWords(s) { WordsHaveNoDot(s, |s|); }
  }

  /** What may follow the first words: nothing, or a dot and dotted words. */
  predicate IsTailOfKind(t: string) {
    t == "" || (t[0] == '.' && IsDotted(t[1..]))
  }

  /** A dot and words, and then a good tail. */
  lemma TailSplits(t: string, k: nat)
    requires 0 < k <= |t| && t[0] == '.' && IsWords(t[1..][..k - 1]) && (k < |t| ==> t[k] == '.')
    ensures IsTailOfKind(t) <==> IsTailOfKind(t[k..])
  {
    hide IsDotted, IsWords;
    WordsHaveNoDot(t[1..], k - 1);
    DottedSplits(t[1..]);
    assert k < |t| ==> t[1..][k..] == t[k..][1..] && t[k..][0] == t[k];
  }

  lemma WordAhead(t: string, k: nat)
    requires 0 < k <= |t|
    ensures Accepts(Cat(One('.'), Plus(WordRx())), t[..k]) <==> t[0] == '.' && IsWords(t[1..][..k - 1])
  {
    hide Accepts, IsWords;
    DotThen(Plus(WordRx()), t[..k]);
    WordsAre(t[..k][1..]);
    assert t[..k][1..] == t[1..][..k - 1];
  }

  lemma {:induction false} TailsAre(t: string)
    ensures Accepts(Star(Cat(One('.'), Plus(WordRx()))), t) <==> IsTailOfKind(t)
    decreases |t|
  {
    var word := Cat(One('.'), Plus(WordRx()));
    if t != "" && Accepts(Star(word), t) {
      var k :| 0 < k <= |t| && Accepts(word, t[..k]) && Accepts(Star(word), t[k..]);
      hide Accepts, IsWords;
      TailsAre(t[k..]);
      WordAhead(t, k);
      TailSplits(t, k);
    }
    if t != "" && IsTailOfKind(t) {
      DottedSplits(t[1..]);
      hide IsDotted, IsWords;
      var k := FirstDot(t[1..]) + 1;
      WordAhead(t, k);
      TailSplits(t, k);
      TailsAre(t[k..]);
      assert Accepts(word, t[..k]) && Accepts(Star(word), t[k..]);
    }
  }

  lemma KindsAre(s: string)
    ensures IsKind(s) <==> |s| <= 64 && Accepts(KindRx(), s)
  {
    hide IsDotted, IsWords;
    var tail := Star(Cat(One('.'), Plus(WordRx())));
    DottedSplits(s);
    if Accepts(KindRx(), s) {
      var k :| 0 <= k <= |s| && Accepts(Plus(WordRx()), s[..k]) && Accepts(tail, s[k..]);
      hide Accepts;
      WordsAre(s[..k]);
      TailsAre(s[k..]);
      WordsHaveNoDot(s, k);
      assert k < |s| ==> s[k..][1..] == s[k + 1..];
    }
    if IsDotted(s) {
      var k := FirstDot(s);
      WordsAre(s[..k]);
      TailsAre(s[k..]);
      assert k < |s| ==> s[k..][1..] == s[k + 1..];
      assert Accepts(Plus(WordRx()), s[..k]) && Accepts(tail, s[k..]);
    }
  }

  // ---- Timestamps ----

  function DigitRx(): Rx {
    Between('0', '9')
  }

  function MonthRx(): Rx {
    Or(Cat(One('0'), Between('1', '9')), Cat(One('1'), Between('0', '2')))
  }

  function DayRx(): Rx {
    Or(Cat(One('0'), Between('1', '9')), Or(Cat(Between('1', '2'), DigitRx()), Cat(One('3'), Between('0', '1'))))
  }

  function HourRx(): Rx {
    Or(Cat(Between('0', '1'), DigitRx()), Cat(One('2'), Between('0', '3')))
  }

  function SixtyRx(): Rx {
    Cat(Between('0', '5'), DigitRx())
  }

  function ClockRx(): Rx {
    Cat(HourRx(), Cat(One(':'), SixtyRx()))
  }

  function YearRx(): Rx {
    Cat(Cat(DigitRx(), DigitRx()), Cat(DigitRx(), DigitRx()))
  }

  function DateRx(): Rx {
    Cat(YearRx(), Cat(One('-'), Cat(MonthRx(), Cat(One('-'), DayRx()))))
  }

  function ZoneRx(): Rx {
    Or(One('Z'), Cat(Class(c => c == '+' || c == '-'), ClockRx()))
  }

  function FractionRx(): Rx {
    Cat(One('.'), Plus(DigitRx()))
  }

  function Rfc3339Rx(): Rx {
    Cat(DateRx(), Cat(One('T'), Cat(ClockRx(), Cat(One(':'), Cat(SixtyRx(), Cat(UpTo(FractionRx(), 1), ZoneRx()))))))
  }

  /** How long every text is that the expression accepts, if that is the same for all of them. */
  function Width(r: Rx): Option<nat> {
    match r
    case Class(_) => Some(1)
    case Cat(a, b) => if Width(a).Some? && Width(b).Some? then Some(Width(a).value + Width(b).value) else None
    case Or(a, b) => if Width(a) == Width(b) then Width(a) else None
    case _ => None
  }

  lemma {:induction false} WidthHolds(r: Rx, s: string)
    requires Width(r).Some? && Accepts(r, s)
    ensures |s| == Width(r).value
    decreases r
  {
    match r
    case Class(_) =>
    case Cat(a, b) =>
      var k :| 0 <= k <= |s| && Accepts(a, s[..k]) && Accepts(b, s[k..]);
      WidthHolds(a, s[..k]);
      WidthHolds(b, s[k..]);
    case Or(a, b) =>
      if Accepts(a, s) { WidthHolds(a, s); } else { WidthHolds(b, s); }
    case _ =>
  }

  lemma FixedThen(a: Rx, b: Rx, n: nat, s: string)
    requires Width(a) == Some(n)
    ensures Accepts(Cat(a, b), s) <==> |s| >= n && Accepts(a, s[..n]) && Accepts(b, s[n..])
  {
    if Accepts(Cat(a, b), s) {
      var k :| 0 <= k <= |s| && Accepts(a, s[..k]) && Accepts(b, s[k..]);
      WidthHolds(a, s[..k]);
    }
  }

  lemma TwoOf(f: char -> bool, g: char -> bool, s: string)
    ensures Accepts(Cat(Class(f), Class(g)), s) <==> |s| == 2 && f(s[0]) && g(s[1])
  {
    FirstOfClass(f, Class(g), s);
  }

  predicate TwoDigits(s: string) {
    |s| == 2 && Digit(s[0]) && Digit(s[1])
  }

  lemma PairsAre(s: string)
    ensures Accepts(Cat(DigitRx(), DigitRx()), s) <==> TwoDigits(s)
    ensures Accepts(MonthRx(), s) <==> TwoDigits(s) && 1 <= Number2(s, 0) <= 12
    ensures Accepts(DayRx(), s) <==> TwoDigits(s) && 1 <= Number2(s, 0) <= 31
    ensures Accepts(HourRx(), s) <==> TwoDigits(s) && Number2(s, 0) < 24
    ensures Accepts(SixtyRx(), s) <==> TwoDigits(s) && Number2(s, 0) < 60
  {
    TwoOf(DigitRx().has, DigitRx().has, s);
    TwoOf(One('0').has, Between('1', '9').has, s);
    TwoOf(One('1').has, Between('0', '2').has, s);
    TwoOf(Between('1', '2').has, DigitRx().has, s);
    TwoOf(One('3').has, Between('0', '1').has, s);
    TwoOf(Between('0', '1').has, DigitRx().has, s);
    TwoOf(One('2').has, Between('0', '3').has, s);
    TwoOf(Between('0', '5').has, DigitRx().has, s);
  }

  lemma Widths()
    ensures Width(HourRx()) == Some(2) && Width(SixtyRx()) == Some(2) && Width(ClockRx()) == Some(5)
    ensures Width(MonthRx()) == Some(2) && Width(DayRx()) == Some(2)
    ensures Width(YearRx()) == Some(4) && Width(DateRx()) == Some(10)
    ensures Width(Cat(DigitRx(), DigitRx())) == Some(2)
  {
  }

  lemma ColonThen(b: Rx, s: string)
    ensures Accepts(Cat(One(':'), b), s) <==> s != "" && s[0] == ':' && Accepts(b, s[1..])
  {
    FirstOfClass(One(':').has, b, s);
  }

  lemma DashThen(b: Rx, s: string)
    ensures Accepts(Cat(One('-'), b), s) <==> s != "" && s[0] == '-' && Accepts(b, s[1..])
  {
    FirstOfClass(One('-').has, b, s);
  }

  lemma ClocksAre(s: string)
    ensures Accepts(ClockRx(), s) <==> |s| == 5 && ClockAt(s, 0)
  {
    Widths();
    hide Accepts, Width, HourRx, SixtyRx, One;
    FixedThen(HourRx(), Cat(One(':'), SixtyRx()), 2, s);
    if |s| >= 2 {
      PairsAre(s[..2]);
      ColonThen(SixtyRx(), s[2..]);
    }
    if |s| >= 3 {
      assert s[2..][1..] == s[3..];
      PairsAre(s[3..]);
    }
  }

  lemma ClockInside(s: string, i: nat)
    ensures ClockAt(s, i) <==> i + 5 <= |s| && ClockAt(s[i..i + 5], 0)
  {
  }

  lemma ZonesAre(s: string)
    ensures Accepts(ZoneRx(), s) <==> IsZone(s)
  {
    FirstOfClass(ZoneRx().b.a.has, ClockRx(), s);
    if s != "" {
      ClocksAre(s[1..]);
      ClockInside(s, 1);
      assert |s| == 6 ==> s[1..6] == s[1..];
    }
    assert Accepts(One('Z'), s) <==> s == "Z";
    hide Accepts;
  }

  lemma FractionsAre(s: string)
    ensures Accepts(UpTo(FractionRx(), 1), s) <==> s == "" || (|s| >= 2 && s[0] == '.' && Digits(s, 1, |s|))
  {
    if s != "" {
      FirstOfClass(One('.').has, Plus(DigitRx()), s);
      FirstAndStar(DigitRx().has, DigitRx().has, s[1..]);
      assert forall i :: 1 <= i < |s| ==> s[i] == s[1..][i - 1];
      if Accepts(UpTo(FractionRx(), 1), s) {
        var k :| 0 < k <= |s| && Accepts(FractionRx(), s[..k]) && Accepts(UpTo(FractionRx(), 0), s[k..]);
        assert k == |s| && s[..k] == s;
      }
      if Accepts(FractionRx(), s) {
        assert s[..|s|] == s && s[|s|..] == "";
        assert Accepts(FractionRx(), s[..|s|]) && Accepts(UpTo(FractionRx(), 0), s[|s|..]);
      }
    }
  }

  lemma EndsAre(s: string)
    ensures Accepts(Cat(UpTo(FractionRx(), 1), ZoneRx()), s) <==> IsTail(s)
  {
    if Accepts(Cat(UpTo(FractionRx(), 1), ZoneRx()), s) {
      var k :| 0 <= k <= |s| && Accepts(UpTo(FractionRx(), 1), s[..k]) && Accepts(ZoneRx(), s[k..]);
      hide Accepts, IsZone;
      FractionsAre(s[..k]);
      ZonesAre(s[k..]);
      assert k == 0 ==> s[k..] == s;
      assert k > 0 ==> Digits(s, 1, k);
    }
    if IsTail(s) {
      if IsZone(s) {
        FractionsAre(s[..0]);
        ZonesAre(s[0..]);
        assert s[0..] == s;
      } else {
        var k :| 2 <= k <= |s| && Digits(s, 1, k) && IsZone(s[k..]);
        FractionsAre(s[..k]);
        ZonesAre(s[k..]);
        assert Accepts(UpTo(FractionRx(), 1), s[..k]) && Accepts(ZoneRx(), s[k..]);
      }
    }
  }

  predicate IsDate(s: string) {
    |s| == 10 && Digits(s, 0, 4) && s[4] == '-' && Digits(s, 5, 7) && s[7] == '-' && Digits(s, 8, 10)
    && 1 <= Number2(s, 5) <= 12 && 1 <= Number2(s, 8) <= 31
  }

  lemma YearsAre(s: string)
    ensures Accepts(YearRx(), s) <==> |s| == 4 && Digits(s, 0, 4)
  {
    Widths();
    hide Accepts, DigitRx, Width;
    FixedThen(Cat(DigitRx(), DigitRx()), Cat(DigitRx(), DigitRx()), 2, s);
    if |s| >= 2 {
      PairsAre(s[..2]);
      PairsAre(s[2..]);
    }
  }

  lemma DatesAre(s: string)
    ensures Accepts(DateRx(), s) <==> IsDate(s)
  {
    Widths();
    hide Accepts, Width, YearRx, MonthRx, DayRx, One;
    FixedThen(YearRx(), DateRx().b, 4, s);
    if |s| >= 4 {
      YearsAre(s[..4]);
      DashThen(DateRx().b.b, s[4..]);
    }
    if |s| >= 5 {
      assert s[4..][1..] == s[5..];
      FixedThen(MonthRx(), DateRx().b.b.b, 2, s[5..]);
    }
    if |s| >= 7 {
      assert s[5..][..2] == s[5..7] && s[5..][2..] == s[7..];
      PairsAre(s[5..7]);
      DashThen(DayRx(), s[7..]);
    }
    if |s| >= 8 {
      assert s[7..][1..] == s[8..];
      PairsAre(s[8..]);
    }
  }

  /** The shape, character by character. */
  predicate HasShape(s: string) {
    |s| >= 19 && IsDate(s[..10]) && s[10] == 'T' && ClockAt(s, 11) && s[16] == ':' && TwoDigits(s[17..19])
    && Number2(s[17..19], 0) < 60 && IsTail(s[19..])
  }

  lemma ShapesHold(s: string)
    ensures Accepts(Rfc3339Rx(), s) <==> HasShape(s)
  {
    Widths();
    hide Accepts, IsDate, IsTail, Width, DateRx, ClockRx, SixtyRx, FractionRx, ZoneRx;
    var afterDate := Rfc3339Rx().b;
    var clock := afterDate.b;
    var seconds := clock.b.b;
    FixedThen(DateRx(), afterDate, 10, s);
    if |s| >= 10 {
      DatesAre(s[..10]);
      FirstOfClass(One('T').has, clock, s[10..]);
    }
    if |s| >= 11 {
      assert s[10..][1..] == s[11..];
      FixedThen(ClockRx(), clock.b, 5, s[11..]);
    }
    if |s| >= 16 {
      assert s[11..][..5] == s[11..16] && s[11..][5..] == s[16..];
      ClocksAre(s[11..16]);
      ClockInside(s, 11);
      ColonThen(seconds, s[16..]);
    }
    if |s| >= 17 {
      assert s[16..][1..] == s[17..];
      FixedThen(SixtyRx(), seconds.b, 2, s[17..]);
    }
    if |s| >= 19 {
      assert s[17..][..2] == s[17..19] && s[17..][2..] == s[19..];
      PairsAre(s[17..19]);
      EndsAre(s[19..]);
    }
  }

  /** A timestamp is accepted exactly when the expression accepts it and its date is one of the
      calendar. */
  lemma TimestampsAre(s: string)
    ensures Accepts(Rfc3339Rx(), s) ==> DateShape(s)
    ensures ValidTimestamp(s) <==>
            Accepts(Rfc3339Rx(), s)
            && var year := 100 * Number2(s, 0) + Number2(s, 2);
               year >= 1 && Number2(s, 8) <= DaysIn(year, Number2(s, 5))
  {
    ShapesHold(s);
    hide Accepts, IsTail;
    if |s| >= 19 {
      assert IsDate(s[..10]) <==> DateShape(s);
      assert Digits(s, 17, 19) <==> TwoDigits(s[17..19]);
    }
  }

  // ---- The calendar ----

  /** The days before the first of January of a year. */
  function DaysBefore(year: nat): nat
    requires year >= 1
  {
    365 * (year - 1) + (year - 1) / 4 - (year - 1) / 100 + (year - 1) / 400
  }

  /** The days from the first of March to the first of the month that many months later. */
  function DaysFromMarch(months: nat): nat {
    (153 * months + 2) / 5
  }

  /** The length of a month as the difference of two such counts; February has what the others leave
      of the year. */
  lemma CalendarIs(year: nat, month: nat)
    requires year >= 1 && 1 <= month <= 12
    ensures var m := (month + 9) % 12;
            DaysIn(year, month) ==
            if month == 2 then DaysBefore(year + 1) - DaysBefore(year) - DaysFromMarch(11)
            else DaysFromMarch(m + 1) - DaysFromMarch(m)
  {
    LeapIs(year);
    FourHundreds(year);
  }

  lemma LeapIs(year: nat)
    requires year >= 1
    ensures year / 4 - (year - 1) / 4 == if year % 4 == 0 then 1 else 0
    ensures year / 100 - (year - 1) / 100 == if year % 100 == 0 then 1 else 0
    ensures year / 400 - (year - 1) / 400 == if year % 400 == 0 then 1 else 0
  {
  }

  lemma FourHundreds(year: nat)
    ensures year % 400 == 0 ==> year % 100 == 0
    ensures year % 100 == 0 ==> year % 4 == 0
  {
    if year % 400 == 0 {
      var q := year / 400;
      assert year == 100 * (4 * q);
    }
    if year % 100 == 0 {
      var q := year / 100;
      assert year == 4 * (25 * q);
    }
  }
}
