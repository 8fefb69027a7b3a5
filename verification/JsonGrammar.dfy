/** The grammar of JSON texts (RFC 8259), apart from any reader: a text is what some derivation spells,
    with white space wherever the grammar allows it, and means what the derivation means. The reader
    accepts exactly these texts, each as its meaning. */
module JsonGrammar {

  import opened Json
  import opened Wrappers
  import Sequences

  // ---- Derivations ----

  datatype HexDigit = HexDigit(n: Nibble, upper: bool)

  /** One character of a string, as it may be written. */
  datatype Piece = Raw(c: char) | Escaped(letter: char) | Unit16(a: HexDigit, b: HexDigit, c3: HexDigit, d: HexDigit)

  datatype Exponent = Exponent(mark: char, sign: string, digits: string)

  datatype Num = Num(minus: bool, whole: string, frac: Option<string>, exp: Option<Exponent>)

  /** `gap` is the white space of an empty array or object. */
  datatype Tree =
    | TStr(pieces: seq<Piece>)
    | TNum(num: Num)
    | TWord(word: string)
    | TArr(gap: string, items: seq<Item>)
    | TObj(gap: string, members: seq<Member>)

  datatype Item = Item(before: string, value: Tree, after: string)

  datatype Member = Member(before: string, key: seq<Piece>, mid: string, mid2: string, value: Tree, after: string)

  // ---- Which derivations are good ----

  predicate Spaces(s: string) {
    forall i :: 0 <= i < |s| ==> s[i] in " \t\n\r"
  }

  predicate AllDigits(s: string) {
    s != "" && forall i :: 0 <= i < |s| ==> '0' <= s[i] <= '9'
  }

  predicate GoodPiece(p: Piece) {
    match p
    case Raw(c) => c >= ' ' && c != '"' && c != '\\'
    case Escaped(e) => e in "\"\\/bfnrt"
    case Unit16(_, _, _, _) => true
  }

  predicate GoodPieces(ps: seq<Piece>) {
    forall i :: 0 <= i < |ps| ==> GoodPiece(ps[i])
  }

  predicate GoodNum(n: Num) {
    && AllDigits(n.whole) && (|n.whole| > 1 ==> n.whole[0] != '0')
    && (n.frac.Some? ==> AllDigits(n.frac.value))
    && (n.exp.Some? ==> n.exp.value.mark in "eE" && n.exp.value.sign in ["", "+", "-"] && AllDigits(n.exp.value.digits))
  }

  predicate Good(t: Tree)
    decreases t, 0
  {
    match t
    case TStr(ps) => GoodPieces(ps)
    case TNum(n) => GoodNum(n)
    case TWord(w) => w in ["true", "false", "null"]
    case TArr(gap, items) => Spaces(gap) && GoodItems(items)
    case TObj(gap, ms) => Spaces(gap) && GoodMembers(ms)
  }

  predicate GoodItems(items: seq<Item>)
    decreases items, 1
  {
    items != [] ==> Spaces(items[0].before) && Good(items[0].value) && Spaces(items[0].after) && GoodItems(items[1..])
  }

  predicate GoodMembers(ms: seq<Member>)
    decreases ms, 1
  {
    ms != [] ==>
      && Spaces(ms[0].before) && GoodPieces(ms[0].key) && Spaces(ms[0].mid) && Spaces(ms[0].mid2)
      && Good(ms[0].value) && Spaces(ms[0].after) && GoodMembers(ms[1..])
  }

  // ---- What a derivation spells, with what follows it ----

  function HexChar(h: HexDigit): char {
    if h.upper then "0123456789ABCDEF"[h.n] else "0123456789abcdef"[h.n]
  }

  function SpellPiece(p: Piece, rest: string): string {
    match p
    case Raw(c) => [c] + rest
    case Escaped(e) => ['\\', e] + rest
    case Unit16(a, b, c, d) => ['\\', 'u', HexChar(a), HexChar(b), HexChar(c), HexChar(d)] + rest
  }

  /** The characters of a string and its closing quote. */
  function SpellPieces(ps: seq<Piece>, rest: string): string {
    if ps == [] then "\"" + rest else SpellPiece(ps[0], SpellPieces(ps[1..], rest))
  }

  function SpellExponent(n: Num, rest: string): string {
    if n.exp.Some? then [n.exp.value.mark] + (n.exp.value.sign + (n.exp.value.digits + rest)) else rest
  }

  function SpellFraction(n: Num, rest: string): string {
    if n.frac.Some? then "." + (n.frac.value + SpellExponent(n, rest)) else SpellExponent(n, rest)
  }

  function SpellNum(n: Num, rest: string): string {
    (if n.minus then "-" else "") + (n.whole + SpellFraction(n, rest))
  }

  function Spell(t: Tree, rest: string): string
    decreases t, 0
  {
    match t
    case TStr(ps) => "\"" + SpellPieces(ps, rest)
    case TNum(n) => SpellNum(n, rest)
    case TWord(w) => w + rest
    case TArr(gap, items) => "[" + if items == [] then gap + ("]" + rest) else SpellItems(items, rest)
    case TObj(gap, ms) => "{" + if ms == [] then gap + ("}" + rest) else SpellMembers(ms, rest)
  }

  function SpellItems(items: seq<Item>, rest: string): string
    requires items != []
    decreases items, 1
  {
    var i := items[0];
    i.before + Spell(i.value, i.after + (if |items| == 1 then "]" + rest else "," + SpellItems(items[1..], rest)))
  }

  function SpellMembers(ms: seq<Member>, rest: string): string
    requires ms != []
    decreases ms, 1
  {
    ms[0].before + SpellMember(ms[0], if |ms| == 1 then "}" + rest else "," + SpellMembers(ms[1..], rest))
  }

  function SpellMember(m: Member, rest: string): string
    decreases m, 0
  {
    "\"" + SpellPieces(m.key, m.mid + (":" + (m.mid2 + Spell(m.value, m.after + rest))))
  }

  // ---- What a derivation means ----

  function Code(p: Piece): nat
    requires p.Unit16?
  {
    4096 * p.a.n + 256 * p.b.n + 16 * p.c3.n + p.d.n
  }

  function Letter(e: char): char {
    match e
    case 'b' => '\U{8}'
    case 'f' => '\U{c}'
    case 'n' => '\n'
    case 'r' => '\r'
    case 't' => '\t'
    case _ => e
  }

  predicate PairAt(ps: seq<Piece>) {
    |ps| > 1 && ps[0].Unit16? && High(Code(ps[0])) && ps[1].Unit16? && Low(Code(ps[1]))
  }

  /** Two halves of a surrogate pair are one character; a half alone stands as U+FFFD. */
  function TextOf(ps: seq<Piece>): string {
    if ps == [] then ""
    else if PairAt(ps) then [Paired(Code(ps[0]), Code(ps[1]))] + TextOf(ps[2..])
    else [Alone(ps[0])] + TextOf(ps[1..])
  }

  function Alone(p: Piece): char {
    match p
    case Raw(c) => c
    case Escaped(e) => Letter(e)
    case Unit16(_, _, _, _) => if High(Code(p)) || Low(Code(p)) then REPLACEMENT else Code(p) as char
  }

  function Meaning(t: Tree): Value
    decreases t, 0
  {
    match t
    case TStr(ps) => Str(TextOf(ps))
    case TNum(_) => Number
    case TWord(w) => Literal(w)
    case TArr(_, items) => Arr(ItemMeanings(items))
    case TObj(_, ms) => Obj(Members([], ms))
  }

  function ItemMeanings(items: seq<Item>): seq<Value>
    decreases items, 1
  {
    if items == [] then [] else [Meaning(items[0].value)] + ItemMeanings(items[1..])
  }

  function Members(acc: seq<Entry>, ms: seq<Member>): seq<Entry>
    decreases ms, 1
  {
    if ms == [] then acc else Members(Put(acc, Entry(TextOf(ms[0].key), Meaning(ms[0].value))), ms[1..])
  }

  // ---- Repeated keys ----

  function Lookup(es: seq<Entry>, key: string): Option<Value> {
    if es == [] then None else if es[0].key == key then Some(es[0].value) else Lookup(es[1..], key)
  }

  /** What the last member of this key says. */
  function LastOf(ms: seq<Member>, key: string): Option<Value> {
    if ms == [] then None
    else if TextOf(ms[|ms| - 1].key) == key then Some(Meaning(ms[|ms| - 1].value))
    else LastOf(ms[..|ms| - 1], key)
  }

  lemma {:induction false} PutLooksUp(es: seq<Entry>, e: Entry, key: string)
    ensures Lookup(Put(es, e), key) == if key == e.key then Some(e.value) else Lookup(es, key)
  {
    if es != [] {
      PutLooksUp(es[1..], e, key);
    }
  }

  lemma {:induction false} MembersOneMore(acc: seq<Entry>, ms: seq<Member>, m: Member)
    ensures Members(acc, ms + [m]) == Put(Members(acc, ms), Entry(TextOf(m.key), Meaning(m.value)))
    decreases |ms|
  {
    hide Put, TextOf, Meaning;
    var more := ms + [m];
    if ms == [] {
      assert more == [m] && more[1..] == [];
    } else {
      assert more[1..] == ms[1..] + [m];
      MembersOneMore(Put(acc, Entry(TextOf(ms[0].key), Meaning(ms[0].value))), ms[1..], m);
    }
  }

  /** Of members with the same key the last counts. */
  lemma {:induction false} LastMemberCounts(ms: seq<Member>, key: string)
    ensures Lookup(Members([], ms), key) == LastOf(ms, key)
  {
    if ms != [] {
      var init, m := ms[..|ms| - 1], ms[|ms| - 1];
      assert ms == init + [m];
      LastMemberCounts(init, key);
      MembersOneMore([], init, m);
      PutLooksUp(Members([], init), Entry(TextOf(m.key), Meaning(m.value)), key);
    }
  }

  // ---- White space ----

  lemma {:induction false} SkipsSpaces(gap: string, s: string)
    requires Spaces(gap) && (s != "" ==> s[0] !in " \t\n\r")
    ensures SkipSpace(gap + s) == s
  {
    if gap == "" {
      assert gap + s == s;
    } else {
      assert (gap + s)[1..] == gap[1..] + s;
      SkipsSpaces(gap[1..], s);
    }
  }

  lemma SpaceBefore(c: char, more: string)
    requires c in " \t\n\r" && Spaces(more)
    ensures Spaces([c] + more)
  {
  }

  lemma {:induction false} SpaceSplits(s: string) returns (gap: string)
    ensures Spaces(gap) && s == gap + SkipSpace(s)
  {
    if s != "" && s[0] in " \t\n\r" {
      assert SkipSpace(s) == SkipSpace(s[1..]);
      hide SkipSpace;
      var more := SpaceSplits(s[1..]);
      SpaceBefore(s[0], more);
      hide Spaces;
      gap := [s[0]] + more;
      Sequences.Associates([s[0]], more, SkipSpace(s));
      assert s == [s[0]] + s[1..];
    } else {
      gap := "";
    }
  }

  // ---- Every derivation is read as what it means: strings ----

  lemma UnitReads(p: Piece, rest: string)
    requires p.Unit16?
    ensures var s := SpellPiece(p, rest);
            s[0] == '\\' && s[1] == 'u' && s[2..] == s[1..][1..] && Hex4(s[2..]) == Some(Code(p)) && s[2..][4..] == rest
  {
    var s := SpellPiece(p, rest);
    assert s[2..] == [HexChar(p.a), HexChar(p.b), HexChar(p.c3), HexChar(p.d)] + rest;
    HexCharReads(p.a);
    HexCharReads(p.b);
    HexCharReads(p.c3);
    HexCharReads(p.d);
    hide HexChar, HexValue;
  }

  lemma HexCharReads(h: HexDigit)
    ensures HexValue(HexChar(h)) == Some(h.n)
  {
  }

  /** A spelled text begins with an escaped low half exactly when its first piece is one. */
  lemma LowAhead(ps: seq<Piece>, rest: string)
    requires GoodPieces(ps)
    ensures var s := SpellPieces(ps, rest);
            LowFollows(s) <==> (ps != [] && ps[0].Unit16? && Low(Code(ps[0])))
  {
    var s := SpellPieces(ps, rest);
    StartsAsUnit(s);
    if ps != [] && ps[0].Unit16? {
      UnitReads(ps[0], SpellPieces(ps[1..], rest));
    }
    hide Hex4, HexChar, Code, StartsWith;
    assert ps == [] ==> s[0] == '"';
    assert ps != [] && !ps[0].Unit16? ==> s[0] != '\\' || s[1] != 'u';
  }

  lemma StartsAsUnit(s: string)
    ensures StartsWith(s, "\\u") <==> |s| >= 2 && s[0] == '\\' && s[1] == 'u'
  {
  }

  lemma {:induction false} StringSpelled(ps: seq<Piece>, rest: string)
    requires GoodPieces(ps)
    ensures ReadString(SpellPieces(ps, rest)) == Got(TextOf(ps), rest)
    decreases |ps|
  {
    var s := SpellPieces(ps, rest);
    if ps == [] {
      assert s[1..] == rest;
    } else if PairAt(ps) {
      var tail := SpellPieces(ps[1..], rest);
      assert ps[1..][1..] == ps[2..];
      UnitReads(ps[0], tail);
      UnitReads(ps[1], SpellPieces(ps[2..], rest));
      StringSpelled(ps[2..], rest);
      PairSpelled(ps, rest);
    } else {
      StringSpelled(ps[1..], rest);
      AloneSpelled(ps, rest);
    }
  }

  lemma PairSpelled(ps: seq<Piece>, rest: string)
    requires PairAt(ps)
    ensures var s := SpellPieces(ps, rest);
            s != "" && s[0] == '\\' && ReadEscape(s[1..]) == Got(Paired(Code(ps[0]), Code(ps[1])), SpellPieces(ps[2..], rest))
  {
    assert ps[1..][1..] == ps[2..];
    var tail := SpellPieces(ps[1..], rest);
    UnitReads(ps[0], tail);
    UnitReads(ps[1], SpellPieces(ps[2..], rest));
    hide Hex4, HexChar, Code;
    assert tail[2..][4..] == tail[6..];
  }

  lemma AloneSpelled(ps: seq<Piece>, rest: string)
    requires GoodPieces(ps) && ps != [] && !PairAt(ps)
    ensures ReadString(SpellPieces(ps, rest)) == Preceded(Alone(ps[0]), ReadString(SpellPieces(ps[1..], rest)))
  {
    var tail := SpellPieces(ps[1..], rest);
    match ps[0]
    case Raw(c) => PlainCharReads(c, tail);
    case Escaped(e) => EscapedSpelled(e, tail);
    case Unit16(_, _, _, _) =>
      LowAhead(ps[1..], rest);
      UnitSpelled(ps[0], tail);
  }

  lemma EscapedSpelled(e: char, tail: string)
    requires e in "\"\\/bfnrt"
    ensures ReadString(SpellPiece(Escaped(e), tail)) == Preceded(Letter(e), ReadString(tail))
  {
    var s := SpellPiece(Escaped(e), tail);
    assert s[1..] == [e] + tail && s[1..][1..] == tail && e != 'u';
    ShortEscape(e, s[1..]);
    hide ReadEscape, Letter;
  }

  lemma UnitSpelled(p: Piece, tail: string)
    requires p.Unit16?
    requires High(Code(p)) ==> !(StartsWith(tail, "\\u") && Hex4(tail[2..]).Some? && Low(Hex4(tail[2..]).value))
    ensures ReadString(SpellPiece(p, tail)) == Preceded(Alone(p), ReadString(tail))
  {
    var s := SpellPiece(p, tail);
    UnitReads(p, tail);
    hide Hex4, HexChar, Code, SpellPiece, StartsWith;
    assert ReadEscape(s[1..]) == Got(Alone(p), tail);
  }

  // ---- Numbers ----

  /** What may stand behind a value. */
  predicate Delimited(rest: string) {
    rest != "" ==> rest[0] in " \t\n\r,]}"
  }

  lemma {:induction false} DigitsSpelled(digits: string, rest: string)
    requires forall i :: 0 <= i < |digits| ==> '0' <= digits[i] <= '9'
    requires rest != "" ==> !('0' <= rest[0] <= '9')
    ensures DigitCount(digits + rest) == |digits| && (digits + rest)[|digits|..] == rest
  {
    if digits == "" {
      assert digits + rest == rest;
    } else {
      assert (digits + rest)[1..] == digits[1..] + rest;
      DigitsSpelled(digits[1..], rest);
    }
  }

  lemma SignSpelled(u: string, sign: string, digits: string, rest: string)
    requires sign in ["", "+", "-"] && AllDigits(digits) && u != "" && u[1..] == sign + (digits + rest)
    ensures |u| > 1 && (if u[1] in "+-" then u[2..] else u[1..]) == digits + rest
  {
    assert u[1] == (sign + (digits + rest))[0];
    assert u[2..] == u[1..][1..];
    if sign == "" {
      assert u[1] == digits[0] && u[1..] == digits + rest;
    } else {
      assert u[1] == sign[0];
    }
  }

  lemma ExponentSpelled(n: Num, rest: string)
    requires GoodNum(n) && Delimited(rest)
    ensures var u := SpellExponent(n, rest);
            && (n.exp.None? ==> u == rest && (u != "" ==> u[0] !in "eE"))
            && (n.exp.Some? ==>
                  && u != "" && u[0] in "eE"
                  && var x := if |u| > 1 && u[1] in "+-" then u[2..] else u[1..];
                     DigitCount(x) > 0 && x[DigitCount(x)..] == rest)
  {
    if n.exp.Some? {
      var e := n.exp.value;
      DigitsSpelled(e.digits, rest);
      hide DigitCount;
      SignSpelled(SpellExponent(n, rest), e.sign, e.digits, rest);
    }
  }

  lemma FractionSpelled(n: Num, rest: string)
    requires GoodNum(n) && Delimited(rest)
    ensures var t := SpellFraction(n, rest);
            && (t != "" ==> !('0' <= t[0] <= '9'))
            && (n.frac.Some? <==> t != "" && t[0] == '.')
            && (n.frac.None? ==> t == SpellExponent(n, rest))
            && (n.frac.Some? ==> DigitCount(t[1..]) > 0 && t[1 + DigitCount(t[1..])..] == SpellExponent(n, rest))
  {
    ExponentSpelled(n, rest);
    hide DigitCount;
    var u := SpellExponent(n, rest);
    assert n.exp.Some? ==> u[0] == n.exp.value.mark;
    if n.frac.Some? {
      var d := n.frac.value;
      DigitsSpelled(d, u);
      var t := SpellFraction(n, rest);
      assert t[1..] == d + u && t[1 + |d|..] == (d + u)[|d|..];
    }
  }

  lemma NumStarts(n: Num, rest: string)
    requires GoodNum(n)
    ensures var s := SpellNum(n, rest);
            && s != "" && n.whole != "" && s[0] == (if n.minus then '-' else n.whole[0]) && '0' <= n.whole[0] <= '9'
            && (if n.minus then s[1..] else s) == n.whole + SpellFraction(n, rest)
  {
    hide SpellFraction;
    var s := SpellNum(n, rest);
    assert !n.minus ==> s == n.whole + SpellFraction(n, rest);
  }

  lemma NumParts(n: Num, rest: string)
    requires GoodNum(n) && Delimited(rest)
    ensures var t := SpellFraction(n, rest);
            DigitCount(n.whole + t) == |n.whole| && (n.whole + t)[|n.whole|..] == t && ReadFraction(t) == Got(Number, rest)
  {
    hide DigitCount, SpellFraction, SpellExponent, ReadFraction, Delimited;
    var t := SpellFraction(n, rest);
    FractionSpelled(n, rest);
    ExponentSpelled(n, rest);
    DigitsSpelled(n.whole, t);
    FractionReads(t, if n.frac.Some? then Some(DigitCount(t[1..])) else None, SpellExponent(n, rest), rest);
  }

  lemma NumSpelled(n: Num, rest: string)
    requires GoodNum(n) && Delimited(rest)
    ensures ReadNumber(SpellNum(n, rest)) == Got(Number, rest)
  {
    hide DigitCount, SpellFraction, SpellNum, ReadFraction, ReadNumber, Delimited, AllDigits;
    NumParts(n, rest);
    NumStarts(n, rest);
    WholeReads(SpellNum(n, rest), n.minus, n.whole, SpellFraction(n, rest));
  }

  lemma WholeReads(s: string, minus: bool, whole: string, t: string)
    requires whole != "" && whole[0] != '-' && (|whole| > 1 ==> whole[0] != '0')
    requires s != "" && s[0] == (if minus then '-' else whole[0]) && (if minus then s[1..] else s) == whole + t
    requires DigitCount(whole + t) == |whole| && (whole + t)[|whole|..] == t
    ensures ReadNumber(s) == ReadFraction(t)
  {
    hide DigitCount, ReadFraction;
    var w := whole + t;
    assert w[0] == whole[0];
    NumberSplits(s, w);
  }

  lemma NumberSplits(s: string, w: string)
    requires s != "" && w == (if s[0] == '-' then s[1..] else s)
    ensures ReadNumber(s) ==
            if DigitCount(w) == 0 || (DigitCount(w) > 1 && w[0] == '0') then Bad else ReadFraction(w[DigitCount(w)..])
  {
    hide DigitCount;
  }

  /** What `ReadNumber` makes of the text behind the whole digits. */
  function ReadFraction(t: string): Read<Value> {
    var f := if t != "" && t[0] == '.' then DigitCount(t[1..]) else 0;
    if t != "" && t[0] == '.' && f == 0 then Bad
    else
      var u := if f > 0 then t[1 + f..] else t;
      if u == "" || u[0] !in "eE" then Got(Number, u)
      else
        var x := if |u| > 1 && u[1] in "+-" then u[2..] else u[1..];
        var k := DigitCount(x);
        if k == 0 then Bad else Got(Number, x[k..])
  }

  lemma FractionReads(t: string, f: Option<nat>, u: string, rest: string)
    requires f.Some? <==> t != "" && t[0] == '.'
    requires f.None? ==> t == u
    requires f.Some? ==> f.value == DigitCount(t[1..]) && f.value > 0 && t[1 + f.value..] == u
    requires (u == rest && (u != "" ==> u[0] !in "eE"))
          || (u != "" && u[0] in "eE"
              && var x := if |u| > 1 && u[1] in "+-" then u[2..] else u[1..];
                 DigitCount(x) > 0 && x[DigitCount(x)..] == rest)
    ensures ReadFraction(t) == Got(Number, rest)
  {
    hide DigitCount;
  }

  // ---- Values ----

  lemma SpellStarts(t: Tree, rest: string)
    requires Good(t)
    ensures Spell(t, rest) != "" && Spell(t, rest)[0] !in " \t\n\r]}"
  {
    hide SpellItems, SpellMembers, SpellPieces, SpellNum, SpellFraction, GoodItems, GoodMembers, GoodPieces;
    match t
    case TNum(n) => NumStarts(n, rest);
    case TWord(w) => assert Spell(t, rest)[0] == w[0];
    case _ =>
  }

  /** Every derivation is read as what it means. */
  lemma {:induction false} ReadsSpelled(t: Tree, rest: string)
    requires Good(t) && Delimited(rest)
    ensures ReadValue(Spell(t, rest)) == Got(Meaning(t), rest)
    decreases t, 0
  {
    hide ReadString, ReadElements, ReadMembers, ReadNumber, SkipSpace, SpellItems, SpellMembers, SpellPieces, SpellNum;
    var s := Spell(t, rest);
    match t
    case TStr(ps) =>
      StringSpelled(ps, rest);
      StrReads(s, ps, rest);
    case TNum(n) =>
      NumSpelled(n, rest);
      NumStarts(n, rest);
      NumberReads(s);
    case TWord(w) => LiteralReads(w, rest);
    case TArr(gap, items) =>
      if items == [] {
        EmptySpelled("[", gap, "]", rest);
        EmptyReads(s, "[", "]", rest);
      } else {
        ItemsSpelled(items, [], rest);
        ItemsStart(items, rest);
        assert [] + ItemMeanings(items) == ItemMeanings(items);
        ArrayOpens(s, SpellItems(items, rest), ItemMeanings(items), rest);
      }
    case TObj(gap, ms) =>
      if ms == [] {
        EmptySpelled("{", gap, "}", rest);
        EmptyReads(s, "{", "}", rest);
      } else {
        MembersSpelled(ms, [], rest);
        MembersStart(ms, rest);
        ObjectOpens(s, SpellMembers(ms, rest), Members([], ms), rest);
      }
  }

  lemma EmptyReads(s: string, open: string, close: string, rest: string)
    requires (open == "[" && close == "]") || (open == "{" && close == "}")
    requires s != "" && SkipSpace(s[1..]) == close + rest && (close + rest)[1..] == rest && s[0] == open[0]
    ensures ReadValue(s) == Got(if open == "[" then Arr([]) else Obj([]), rest)
  {
    hide ReadElements, ReadMembers, SkipSpace;
    assert (close + rest)[0] == close[0];
  }

  lemma StrReads(s: string, ps: seq<Piece>, rest: string)
    requires s == "\"" + SpellPieces(ps, rest) && ReadString(SpellPieces(ps, rest)) == Got(TextOf(ps), rest)
    ensures ReadValue(s) == Got(Str(TextOf(ps)), rest)
  {
    hide ReadString, TextOf, SpellPieces;
    assert s[1..] == SpellPieces(ps, rest);
  }

  lemma NoWord(s: string, word: string)
    requires s != "" && word != "" && s[0] != word[0]
    ensures !StartsWith(s, word)
  {
    assert |word| <= |s| ==> s[..|word|][0] == s[0];
  }

  lemma NumberReads(s: string)
    requires s != "" && (s[0] == '-' || '0' <= s[0] <= '9')
    ensures ReadValue(s) == ReadNumber(s)
  {
    NoWord(s, "true");
    NoWord(s, "false");
    NoWord(s, "null");
    NumberIsLast(s, s[0]);
  }

  lemma NumberIsLast(s: string, c: char)
    requires s != "" && s[0] == c && c !in {'"', '{', '['}
    requires !StartsWith(s, "true") && !StartsWith(s, "false") && !StartsWith(s, "null")
    ensures ReadValue(s) == ReadNumber(s)
  {
    hide ReadNumber, ReadString, ReadElements, ReadMembers, SkipSpace, StartsWith;
  }

  lemma ArrayOpens(s: string, t: string, items: seq<Value>, rest: string)
    requires s == "[" + t && SkipSpace(t) != "" && SkipSpace(t)[0] != ']'
    requires ReadElements(SkipSpace(t), []) == Got(items, rest)
    ensures ReadValue(s) == Got(Arr(items), rest)
  {
    hide ReadElements, SkipSpace;
    assert s[1..] == t;
  }

  lemma ObjectOpens(s: string, t: string, entries: seq<Entry>, rest: string)
    requires s == "{" + t && SkipSpace(t) != "" && SkipSpace(t)[0] != '}'
    requires ReadMembers(SkipSpace(t), []) == Got(entries, rest)
    ensures ReadValue(s) == Got(Obj(entries), rest)
  {
    hide ReadMembers, SkipSpace;
    assert s[1..] == t;
  }

  lemma EmptySpelled(open: string, gap: string, close: string, rest: string)
    requires Spaces(gap) && |open| == 1 && |close| == 1 && close[0] !in " \t\n\r"
    ensures var s := open + (gap + (close + rest));
            s[0] == open[0] && SkipSpace(s[1..]) == close + rest && (close + rest)[1..] == rest
  {
    SkipsSpaces(gap, close + rest);
    assert (open + (gap + (close + rest)))[1..] == gap + (close + rest);
  }

  lemma ItemsStart(items: seq<Item>, rest: string)
    requires items != [] && GoodItems(items)
    ensures var s := SkipSpace(SpellItems(items, rest)); s != "" && s[0] !in " \t\n\r]}"
  {
    var tail := items[0].after + (if |items| == 1 then "]" + rest else "," + SpellItems(items[1..], rest));
    SpellStarts(items[0].value, tail);
    SkipsSpaces(items[0].before, Spell(items[0].value, tail));
  }

  lemma MembersStart(ms: seq<Member>, rest: string)
    requires ms != [] && GoodMembers(ms)
    ensures var s := SkipSpace(SpellMembers(ms, rest)); s != "" && s[0] == '"'
  {
    SkipsSpaces(ms[0].before, SpellMember(ms[0], if |ms| == 1 then "}" + rest else "," + SpellMembers(ms[1..], rest)));
  }

  lemma {:induction false} ItemsSpelled(items: seq<Item>, acc: seq<Value>, rest: string)
    requires items != [] && GoodItems(items)
    ensures ReadElements(SkipSpace(SpellItems(items, rest)), acc) == Got(acc + ItemMeanings(items), rest)
    decreases items, 1
  {
    hide ReadElements, ReadValue, Spell, SkipSpace, Good, Spaces, Delimited, Meaning;
    var i, v := items[0], Meaning(items[0].value);
    var next := if |items| == 1 then "]" + rest else "," + SpellItems(items[1..], rest);
    var tail := i.after + next;
    SpellStarts(i.value, tail);
    SkipsSpaces(i.before, Spell(i.value, tail));
    EndsDelimited(i.after, next);
    ReadsSpelled(i.value, tail);
    ElementReads(Spell(i.value, tail), v, tail, next, acc);
    hide SpellItems;
    Sequences.Associates(acc, [v], ItemMeanings(items[1..]));
    if |items| == 1 {
      assert next[1..] == rest && items[1..] == [];
      assert acc + [v] == acc + ItemMeanings(items);
    } else {
      assert next[1..] == SpellItems(items[1..], rest);
      ItemsSpelled(items[1..], acc + [v], rest);
    }
  }

  lemma EndsDelimited(after: string, next: string)
    requires Spaces(after) && next != "" && next[0] in ",]}"
    ensures Delimited(after + next) && SkipSpace(after + next) == next
  {
    SkipsSpaces(after, next);
    assert after != "" ==> (after + next)[0] == after[0];
  }

  lemma ElementReads(s: string, v: Value, tail: string, next: string, acc: seq<Value>)
    requires ReadValue(s) == Got(v, tail) && SkipSpace(tail) == next && next != "" && next[0] in "],"
    ensures ReadElements(s, acc) ==
            if next[0] == ']' then Got(acc + [v], next[1..]) else ReadElements(SkipSpace(next[1..]), acc + [v])
  {
    hide ReadValue, SkipSpace;
  }

  lemma {:induction false} MembersSpelled(ms: seq<Member>, acc: seq<Entry>, rest: string)
    requires ms != [] && GoodMembers(ms)
    ensures ReadMembers(SkipSpace(SpellMembers(ms, rest)), acc) == Got(Members(acc, ms), rest)
    decreases ms, 1
  {
    hide ReadMembers, ReadMember, ReadValue, SkipSpace, Spell, SpellPieces, Good, GoodPieces, Spaces, Delimited, Put;
    hide TextOf, Meaning;
    var m := ms[0];
    var next := if |ms| == 1 then "}" + rest else "," + SpellMembers(ms[1..], rest);
    MemberStarts(m, next);
    SkipsSpaces(m.before, SpellMember(m, next));
    EndsDelimited(m.after, next);
    ReadsSpelled(m.value, m.after + next);
    MemberSpelled(m, next);
    var e := Entry(TextOf(m.key), Meaning(m.value));
    MemberReads(SpellMember(m, next), e, m.after + next, next, acc);
    hide SpellMembers, SpellMember;
    if |ms| == 1 {
      assert next[1..] == rest && ms[1..] == [];
    } else {
      assert next[1..] == SpellMembers(ms[1..], rest);
      MembersSpelled(ms[1..], Put(acc, e), rest);
    }
  }

  lemma MemberStarts(m: Member, next: string)
    ensures SpellMember(m, next) != "" && SpellMember(m, next)[0] == '"'
  {
    hide SpellPieces, Spell;
  }

  lemma MemberReads(s: string, e: Entry, tail: string, next: string, acc: seq<Entry>)
    requires ReadMember(s) == Got(e, tail) && SkipSpace(tail) == next && next != "" && next[0] in "},"
    ensures ReadMembers(s, acc) ==
            if next[0] == '}' then Got(Put(acc, e), next[1..]) else ReadMembers(SkipSpace(next[1..]), Put(acc, e))
  {
    hide ReadMember, SkipSpace, Put;
  }

  lemma MemberSpelled(m: Member, next: string)
    requires GoodPieces(m.key) && Spaces(m.mid) && Spaces(m.mid2) && Good(m.value)
    requires ReadValue(Spell(m.value, m.after + next)) == Got(Meaning(m.value), m.after + next)
    ensures ReadMember(SpellMember(m, next)) == Got(Entry(TextOf(m.key), Meaning(m.value)), m.after + next)
  {
    var v := Spell(m.value, m.after + next);
    SpellStarts(m.value, m.after + next);
    hide Spell, ReadValue;
    var colon := ":" + (m.mid2 + v);
    StringSpelled(m.key, m.mid + colon);
    SkipsSpaces(m.mid, colon);
    SkipsSpaces(m.mid2, v);
    assert colon[1..] == m.mid2 + v;
    assert SpellMember(m, next)[1..] == SpellPieces(m.key, m.mid + colon);
  }

  // ---- Everything that is read has a derivation: strings and numbers ----

  lemma HexDerives(c: char) returns (h: HexDigit)
    requires HexValue(c).Some?
    ensures HexChar(h) == c && h.n == HexValue(c).value
  {
    h := HexDigit(HexValue(c).value, 'A' <= c <= 'F');
  }

  lemma UnitDerives(s: string) returns (p: Piece)
    requires |s| >= 2 && s[0] == '\\' && s[1] == 'u' && Hex4(s[2..]).Some?
    ensures p.Unit16? && Code(p) == Hex4(s[2..]).value && SpellPiece(p, s[6..]) == s
  {
    var x := s[2..];
    var a := HexDerives(x[0]);
    var b := HexDerives(x[1]);
    var c := HexDerives(x[2]);
    var d := HexDerives(x[3]);
    hide HexValue, HexChar;
    p := Unit16(a, b, c, d);
  }

  lemma {:induction false} StringDerives(s: string) returns (ps: seq<Piece>)
    requires ReadString(s).Got?
    ensures GoodPieces(ps) && SpellPieces(ps, ReadString(s).rest) == s && TextOf(ps) == ReadString(s).value
    decreases |s|
  {
    if s[0] == '"' {
      ps := [];
      assert s == "\"" + s[1..];
    } else if s[0] != '\\' {
      var more := StringDerives(s[1..]);
      ps := PieceBefore(Raw(s[0]), more, ReadString(s).rest);
      assert s == [s[0]] + s[1..];
    } else if s[1] != 'u' {
      var more := StringDerives(s[2..]);
      assert s[1..][1..] == s[2..];
      EscapeIs(s);
      ps := PieceBefore(Escaped(s[1]), more, ReadString(s).rest);
      assert s == ['\\', s[1]] + s[2..];
    } else {
      ps := UnitsDerive(s);
    }
  }

  lemma EscapeIs(s: string)
    requires |s| > 1 && s[0] == '\\' && s[1] != 'u' && ReadString(s).Got?
    ensures s[1] in "\"\\/bfnrt" && ReadString(s) == Preceded(Letter(s[1]), ReadString(s[2..]))
  {
    hide ReadUnit;
    ShortEscape(s[1], s[1..]);
    assert s[1..][1..] == s[2..];
  }

  lemma ShortEscape(e: char, s: string)
    requires s != "" && s[0] == e && e != 'u'
    ensures ReadEscape(s) == if e in "\"\\/bfnrt" then Got(Letter(e), s[1..]) else Bad
  {
    hide ReadUnit;
  }

  lemma PieceBefore(p: Piece, more: seq<Piece>, rest: string) returns (ps: seq<Piece>)
    requires GoodPiece(p) && GoodPieces(more) && !PairAt([p] + more)
    ensures GoodPieces(ps) && ps == [p] + more
    ensures SpellPieces(ps, rest) == SpellPiece(p, SpellPieces(more, rest)) && TextOf(ps) == [Alone(p)] + TextOf(more)
  {
    ps := [p] + more;
    assert ps[1..] == more;
  }

  lemma PairBefore(p: Piece, q: Piece, more: seq<Piece>, rest: string) returns (ps: seq<Piece>)
    requires GoodPieces(more) && p.Unit16? && q.Unit16? && High(Code(p)) && Low(Code(q))
    ensures GoodPieces(ps) && TextOf(ps) == [Paired(Code(p), Code(q))] + TextOf(more)
    ensures SpellPieces(ps, rest) == SpellPiece(p, SpellPiece(q, SpellPieces(more, rest)))
  {
    hide Code, SpellPiece;
    ps := [p, q] + more;
    assert ps[1..] == [q] + more && ps[2..] == more && ps[1..][1..] == more;
  }

  predicate LowFollows(tail: string) {
    StartsWith(tail, "\\u") && Hex4(tail[2..]).Some? && Low(Hex4(tail[2..]).value)
  }

  lemma UnitIs(s: string, p: Piece, tail: string)
    requires |s| >= 6 && s[0] == '\\' && s[1] == 'u' && tail == s[6..]
    requires p.Unit16? && Hex4(s[2..]) == Some(Code(p))
    ensures ReadString(s) ==
            if High(Code(p)) && LowFollows(tail)
            then Preceded(Paired(Code(p), Hex4(tail[2..]).value), ReadString(tail[6..]))
            else Preceded(Alone(p), ReadString(tail))
  {
    hide Hex4, Code;
    assert s[1..][1..] == s[2..] && s[2..][4..] == tail;
    assert ReadEscape(s[1..]) == ReadUnit(s[2..]);
  }

  lemma {:induction false} UnitsDerive(s: string) returns (ps: seq<Piece>)
    requires ReadString(s).Got? && |s| > 1 && s[0] == '\\' && s[1] == 'u'
    ensures GoodPieces(ps) && SpellPieces(ps, ReadString(s).rest) == s && TextOf(ps) == ReadString(s).value
    decreases |s|, 0
  {
    assert s[1..][1..] == s[2..];
    assert ReadEscape(s[1..]) == ReadUnit(s[2..]);
    var p := UnitDerives(s);
    var tail := s[6..];
    UnitIs(s, p, tail);
    hide Hex4, HexChar, Code, SpellPiece, SpellPieces, TextOf, ReadString, ReadUnit, ReadEscape;
    if High(Code(p)) && LowFollows(tail) {
      assert tail[0] == "\\u"[0] && tail[1] == "\\u"[1];
      var q := UnitDerives(tail);
      var more := StringDerives(tail[6..]);
      ps := PairBefore(p, q, more, ReadString(s).rest);
    } else {
      var more := StringDerives(tail);
      LowAhead(more, ReadString(tail).rest);
      ps := PieceBefore(p, more, ReadString(s).rest);
    }
  }

  lemma {:induction false} CountsDigits(s: string)
    ensures forall i :: 0 <= i < DigitCount(s) ==> '0' <= s[i] <= '9'
  {
    if s != "" && '0' <= s[0] <= '9' {
      CountsDigits(s[1..]);
      forall i | 0 < i < DigitCount(s) ensures '0' <= s[i] <= '9' {
        assert s[1..][i - 1] == s[i];
      }
    }
  }

  lemma TakesDigits(s: string)
    ensures DigitCount(s) > 0 ==> AllDigits(s[..DigitCount(s)])
    ensures s == s[..DigitCount(s)] + s[DigitCount(s)..]
  {
    CountsDigits(s);
    hide DigitCount;
    forall i | 0 <= i < DigitCount(s) ensures '0' <= s[..DigitCount(s)][i] <= '9' {
      assert s[..DigitCount(s)][i] == s[i];
    }
  }

  /** The fraction and the exponent, as far as there are any. */
  lemma FractionDerives(t: string) returns (n: Num)
    requires ReadFraction(t).Got?
    ensures n.frac.Some? ==> AllDigits(n.frac.value)
    ensures n.exp.Some? ==> n.exp.value.mark in "eE" && n.exp.value.sign in ["", "+", "-"] && AllDigits(n.exp.value.digits)
    ensures SpellFraction(n, ReadFraction(t).rest) == t && ReadFraction(t).value == Number
  {
    var f := if t != "" && t[0] == '.' then DigitCount(t[1..]) else 0;
    var u := if f > 0 then t[1 + f..] else t;
    assert ReadFraction(t) == ReadExponent(u);
    hide ReadFraction, ReadExponent, SpellExponent;
    n := ExponentDerives(u);
    NumberValue(u);
    if f > 0 {
      TakesDigits(t[1..]);
      hide DigitCount;
      var m := n.(frac := Some(t[1..][..f]));
      SameExponent(m, n, ReadExponent(u).rest);
      n := m;
      FractionSpells(t, f, u);
    }
  }

  lemma NumberValue(u: string)
    requires ReadExponent(u).Got?
    ensures ReadExponent(u).value == Number
  {
    hide DigitCount;
  }

  lemma FractionSpells(t: string, f: nat, u: string)
    requires t != "" && t[0] == '.' && 0 < f <= |t[1..]| && u == t[1 + f..]
    ensures t == "." + (t[1..][..f] + u)
  {
    assert t[1..][f..] == u;
  }

  lemma SameExponent(n: Num, m: Num, rest: string)
    requires n.exp == m.exp
    ensures SpellExponent(n, rest) == SpellExponent(m, rest)
  {
  }

  function ReadExponent(u: string): Read<Value> {
    if u == "" || u[0] !in "eE" then Got(Number, u)
    else
      var x := if |u| > 1 && u[1] in "+-" then u[2..] else u[1..];
      var k := DigitCount(x);
      if k == 0 then Bad else Got(Number, x[k..])
  }

  lemma ExponentDerives(u: string) returns (n: Num)
    requires ReadExponent(u).Got?
    ensures n.frac.None? && (n.exp.Some? ==>
              n.exp.value.mark in "eE" && n.exp.value.sign in ["", "+", "-"] && AllDigits(n.exp.value.digits))
    ensures SpellExponent(n, ReadExponent(u).rest) == u
  {
    if u == "" || u[0] !in "eE" {
      n := Num(false, "", None, None);
    } else {
      var sign, x := SignSplits(u);
      TakesDigits(x);
      hide DigitCount;
      n := Num(false, "", None, Some(Exponent(u[0], sign, x[..DigitCount(x)])));
    }
  }

  lemma SignSplits(u: string) returns (sign: string, x: string)
    requires u != ""
    ensures sign in ["", "+", "-"] && x == (if |u| > 1 && u[1] in "+-" then u[2..] else u[1..])
    ensures u == [u[0]] + (sign + x)
  {
    if |u| > 1 && u[1] in "+-" {
      sign, x := [u[1]], u[2..];
    } else {
      sign, x := "", u[1..];
    }
  }

  lemma NumDerives(s: string) returns (n: Num)
    requires s != "" && ReadNumber(s).Got?
    ensures GoodNum(n) && SpellNum(n, ReadNumber(s).rest) == s && ReadNumber(s).value == Number
  {
    hide ReadNumber, DigitCount, ReadFraction, SpellFraction, SpellNum;
    var w := if s[0] == '-' then s[1..] else s;
    NumberSplits(s, w);
    TakesDigits(w);
    var k := DigitCount(w);
    var m := FractionDerives(w[k..]);
    n := m.(minus := s[0] == '-', whole := w[..k]);
    SameFraction(n, m, ReadNumber(s).rest);
    NumSpells(s, n, k, ReadNumber(s).rest);
  }

  lemma NumSpells(s: string, n: Num, k: nat, rest: string)
    requires s != "" && n.minus == (s[0] == '-')
    requires var w := if n.minus then s[1..] else s;
             k <= |w| && n.whole == w[..k] && SpellFraction(n, rest) == w[k..]
    ensures SpellNum(n, rest) == s
  {
    hide SpellFraction;
    var w := if n.minus then s[1..] else s;
    assert w[..k] + w[k..] == w;
    assert n.minus ==> "-" + s[1..] == s;
    assert "" + w == w;
  }

  lemma SameFraction(n: Num, m: Num, rest: string)
    requires n.exp == m.exp && n.frac == m.frac
    ensures SpellFraction(n, rest) == SpellFraction(m, rest)
  {
  }

  // ---- Values ----

  lemma WordDerives(s: string, word: string)
    requires StartsWith(s, word)
    ensures s == word + s[|word|..]
  {
  }

  /** What is read as a value is spelled by a derivation that means it. */
  lemma {:induction false} ValueDerives(s: string) returns (t: Tree)
    requires ReadValue(s).Got?
    ensures Good(t) && Spell(t, ReadValue(s).rest) == s && Meaning(t) == ReadValue(s).value
    decreases |s|, 1
  {
    if s[0] == '"' {
      var ps := StringDerives(s[1..]);
      t := TStr(ps);
      assert s == "\"" + s[1..];
    } else if s[0] == '{' {
      t := ObjectDerives(s);
    } else if s[0] == '[' {
      t := ArrayDerives(s);
    } else if StartsWith(s, "true") {
      WordDerives(s, "true");
      t := TWord("true");
    } else if StartsWith(s, "false") {
      WordDerives(s, "false");
      t := TWord("false");
    } else if StartsWith(s, "null") {
      WordDerives(s, "null");
      t := TWord("null");
    } else {
      var n := NumDerives(s);
      t := TNum(n);
    }
  }

  lemma ArraySplits(s: string)
    requires ReadValue(s).Got? && s[0] == '['
    ensures var u := SkipSpace(s[1..]);
            if u != "" && u[0] == ']' then ReadValue(s) == Got(Arr([]), u[1..])
            else ReadElements(u, []).Got? && ReadValue(s) == Got(Arr(ReadElements(u, []).value), ReadElements(u, []).rest)
  {
    hide ReadElements, SkipSpace;
  }

  lemma {:induction false} ArrayDerives(s: string) returns (t: Tree)
    requires ReadValue(s).Got? && s[0] == '['
    ensures Good(t) && Spell(t, ReadValue(s).rest) == s && Meaning(t) == ReadValue(s).value
    decreases |s|, 0
  {
    ArraySplits(s);
    hide ReadValue, ReadElements, SkipSpace, Spaces, Good, GoodItems, ItemMeanings, Meaning, Spell, SpellItems;
    var gap := SpaceSplits(s[1..]);
    var u := SkipSpace(s[1..]);
    assert s == "[" + s[1..];
    if u != "" && u[0] == ']' {
      t := TArr(gap, []);
      assert u == "]" + u[1..];
      EmptyTree(gap, u[1..]);
    } else {
      var items := ElementsDerive(u, []);
      t := TArr("", items[0 := items[0].(before := gap)]);
      ItemsPadded(items, gap, ReadElements(u, []).rest);
      assert [] + ItemMeanings(items) == ItemMeanings(items);
    }
  }

  lemma EmptyTree(gap: string, rest: string)
    requires Spaces(gap)
    ensures Good(TArr(gap, [])) && Meaning(TArr(gap, [])) == Arr([])
    ensures Spell(TArr(gap, []), rest) == "[" + (gap + ("]" + rest))
    ensures Good(TObj(gap, [])) && Meaning(TObj(gap, [])) == Obj([])
    ensures Spell(TObj(gap, []), rest) == "{" + (gap + ("}" + rest))
  {
  }

  /** White space before the first item, where there was none. */
  lemma ItemsPadded(items: seq<Item>, gap: string, rest: string)
    requires items != [] && items[0].before == "" && GoodItems(items) && Spaces(gap)
    ensures var padded := items[0 := items[0].(before := gap)];
            && Good(TArr("", padded)) && Meaning(TArr("", padded)) == Arr(ItemMeanings(items))
            && Spell(TArr("", padded), rest) == "[" + (gap + SpellItems(items, rest))
  {
    var padded := items[0 := items[0].(before := gap)];
    assert padded[1..] == items[1..];
    GoodPadded(items, gap);
    SpellsPadded(items, gap, rest);
    hide Spell, Meaning, Good, GoodItems, ItemMeanings, SpellItems;
    TreeOfItems(padded, rest);
  }

  lemma GoodPadded(items: seq<Item>, gap: string)
    requires items != [] && GoodItems(items) && Spaces(gap)
    ensures var padded := items[0 := items[0].(before := gap)];
            GoodItems(padded) && ItemMeanings(padded) == ItemMeanings(items)
  {
    hide Good, Meaning, Spaces;
    assert items[0 := items[0].(before := gap)][1..] == items[1..];
  }

  lemma SpellsPadded(items: seq<Item>, gap: string, rest: string)
    requires items != [] && items[0].before == ""
    ensures SpellItems(items[0 := items[0].(before := gap)], rest) == gap + SpellItems(items, rest)
  {
    hide Spell;
    var i := items[0];
    var inner := Spell(i.value, i.after + (if |items| == 1 then "]" + rest else "," + SpellItems(items[1..], rest)));
    assert items[0 := i.(before := gap)][1..] == items[1..];
    assert SpellItems(items, rest) == "" + inner == inner;
  }

  lemma TreeOfItems(items: seq<Item>, rest: string)
    requires items != [] && GoodItems(items)
    ensures Good(TArr("", items)) && Meaning(TArr("", items)) == Arr(ItemMeanings(items))
    ensures Spell(TArr("", items), rest) == "[" + SpellItems(items, rest)
  {
  }

  lemma ElementsSplit(s: string, acc: seq<Value>)
    requires ReadElements(s, acc).Got?
    ensures ReadValue(s).Got?
    ensures var next := SkipSpace(ReadValue(s).rest);
            && next != "" && next[0] in "],"
            && ReadElements(s, acc) ==
               if next[0] == ']' then Got(acc + [ReadValue(s).value], next[1..])
               else ReadElements(SkipSpace(next[1..]), acc + [ReadValue(s).value])
  {
    hide ReadValue, SkipSpace;
  }

  lemma {:induction false} ElementsDerive(s: string, acc: seq<Value>) returns (items: seq<Item>)
    requires ReadElements(s, acc).Got?
    ensures items != [] && items[0].before == "" && GoodItems(items)
    ensures SpellItems(items, ReadElements(s, acc).rest) == s
    ensures ReadElements(s, acc).value == acc + ItemMeanings(items)
    decreases |s|, 2
  {
    ElementsSplit(s, acc);
    hide ReadElements, ReadValue, SpellItems, Spell, Meaning, Good, GoodItems, ItemMeanings, SkipSpace, Spaces;
    var v := ValueDerives(s);
    var rest, tail := ReadElements(s, acc).rest, ReadValue(s).rest;
    var gap := SpaceSplits(tail);
    var next := SkipSpace(tail);
    var first := Item("", v, gap);
    if next[0] == ']' {
      items := LastItem(first, acc, next, rest);
    } else {
      var before := SpaceSplits(next[1..]);
      var later := ElementsDerive(SkipSpace(next[1..]), acc + [Meaning(v)]);
      items := ItemBefore(first, later, before, rest, next);
      Sequences.Associates(acc, [Meaning(v)], ItemMeanings(later));
    }
  }

  lemma LastItem(i: Item, acc: seq<Value>, next: string, rest: string) returns (items: seq<Item>)
    requires i.before == "" && Good(i.value) && Spaces(i.after) && next != "" && next[0] == ']' && next[1..] == rest
    ensures items != [] && items[0].before == "" && GoodItems(items)
    ensures SpellItems(items, rest) == Spell(i.value, i.after + next)
    ensures acc + ItemMeanings(items) == acc + [Meaning(i.value)]
  {
    items := [i];
    OneItem(i, rest);
    assert next == "]" + rest;
  }

  lemma OneItem(i: Item, rest: string)
    requires i.before == "" && Good(i.value) && Spaces(i.after)
    ensures GoodItems([i]) && ItemMeanings([i]) == [Meaning(i.value)]
    ensures SpellItems([i], rest) == Spell(i.value, i.after + ("]" + rest))
  {
    hide Good, Meaning, Spell;
    assert [i][1..] == [];
  }

  lemma ItemBefore(i: Item, later: seq<Item>, gap: string, rest: string, next: string) returns (items: seq<Item>)
    requires later != [] && next != "" && next[0] == ',' && next[1..] == gap + SpellItems(later, rest)
    requires i.before == "" && Good(i.value) && Spaces(i.after) && Spaces(gap)
    requires later[0].before == "" && GoodItems(later)
    ensures items != [] && items[0] == i && GoodItems(items)
    ensures ItemMeanings(items) == [Meaning(i.value)] + ItemMeanings(later)
    ensures SpellItems(items, rest) == Spell(i.value, i.after + next)
  {
    var padded := later[0 := later[0].(before := gap)];
    GoodPadded(later, gap);
    SpellsPadded(later, gap, rest);
    hide Good, Meaning, Spell;
    items := [i] + padded;
    assert items[1..] == padded;
    assert next == "," + (gap + SpellItems(later, rest));
  }

  lemma ObjectSplits(s: string)
    requires ReadValue(s).Got? && s[0] == '{'
    ensures var u := SkipSpace(s[1..]);
            if u != "" && u[0] == '}' then ReadValue(s) == Got(Obj([]), u[1..])
            else ReadMembers(u, []).Got? && ReadValue(s) == Got(Obj(ReadMembers(u, []).value), ReadMembers(u, []).rest)
  {
    hide ReadMembers, SkipSpace;
  }

  lemma {:induction false} ObjectDerives(s: string) returns (t: Tree)
    requires ReadValue(s).Got? && s[0] == '{'
    ensures Good(t) && Spell(t, ReadValue(s).rest) == s && Meaning(t) == ReadValue(s).value
    decreases |s|, 0
  {
    ObjectSplits(s);
    hide ReadValue, ReadMembers, SkipSpace, Spaces, Good, GoodMembers, Members, Meaning, Spell, SpellMembers;
    var gap := SpaceSplits(s[1..]);
    var u := SkipSpace(s[1..]);
    assert s == "{" + s[1..];
    if u != "" && u[0] == '}' {
      t := TObj(gap, []);
      assert u == "}" + u[1..];
      EmptyTree(gap, u[1..]);
    } else {
      var ms := MembersDerive(u, []);
      var padded := ms[0 := ms[0].(before := gap)];
      t := TObj("", padded);
      MembersPadded(ms, gap, [], ReadMembers(u, []).rest);
      TreeOfMembers(padded, ReadMembers(u, []).rest);
    }
  }

  lemma TreeOfMembers(ms: seq<Member>, rest: string)
    requires ms != [] && GoodMembers(ms)
    ensures Good(TObj("", ms)) && Meaning(TObj("", ms)) == Obj(Members([], ms))
    ensures Spell(TObj("", ms), rest) == "{" + SpellMembers(ms, rest)
  {
  }

  lemma MembersPadded(ms: seq<Member>, gap: string, acc: seq<Entry>, rest: string)
    requires ms != [] && ms[0].before == "" && GoodMembers(ms) && Spaces(gap)
    ensures var padded := ms[0 := ms[0].(before := gap)];
            && GoodMembers(padded) && Members(acc, padded) == Members(acc, ms)
            && SpellMembers(padded, rest) == gap + SpellMembers(ms, rest)
  {
    hide Spell, Meaning, Good, SpellPieces;
    assert ms[0 := ms[0].(before := gap)][1..] == ms[1..];
  }

  lemma MembersSplit(s: string, acc: seq<Entry>)
    requires ReadMembers(s, acc).Got?
    ensures ReadMember(s).Got?
    ensures var next := SkipSpace(ReadMember(s).rest);
            && next != "" && next[0] in "},"
            && ReadMembers(s, acc) ==
               if next[0] == '}' then Got(Put(acc, ReadMember(s).value), next[1..])
               else ReadMembers(SkipSpace(next[1..]), Put(acc, ReadMember(s).value))
  {
    hide ReadMember, SkipSpace, Put;
  }

  lemma {:induction false} MembersDerive(s: string, acc: seq<Entry>) returns (ms: seq<Member>)
    requires ReadMembers(s, acc).Got?
    ensures ms != [] && ms[0].before == "" && GoodMembers(ms)
    ensures SpellMembers(ms, ReadMembers(s, acc).rest) == s && ReadMembers(s, acc).value == Members(acc, ms)
    decreases |s|, 3
  {
    MembersSplit(s, acc);
    hide ReadMembers, ReadMember, SpellMembers, SpellMember, GoodMembers, GoodMember, Members, Put, SkipSpace, Spaces;
    hide TextOf, Meaning;
    var m := MemberDerives(s);
    var rest, tail, e := ReadMembers(s, acc).rest, ReadMember(s).rest, ReadMember(s).value;
    var gap := SpaceSplits(tail);
    var next := SkipSpace(tail);
    var first := m.(after := gap);
    MemberPadded(m, gap, next);
    if next[0] == '}' {
      ms := LastMember(first, acc, next, rest);
    } else {
      var before := SpaceSplits(next[1..]);
      var later := MembersDerive(SkipSpace(next[1..]), Put(acc, e));
      ms := MemberBefore(first, later, before, acc, rest, next);
    }
  }

  lemma MemberPadded(m: Member, gap: string, next: string)
    requires m.after == "" && Spaces(gap)
    ensures SpellMember(m.(after := gap), next) == SpellMember(m, gap + next)
    ensures GoodMember(m) ==> GoodMember(m.(after := gap))
  {
    assert "" + (gap + next) == gap + next;
    SpelledAlike(m, m.(after := gap), gap + next, next);
    hide SpellMember, Good, GoodPieces, Spaces;
  }

  lemma SpelledAlike(m: Member, n: Member, a: string, b: string)
    requires m.after + a == n.after + b && m == n.(after := m.after)
    ensures SpellMember(m, a) == SpellMember(n, b)
  {
    hide Spell, SpellPieces;
  }

  predicate GoodMember(m: Member) {
    GoodPieces(m.key) && Spaces(m.mid) && Spaces(m.mid2) && Good(m.value) && Spaces(m.after)
  }

  lemma LastMember(m: Member, acc: seq<Entry>, next: string, rest: string) returns (ms: seq<Member>)
    requires m.before == "" && GoodMember(m) && next != "" && next[0] == '}' && next[1..] == rest
    ensures ms == [m] && GoodMembers(ms) && Members(acc, ms) == Put(acc, Entry(TextOf(m.key), Meaning(m.value)))
    ensures SpellMembers(ms, rest) == SpellMember(m, next)
  {
    hide Good, Meaning, Spell, SpellMember, Put;
    ms := [m];
    assert ms[1..] == [];
    assert next == "}" + rest;
  }

  lemma MemberBefore(m: Member, later: seq<Member>, gap: string, acc: seq<Entry>, rest: string, next: string)
    returns (ms: seq<Member>)
    requires m.before == "" && GoodMember(m) && later != [] && later[0].before == "" && GoodMembers(later) && Spaces(gap)
    requires next != "" && next[0] == ',' && next[1..] == gap + SpellMembers(later, rest)
    ensures ms != [] && ms[0] == m && GoodMembers(ms)
    ensures Members(acc, ms) == Members(Put(acc, Entry(TextOf(m.key), Meaning(m.value))), later)
    ensures SpellMembers(ms, rest) == SpellMember(m, next)
  {
    hide Good, Meaning, Spell, SpellMember, Put;
    var padded := later[0 := later[0].(before := gap)];
    MembersPadded(later, gap, Put(acc, Entry(TextOf(m.key), Meaning(m.value))), rest);
    ms := [m] + padded;
    assert ms[1..] == padded;
    assert next == "," + (gap + SpellMembers(later, rest));
  }

  lemma MemberSplits(s: string)
    requires ReadMember(s).Got?
    ensures s != "" && s[0] == '"' && ReadString(s[1..]).Got?
    ensures var colon := SkipSpace(ReadString(s[1..]).rest);
            && colon != "" && colon[0] == ':' && ReadValue(SkipSpace(colon[1..])).Got?
            && ReadMember(s) == Got(Entry(ReadString(s[1..]).value, ReadValue(SkipSpace(colon[1..])).value),
                                    ReadValue(SkipSpace(colon[1..])).rest)
  {
    hide ReadString, ReadValue, SkipSpace;
  }

  lemma {:induction false} MemberDerives(s: string) returns (m: Member)
    requires ReadMember(s).Got?
    ensures m.before == "" && m.after == "" && GoodMember(m)
    ensures SpellMember(m, ReadMember(s).rest) == s
    ensures ReadMember(s).value == Entry(TextOf(m.key), Meaning(m.value))
    decreases |s|, 2
  {
    MemberSplits(s);
    hide ReadMember, ReadString, ReadValue, SkipSpace, SpellPieces, Spell, SpellMember, Good, GoodPieces, Spaces;
    hide TextOf, Meaning;
    var key := StringDerives(s[1..]);
    var after := ReadString(s[1..]).rest;
    var mid := SpaceSplits(after);
    var colon := SkipSpace(after);
    var mid2 := SpaceSplits(colon[1..]);
    var v := ValueDerives(SkipSpace(colon[1..]));
    m := Member("", key, mid, mid2, v, "");
    MemberSpells(m, s, after, colon, ReadMember(s).rest);
  }

  lemma MemberSpells(m: Member, s: string, after: string, colon: string, rest: string)
    requires m.after == "" && s != "" && s[0] == '"' && s[1..] == SpellPieces(m.key, after)
    requires after == m.mid + colon && colon != "" && colon[0] == ':' && colon[1..] == m.mid2 + Spell(m.value, rest)
    ensures SpellMember(m, rest) == s
  {
    hide SpellPieces, Spell;
    assert "" + rest == rest;
    assert colon == ":" + colon[1..];
    assert s == "\"" + s[1..];
  }

  // ---- The whole text ----

  /** The text is spelled by this derivation, with white space around it, and means this. */
  predicate Derives(s: string, v: Value, before: string, t: Tree, after: string) {
    Spaces(before) && Spaces(after) && Good(t) && s == before + Spell(t, after) && Meaning(t) == v
  }

  /** The reader accepts exactly the texts of the grammar, each as what it means. */
  lemma ReadsExactly(s: string, v: Value)
    ensures ReadText(s) == Some(v) <==> exists before, t, after :: Derives(s, v, before, t, after)
  {
    if ReadText(s) == Some(v) {
      var before := SpaceSplits(s);
      var t := ValueDerives(SkipSpace(s));
      var rest := ReadValue(SkipSpace(s)).rest;
      var after := SpaceSplits(rest);
      assert rest == after;
      assert Derives(s, v, before, t, after);
    }
    if before, t, after :| Derives(s, v, before, t, after) {
      SpellStarts(t, after);
      SkipsSpaces(before, Spell(t, after));
      SkipsSpaces(after, "");
      assert after + "" == after;
      ReadsSpelled(t, after);
    }
  }

  /** Two derivations of one text mean the same. */
  lemma MeansOneThing(s: string, v: Value, w: Value, b: string, t: Tree, a: string, b2: string, t2: Tree, a2: string)
    requires Derives(s, v, b, t, a) && Derives(s, w, b2, t2, a2)
    ensures v == w
  {
    ReadsExactly(s, v);
    ReadsExactly(s, w);
  }
}
