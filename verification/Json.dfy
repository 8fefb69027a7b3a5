/** JSON as the envelopes use it: the reader (RFC 8259), the canonical writer (keys sorted by
    code point, no spaces, everything outside printable ASCII escaped), and how they fit. */
module Json {

  import Sequences
  import opened Wrappers

  /** A number is read but its value is not kept; an object keeps its keys in the order they
      first appeared. */
  datatype Value =
    | Str(text: string)
    | Number
    | Literal(word: string)
    | Arr(items: seq<Value>)
    | Obj(entries: seq<Entry>)

  datatype Entry = Entry(key: string, value: Value)

  datatype Read<T> = Got(value: T, rest: string) | Bad

  type Nibble = n: int | 0 <= n < 16

  /** One unit of UTF-16. */
  type CodeUnit = u: int | 0 <= u < 0x1_0000

  // ---- Reading ----

  function SkipSpace(s: string): (r: string)
    ensures |r| <= |s|
    ensures r != "" ==> r[0] !in " \t\n\r"
  {
    if s != "" && s[0] in " \t\n\r" then SkipSpace(s[1..]) else s
  }

  predicate StartsWith(s: string, prefix: string) {
    |prefix| <= |s| && s[..|prefix|] == prefix
  }

  function HexValue(c: char): Option<nat> {
    if '0' <= c <= '9' then Some(c as int - '0' as int)
    else if 'a' <= c <= 'f' then Some(c as int - 'a' as int + 10)
    else if 'A' <= c <= 'F' then Some(c as int - 'A' as int + 10)
    else None
  }

  /** Four hexadecimal digits at the front. */
  function Hex4(s: string): (u: Option<nat>)
    ensures u.Some? ==> |s| >= 4 && u.value < 0x1_0000
  {
    if |s| < 4 then None
    else
      var a, b, c, d := HexValue(s[0]), HexValue(s[1]), HexValue(s[2]), HexValue(s[3]);
      if a.Some? && b.Some? && c.Some? && d.Some?
      then Some(((a.value * 16 + b.value) * 16 + c.value) * 16 + d.value)
      else None
  }

  const REPLACEMENT: char := '\U{FFFD}'

  predicate High(u: nat) { 0xD800 <= u < 0xDC00 }

  predicate Low(u: nat) { 0xDC00 <= u < 0xE000 }

  function Paired(high: nat, low: nat): char
    requires High(high) && Low(low)
  {
    (0x1_0000 + (high - 0xD800) * 0x400 + (low - 0xDC00)) as char
  }

  /** What follows `\u`; a surrogate without its other half stands as U+FFFD. */
  function ReadUnit(s: string): (r: Read<char>)
  {
    match Hex4(s)
    case None => Bad
    case Some(u) =>
      var rest := s[4..];
      if High(u) && StartsWith(rest, "\\u") && Hex4(rest[2..]).Some? && Low(Hex4(rest[2..]).value)
      then Got(Paired(u, Hex4(rest[2..]).value), rest[6..])
      else if High(u) || Low(u) then Got(REPLACEMENT, rest)
      else Got(u as char, rest)
  }

  /** What follows a backslash. */
  function ReadEscape(s: string): (r: Read<char>)
  {
    if s == "" then Bad
    else if s[0] == 'u' then ReadUnit(s[1..])
    else if s[0] in "\"\\/" then Got(s[0], s[1..])
    else if s[0] == 'b' then Got('\U{8}', s[1..])
    else if s[0] == 'f' then Got('\U{c}', s[1..])
    else if s[0] == 'n' then Got('\n', s[1..])
    else if s[0] == 'r' then Got('\r', s[1..])
    else if s[0] == 't' then Got('\t', s[1..])
    else Bad
  }

  function Preceded(c: char, r: Read<string>): Read<string> {
    if r.Got? then Got([c] + r.value, r.rest) else Bad
  }

  /** What follows an opening quote. */
  function ReadString(s: string): (r: Read<string>)
    ensures r.Got? ==> |r.rest| < |s|
    decreases |s|
  {
    if s == "" || s[0] < ' ' then Bad
    else if s[0] == '"' then Got("", s[1..])
    else if s[0] == '\\' then
      var e := ReadEscape(s[1..]);
      if e.Got? then Preceded(e.value, ReadString(e.rest)) else Bad
    else Preceded(s[0], ReadString(s[1..]))
  }

  function DigitCount(s: string): (n: nat)
    ensures n <= |s|
  {
    if s != "" && '0' <= s[0] <= '9' then 1 + DigitCount(s[1..]) else 0
  }

  function ReadNumber(s: string): (r: Read<Value>)
    requires s != ""
  {
    var whole := if s[0] == '-' then s[1..] else s;
    var n := DigitCount(whole);
    if n == 0 || (n > 1 && whole[0] == '0') then Bad
    else
      var t := whole[n..];
      var f := if t != "" && t[0] == '.' then DigitCount(t[1..]) else 0;
      if t != "" && t[0] == '.' && f == 0 then Bad
      else
        var u := if f > 0 then t[1 + f..] else t;
        if u == "" || u[0] !in "eE" then Got(Number, u)
        else
          var x := if |u| > 1 && u[1] in "+-" then u[2..] else u[1..];
          var k := DigitCount(x);
          if k == 0 then Bad else Got(Number, x[k..])
  }

  /** A repeated key keeps its place and takes the new value. */
  function Put(es: seq<Entry>, e: Entry): seq<Entry> {
    if es == [] then [e]
    else if es[0].key == e.key then [e] + es[1..]
    else [es[0]] + Put(es[1..], e)
  }

  function ReadValue(s: string): (r: Read<Value>)
    ensures r.Got? ==> |r.rest| < |s|
    decreases |s|, 0
  {
    if s == "" then Bad
    else if s[0] == '"' then
      match ReadString(s[1..])
      case Bad => Bad
      case Got(text, rest) => Got(Str(text), rest)
    else if s[0] == '{' then
      var t := SkipSpace(s[1..]);
      if t != "" && t[0] == '}' then Got(Obj([]), t[1..])
      else
        match ReadMembers(t, [])
        case Bad => Bad
        case Got(entries, rest) => Got(Obj(entries), rest)
    else if s[0] == '[' then
      var t := SkipSpace(s[1..]);
      if t != "" && t[0] == ']' then Got(Arr([]), t[1..])
      else
        match ReadElements(t, [])
        case Bad => Bad
        case Got(items, rest) => Got(Arr(items), rest)
    else if StartsWith(s, "true") then Got(Literal("true"), s[4..])
    else if StartsWith(s, "false") then Got(Literal("false"), s[5..])
    else if StartsWith(s, "null") then Got(Literal("null"), s[4..])
    else ReadNumber(s)
  }

  /** One `"key": value`, with the text after it. */
  function ReadMember(s: string): (r: Read<Entry>)
    decreases |s|, 1
  {
    if s == "" || s[0] != '"' then Bad
    else
      match ReadString(s[1..])
      case Bad => Bad
      case Got(key, rest) =>
        var t := SkipSpace(rest);
        if t == "" || t[0] != ':' then Bad
        else
          match ReadValue(SkipSpace(t[1..]))
          case Bad => Bad
          case Got(value, after) => Got(Entry(key, value), after)
  }

  function ReadMembers(s: string, acc: seq<Entry>): (r: Read<seq<Entry>>)
    ensures r.Got? ==> |r.rest| < |s|
    decreases |s|, 2
  {
    match ReadMember(s)
    case Bad => Bad
    case Got(e, rest) =>
      var t := SkipSpace(rest);
      if t == "" then Bad
      else if t[0] == '}' then Got(Put(acc, e), t[1..])
      else if t[0] == ',' then ReadMembers(SkipSpace(t[1..]), Put(acc, e))
      else Bad
  }

  function ReadElements(s: string, acc: seq<Value>): (r: Read<seq<Value>>)
    ensures r.Got? ==> |r.rest| < |s|
    decreases |s|, 2
  {
    match ReadValue(s)
    case Bad => Bad
    case Got(v, rest) =>
      var t := SkipSpace(rest);
      if t == "" then Bad
      else if t[0] == ']' then Got(acc + [v], t[1..])
      else if t[0] == ',' then ReadElements(SkipSpace(t[1..]), acc + [v])
      else Bad
  }

  /** The whole text is one value. */
  function ReadText(s: string): Option<Value> {
    match ReadValue(SkipSpace(s))
    case Bad => None
    case Got(v, rest) => if SkipSpace(rest) == "" then Some(v) else None
  }

  // ---- No text is shorter than what it says ----

  /** The characters a value takes at the least: a string its own and two quotes; an object a
      brace, and for every entry the key, its quotes, a colon, the value and what follows it. */
  function Least(v: Value): nat {
    match v
    case Str(text) => |text| + 2
    case Obj(entries) => 1 + LeastAll(entries)
    case _ => 1
  }

  function LeastEntry(e: Entry): nat {
    |e.key| + 4 + Least(e.value)
  }

  function LeastAll(es: seq<Entry>): nat {
    if es == [] then 0 else LeastEntry(es[0]) + LeastAll(es[1..])
  }

  lemma {:induction false} StringTakes(s: string)
    requires ReadString(s).Got?
    ensures |ReadString(s).value| + 1 + |ReadString(s).rest| <= |s|
    decreases |s|
  {
    if s[0] != '"' {
      if s[0] == '\\' {
        StringTakes(ReadEscape(s[1..]).rest);
      } else {
        StringTakes(s[1..]);
      }
    }
  }

  lemma {:induction false} PutTakes(es: seq<Entry>, e: Entry)
    ensures LeastAll(Put(es, e)) <= LeastAll(es) + LeastEntry(e)
  {
    if es == [] {
      assert LeastAll([e]) == LeastEntry(e) + LeastAll([]);
    } else if es[0].key == e.key {
      assert ([e] + es[1..])[1..] == es[1..];
    } else {
      PutTakes(es[1..], e);
      assert ([es[0]] + Put(es[1..], e))[1..] == Put(es[1..], e);
    }
  }

  lemma {:induction false} ValueTakes(s: string)
    requires ReadValue(s).Got?
    ensures Least(ReadValue(s).value) + |ReadValue(s).rest| <= |s|
    decreases |s|, 0
  {
    if s[0] == '"' {
      StringTakes(s[1..]);
    } else if s[0] == '{' {
      var t := SkipSpace(s[1..]);
      if !(t != "" && t[0] == '}') {
        MembersTake(t, []);
      }
    }
  }

  lemma {:induction false} MemberTakes(s: string)
    requires ReadMember(s).Got?
    ensures LeastEntry(ReadMember(s).value) - 1 + |ReadMember(s).rest| <= |s|
    decreases |s|, 1
  {
    StringTakes(s[1..]);
    var t := SkipSpace(ReadString(s[1..]).rest);
    ValueTakes(SkipSpace(t[1..]));
  }

  lemma {:induction false} MembersTake(s: string, acc: seq<Entry>)
    requires ReadMembers(s, acc).Got?
    ensures LeastAll(ReadMembers(s, acc).value) + |ReadMembers(s, acc).rest| <= |s| + LeastAll(acc)
    decreases |s|, 2
  {
    MemberTakes(s);
    var e := ReadMember(s).value;
    PutTakes(acc, e);
    var t := SkipSpace(ReadMember(s).rest);
    if t[0] == ',' {
      MembersTake(SkipSpace(t[1..]), Put(acc, e));
    }
  }

  lemma TextTakes(s: string)
    requires ReadText(s).Some?
    ensures Least(ReadText(s).value) <= |s|
  {
    ValueTakes(SkipSpace(s));
  }

  // ---- Writing ----

  function HexDigit(n: Nibble): char {
    "0123456789abcdef"[n]
  }

  /** Four lower-case hexadecimal digits. */
  function Hex(u: CodeUnit): (s: string) {
    var q := u / 16;
    var p := q / 16;
    [HexDigit(p / 16), HexDigit(p % 16), HexDigit(q % 16), HexDigit(u % 16)]
  }

  function Unit(u: CodeUnit): string {
    "\\u" + Hex(u)
  }

  function WriteChar(c: char): string {
    var n := c as int;
    if c == '"' then "\\\""
    else if c == '\\' then "\\\\"
    else if n == 8 then "\\b"
    else if n == 9 then "\\t"
    else if n == 10 then "\\n"
    else if n == 12 then "\\f"
    else if n == 13 then "\\r"
    else if n < 0x20 || 0x7f <= n < 0x1_0000 then Unit(n)
    else if n < 0x7f then [c]
    else Unit(0xD800 + (n - 0x1_0000) / 0x400) + Unit(0xDC00 + (n - 0x1_0000) % 0x400)
  }

  function WriteChars(s: string): string {
    if s == "" then "" else WriteChar(s[0]) + WriteChars(s[1..])
  }

  function WriteString(s: string): string {
    "\"" + WriteChars(s) + "\""
  }

  /** Values the envelope's writer meets: no number, and no key twice. */
  predicate Plain(v: Value) {
    match v
    case Str(_) => true
    case Number => false
    case Literal(word) => word == "true" || word == "false" || word == "null"
    case Arr(items) => forall i :: 0 <= i < |items| ==> Plain(items[i])
    case Obj(entries) => UniqueKeys(entries) && forall i :: 0 <= i < |entries| ==> Plain(entries[i].value)
  }

  predicate UniqueKeys(es: seq<Entry>) {
    forall i, j :: 0 <= i < j < |es| ==> es[i].key != es[j].key
  }

  function Write(v: Value): string
    requires Plain(v)
    decreases v, 0
  {
    match v
    case Str(text) => WriteString(text)
    case Literal(word) => word
    case Arr(items) => if items == [] then "[]" else "[" + WriteItems(items)
    case Obj(entries) => if entries == [] then "{}" else "{" + WriteEntries(entries)
  }

  function WriteItems(items: seq<Value>): string
    requires items != [] && forall i :: 0 <= i < |items| ==> Plain(items[i])
    decreases items, 1
  {
    Write(items[0]) + if |items| == 1 then "]" else "," + WriteItems(items[1..])
  }

  function WriteEntries(es: seq<Entry>): string
    requires es != [] && forall i :: 0 <= i < |es| ==> Plain(es[i].value)
    decreases es, 1
  {
    WriteString(es[0].key) + ":" + Write(es[0].value) + if |es| == 1 then "}" else "," + WriteEntries(es[1..])
  }

  // ---- What is written reads back ----

  lemma HexDigitReads(n: Nibble)
    ensures HexValue(HexDigit(n)) == Some(n)
  {
  }

  lemma HexReads(u: CodeUnit, rest: string)
    ensures Hex4(Hex(u) + rest) == Some(u)
    ensures (Hex(u) + rest)[4..] == rest
  {
    var q := u / 16;
    var p := q / 16;
    HexDigitReads(p / 16);
    HexDigitReads(p % 16);
    HexDigitReads(q % 16);
    HexDigitReads(u % 16);
    hide HexDigit, HexValue;
  }

  lemma SingleUnitReads(u: CodeUnit, rest: string)
    requires !High(u) && !Low(u)
    ensures ReadString(Unit(u) + rest) == Preceded(u as char, ReadString(rest))
  {
    var s := Unit(u) + rest;
    assert s[1..][1..] == Hex(u) + rest;
    HexReads(u, rest);
    hide Hex, Hex4;
    assert ReadEscape(s[1..]) == Got(u as char, rest);
  }

  /** Two escapes one after the other, cut where the reader cuts them. */
  lemma TwoEscapes(a: string, b: string, rest: string)
    requires |b| == 4
    ensures
      var tail := "\\u" + b + rest;
      && (("\\u" + a) + ("\\u" + b) + rest)[1..] == "u" + (a + tail)
      && ("u" + (a + tail))[1..] == a + tail
      && StartsWith(tail, "\\u") && tail[2..] == b + rest && tail[6..] == rest
  {
  }

  lemma PairEscapeReads(high: nat, low: nat, rest: string)
    requires High(high) && Low(low)
    ensures ReadEscape((Unit(high) + Unit(low) + rest)[1..]) == Got(Paired(high, low), rest)
  {
    var tail := Unit(low) + rest;
    TwoEscapes(Hex(high), Hex(low), rest);
    HexReads(high, tail);
    HexReads(low, rest);
    hide Hex, Hex4, StartsWith;
  }

  lemma PairReads(high: nat, low: nat, rest: string)
    requires High(high) && Low(low)
    ensures ReadString(Unit(high) + Unit(low) + rest) == Preceded(Paired(high, low), ReadString(rest))
  {
    PairEscapeReads(high, low, rest);
    hide ReadEscape, Hex, Hex4, Paired;
  }

  lemma PairIs(c: char)
    requires c as int >= 0x1_0000
    ensures var m := c as int - 0x1_0000;
            High(0xD800 + m / 0x400) && Low(0xDC00 + m % 0x400) && Paired(0xD800 + m / 0x400, 0xDC00 + m % 0x400) == c
  {
  }

  lemma CharReads(c: char, rest: string)
    ensures ReadString(WriteChar(c) + rest) == Preceded(c, ReadString(rest))
  {
    hide ReadString, ReadEscape, Preceded, Unit, Paired;
    var n := c as int;
    if c == '"' {
      EscapeReads('"', rest);
    } else if c == '\\' {
      EscapeReads('\\', rest);
    } else if n == 8 {
      EscapeReads('b', rest);
    } else if n == 9 {
      EscapeReads('t', rest);
    } else if n == 10 {
      EscapeReads('n', rest);
    } else if n == 12 {
      EscapeReads('f', rest);
    } else if n == 13 {
      EscapeReads('r', rest);
    } else if n < 0x20 || 0x7f <= n < 0x1_0000 {
      SingleUnitReads(n, rest);
    } else if n < 0x7f {
      PlainCharReads(c, rest);
    } else {
      var m := n - 0x1_0000;
      PairReads(0xD800 + m / 0x400, 0xDC00 + m % 0x400, rest);
      PairIs(c);
    }
  }

  lemma PlainCharReads(c: char, rest: string)
    requires c >= ' ' && c != '"' && c != '\\'
    ensures ReadString([c] + rest) == Preceded(c, ReadString(rest))
  {
    assert ([c] + rest)[1..] == rest;
  }

  function Short(e: char): char {
    if e == 'b' then '\U{8}' else if e == 'f' then '\U{c}' else if e == 'n' then '\n'
    else if e == 'r' then '\r' else if e == 't' then '\t' else e
  }

  lemma EscapeReads(e: char, rest: string)
    requires e in "\"\\bfnrt"
    ensures ReadString(['\\', e] + rest) == Preceded(Short(e), ReadString(rest))
  {
    assert ([e] + rest)[1..] == rest;
  }

  lemma {:induction false} StringReads(s: string, rest: string)
    ensures ReadString(WriteChars(s) + "\"" + rest) == Got(s, rest)
  {
    if s == "" {
      assert WriteChars(s) + "\"" + rest == "\"" + rest;
      assert ("\"" + rest)[1..] == rest;
    } else {
      var tail := WriteChars(s[1..]) + "\"" + rest;
      assert WriteChars(s) + "\"" + rest == WriteChar(s[0]) + tail;
      CharReads(s[0], tail);
      StringReads(s[1..], rest);
      assert [s[0]] + s[1..] == s;
    }
  }

  lemma QuotedReads(s: string, rest: string)
    ensures var t := WriteString(s) + rest;
            t != "" && t[0] == '"' && ReadString(t[1..]) == Got(s, rest)
  {
    assert (WriteString(s) + rest)[1..] == WriteChars(s) + "\"" + rest;
    StringReads(s, rest);
  }

  lemma {:induction false} PutNew(es: seq<Entry>, e: Entry)
    requires forall i :: 0 <= i < |es| ==> es[i].key != e.key
    ensures Put(es, e) == es + [e]
  {
    if es != [] {
      PutNew(es[1..], e);
      assert es[1..] + [e] == (es + [e])[1..];
    }
  }

  lemma StartsPlainly(v: Value)
    requires Plain(v)
    ensures Write(v) != "" && Write(v)[0] !in " \t\n\r" && Write(v)[0] != '}' && Write(v)[0] != ']'
  {
  }

  lemma ElementsStep(s: string, v: Value, tail: string, acc: seq<Value>)
    requires ReadValue(s) == Got(v, tail) && tail != "" && (tail[0] == ']' || tail[0] == ',')
    ensures ReadElements(s, acc) ==
            if tail[0] == ']' then Got(acc + [v], tail[1..]) else ReadElements(SkipSpace(tail[1..]), acc + [v])
  {
    hide ReadValue;
  }

  lemma MembersStep(s: string, e: Entry, tail: string, acc: seq<Entry>)
    requires ReadMember(s) == Got(e, tail) && tail != "" && (tail[0] == '}' || tail[0] == ',')
    ensures ReadMembers(s, acc) ==
            if tail[0] == '}' then Got(Put(acc, e), tail[1..]) else ReadMembers(SkipSpace(tail[1..]), Put(acc, e))
  {
    hide ReadMember;
  }

  lemma ObjectStep(t: string, entries: seq<Entry>, rest: string)
    requires t != "" && t[0] == '"' && ReadMembers(t, []) == Got(entries, rest)
    ensures ReadValue("{" + t) == Got(Obj(entries), rest)
  {
    assert ("{" + t)[1..] == t;
    hide ReadMembers;
  }

  lemma ArrayStep(t: string, items: seq<Value>, rest: string)
    requires t != "" && t[0] !in " \t\n\r" && t[0] != ']' && ReadElements(t, []) == Got(items, rest)
    ensures ReadValue("[" + t) == Got(Arr(items), rest)
  {
    assert ("[" + t)[1..] == t;
    hide ReadElements;
  }

  /** Every value written without a number reads back as itself, whatever follows it. */
  lemma {:induction false} ValueReads(v: Value, rest: string)
    requires Plain(v)
    ensures ReadValue(Write(v) + rest) == Got(v, rest)
    decreases v, 0
  {
    match v
    case Str(text) =>
      QuotedReads(text, rest);
    case Literal(word) => LiteralReads(word, rest);
    case Arr(items) =>
      if items == [] {
        assert ("[]" + rest)[1..] == "]" + rest && ("]" + rest)[1..] == rest;
      } else {
        ItemsRead(items, [], rest);
        ArrayReads(items, rest);
      }
    case Obj(entries) =>
      if entries == [] {
        assert ("{}" + rest)[1..] == "}" + rest && ("}" + rest)[1..] == rest;
      } else {
        EntriesRead(entries, [], rest);
        ObjectReads(entries, rest);
      }
  }

  lemma LiteralReads(word: string, rest: string)
    requires word == "true" || word == "false" || word == "null"
    ensures ReadValue(word + rest) == Got(Literal(word), rest)
  {
    var s := word + rest;
    assert s[0] == word[0];
    assert s[..|word|] == word && s[|word|..] == rest;
  }

  lemma ArrayReads(items: seq<Value>, rest: string)
    requires items != [] && forall i :: 0 <= i < |items| ==> Plain(items[i])
    requires ReadElements(WriteItems(items) + rest, []) == Got([] + items, rest)
    ensures ReadValue("[" + WriteItems(items) + rest) == Got(Arr(items), rest)
  {
    hide ReadElements, ReadValue;
    var t := WriteItems(items) + rest;
    assert "[" + WriteItems(items) + rest == "[" + t;
    StartsPlainly(items[0]);
    assert t[0] == Write(items[0])[0];
    assert [] + items == items;
    hide WriteItems, Write, Plain;
    ArrayStep(t, items, rest);
  }

  lemma ObjectReads(entries: seq<Entry>, rest: string)
    requires entries != [] && forall i :: 0 <= i < |entries| ==> Plain(entries[i].value)
    requires ReadMembers(WriteEntries(entries) + rest, []) == Got([] + entries, rest)
    ensures ReadValue("{" + WriteEntries(entries) + rest) == Got(Obj(entries), rest)
  {
    hide ReadMembers, ReadValue;
    var t := WriteEntries(entries) + rest;
    assert "{" + WriteEntries(entries) + rest == "{" + t;
    assert t[0] == '"';
    assert [] + entries == entries;
    hide WriteEntries, Write, Plain;
    ObjectStep(t, entries, rest);
  }

  /** What follows the first item. */
  function ItemsTail(items: seq<Value>, rest: string): (t: string)
    requires items != [] && forall i :: 0 <= i < |items| ==> Plain(items[i])
    ensures t != "" && t[0] == if |items| == 1 then ']' else ','
    ensures t[1..] == if |items| == 1 then rest else WriteItems(items[1..]) + rest
  {
    if |items| == 1 then "]" + rest else "," + (WriteItems(items[1..]) + rest)
  }

  lemma ItemsSplit(items: seq<Value>, rest: string)
    requires items != [] && forall i :: 0 <= i < |items| ==> Plain(items[i])
    ensures WriteItems(items) + rest == Write(items[0]) + ItemsTail(items, rest)
    ensures SkipSpace(WriteItems(items) + rest) == WriteItems(items) + rest
  {
    StartsPlainly(items[0]);
    hide Write, Plain;
    var first := Write(items[0]);
    if |items| == 1 {
      Sequences.Associates(first, "]", rest);
    } else {
      var later := WriteItems(items[1..]);
      Sequences.Associates(first, "," + later, rest);
      Sequences.Associates(",", later, rest);
    }
  }

  lemma {:induction false} ItemsRead(items: seq<Value>, acc: seq<Value>, rest: string)
    requires items != [] && forall i :: 0 <= i < |items| ==> Plain(items[i])
    ensures ReadElements(WriteItems(items) + rest, acc) == Got(acc + items, rest)
    decreases items, 1
  {
    hide ReadElements, ReadValue, Write, WriteItems, ItemsTail, SkipSpace, Plain;
    var tail := ItemsTail(items, rest);
    ItemsSplit(items, rest);
    ValueReads(items[0], tail);
    ElementsStep(Write(items[0]) + tail, items[0], tail, acc);
    if |items| == 1 {
      assert acc + [items[0]] == acc + items;
    } else {
      ItemsSplit(items[1..], rest);
      ItemsRead(items[1..], acc + [items[0]], rest);
      assert acc + [items[0]] + items[1..] == acc + items;
    }
  }

  lemma EntryReads(e: Entry, tail: string)
    requires Plain(e.value)
    requires ReadValue(Write(e.value) + tail) == Got(e.value, tail)
    ensures ReadMember(WriteString(e.key) + ":" + Write(e.value) + tail) == Got(e, tail)
  {
    hide WriteString, Write, Plain, ReadValue, ReadString;
    var v := Write(e.value) + tail;
    assert WriteString(e.key) + ":" + Write(e.value) + tail == WriteString(e.key) + (":" + v);
    QuotedReads(e.key, ":" + v);
    assert (":" + v)[1..] == v;
    StartsPlainly(e.value);
    assert v[0] == Write(e.value)[0];
  }

  /** What follows the first entry. */
  function EntriesTail(es: seq<Entry>, rest: string): (t: string)
    requires es != [] && forall i :: 0 <= i < |es| ==> Plain(es[i].value)
    ensures t != "" && t[0] == if |es| == 1 then '}' else ','
    ensures t[1..] == if |es| == 1 then rest else WriteEntries(es[1..]) + rest
  {
    if |es| == 1 then "}" + rest else "," + (WriteEntries(es[1..]) + rest)
  }

  lemma EntriesSplit(es: seq<Entry>, rest: string)
    requires es != [] && forall i :: 0 <= i < |es| ==> Plain(es[i].value)
    ensures WriteEntries(es) + rest == WriteString(es[0].key) + ":" + Write(es[0].value) + EntriesTail(es, rest)
    ensures SkipSpace(WriteEntries(es) + rest) == WriteEntries(es) + rest
  {
    assert WriteString(es[0].key)[0] == '"';
    hide WriteString, Write, Plain;
    var first := WriteString(es[0].key) + ":" + Write(es[0].value);
    if |es| == 1 {
      Sequences.Associates(first, "}", rest);
    } else {
      var later := WriteEntries(es[1..]);
      Sequences.Associates(first, "," + later, rest);
      Sequences.Associates(",", later, rest);
    }
  }

  lemma {:induction false} EntriesRead(es: seq<Entry>, acc: seq<Entry>, rest: string)
    requires es != [] && forall i :: 0 <= i < |es| ==> Plain(es[i].value)
    requires UniqueKeys(acc + es)
    ensures ReadMembers(WriteEntries(es) + rest, acc) == Got(acc + es, rest)
    decreases es, 1
  {
    hide ReadMembers, ReadMember, ReadValue, Write, WriteEntries, WriteString, EntriesTail, SkipSpace, Plain;
    var e, tail := es[0], EntriesTail(es, rest);
    FreshKey(acc, es);
    PutNew(acc, e);
    EntriesSplit(es, rest);
    ValueReads(e.value, tail);
    EntryReads(e, tail);
    MembersStep(WriteString(e.key) + ":" + Write(e.value) + tail, e, tail, acc);
    if |es| == 1 {
      assert acc + [e] == acc + es;
    } else {
      EntriesSplit(es[1..], rest);
      assert acc + [e] + es[1..] == acc + es;
      EntriesRead(es[1..], acc + [e], rest);
    }
  }

  lemma FreshKey(acc: seq<Entry>, es: seq<Entry>)
    requires es != [] && UniqueKeys(acc + es)
    ensures forall i :: 0 <= i < |acc| ==> acc[i].key != es[0].key
  {
    var all := acc + es;
    assert all[|acc|] == es[0];
    assert forall i :: 0 <= i < |acc| ==> all[i] == acc[i];
  }

  lemma WrittenTextReads(v: Value)
    requires Plain(v)
    ensures ReadText(Write(v)) == Some(v)
  {
    ValueReads(v, "");
    StartsPlainly(v);
    assert Write(v) + "" == Write(v);
  }

  // ---- Keys in order ----

  /** By code point, a prefix first. */
  predicate Before(a: string, b: string) {
    b != "" && (a == "" || a[0] < b[0] || (a[0] == b[0] && Before(a[1..], b[1..])))
  }

  lemma {:induction false} BeforeTotal(a: string, b: string)
    ensures a == b || Before(a, b) || Before(b, a)
    ensures !(Before(a, b) && Before(b, a))
    ensures a == b ==> !Before(a, b)
  {
    if a != "" && b != "" {
      BeforeTotal(a[1..], b[1..]);
      assert a == [a[0]] + a[1..] && b == [b[0]] + b[1..];
    }
  }

  lemma {:induction false} BeforeTransitive(a: string, b: string, c: string)
    requires Before(a, b) && Before(b, c)
    ensures Before(a, c)
  {
    if a != "" && a[0] == b[0] == c[0] {
      BeforeTransitive(a[1..], b[1..], c[1..]);
    }
  }

  /** Negative, zero or positive, one character of each text at a time. */
  method CompareCodePoints(a: string, b: string) returns (r: int)
    ensures r < 0 <==> Before(a, b)
    ensures r > 0 <==> Before(b, a)
    ensures r == 0 <==> a == b
  {
    var i := 0;
    BeforeTotal(a, b);
    assert a[0..] == a && b[0..] == b;
    while true
      invariant 0 <= i <= |a| && i <= |b| && a[..i] == b[..i]
      invariant Before(a, b) <==> Before(a[i..], b[i..])
      invariant Before(b, a) <==> Before(b[i..], a[i..])
      decreases |a| - i
    {
      if i == |a| || i == |b| {
        assert a == a[..i] + a[i..] && b == b[..i] + b[i..];
        return if i == |a| && i == |b| then 0 else if i == |a| then -1 else 1;
      }
      assert a[i..][1..] == a[i + 1..] && b[i..][1..] == b[i + 1..];
      if a[i] != b[i] {
        return if a[i] < b[i] then -1 else 1;
      }
      i := i + 1;
    }
  }

  predicate Ordered(es: seq<Entry>) {
    forall i, j :: 0 <= i < j < |es| ==> Before(es[i].key, es[j].key)
  }

  function Insert(es: seq<Entry>, e: Entry): seq<Entry> {
    if es == [] then [e]
    else if Before(e.key, es[0].key) then [e] + es
    else [es[0]] + Insert(es[1..], e)
  }

  function Sort(es: seq<Entry>): (r: seq<Entry>)
    ensures |r| == |es|
  {
    if es == [] then []
    else
      InsertKeeps(Sort(es[1..]), es[0]);
      Insert(Sort(es[1..]), es[0])
  }

  lemma {:induction false} InsertKeeps(es: seq<Entry>, e: Entry)
    ensures multiset(Insert(es, e)) == multiset(es) + multiset{e}
    ensures |Insert(es, e)| == |es| + 1
  {
    if es != [] && !Before(e.key, es[0].key) {
      InsertKeeps(es[1..], e);
      assert es == [es[0]] + es[1..];
    }
  }

  lemma {:induction false} InsertOrders(es: seq<Entry>, e: Entry)
    requires Ordered(es) && forall x :: x in es ==> x.key != e.key
    ensures Ordered(Insert(es, e))
  {
    if es != [] {
      BeforeTotal(e.key, es[0].key);
      assert es[0] in es;
      if Before(e.key, es[0].key) {
        forall j | 0 < j < |es| ensures Before(e.key, es[j].key) {
          BeforeTransitive(e.key, es[0].key, es[j].key);
        }
      } else {
        InsertOrders(es[1..], e);
        InsertKeeps(es[1..], e);
        var rest := Insert(es[1..], e);
        forall x | x in rest ensures Before(es[0].key, x.key) {
          assert x in multiset(rest);
          assert x in multiset(es[1..]) + multiset{e};
        }
      }
    }
  }

  lemma {:induction false} SortSorts(es: seq<Entry>)
    requires UniqueKeys(es)
    ensures multiset(Sort(es)) == multiset(es) && Ordered(Sort(es))
  {
    hide Before, Insert;
    if es != [] {
      SortSorts(es[1..]);
      assert es == [es[0]] + es[1..];
      InsertKeeps(Sort(es[1..]), es[0]);
      forall x | x in Sort(es[1..]) ensures x.key != es[0].key {
        assert x in multiset(es[1..]);
      }
      InsertOrders(Sort(es[1..]), es[0]);
    }
  }

  lemma OrderedUnique(es: seq<Entry>)
    requires Ordered(es)
    ensures UniqueKeys(es)
  {
    forall i, j | 0 <= i < j < |es| ensures es[i].key != es[j].key {
      BeforeTotal(es[i].key, es[j].key);
    }
  }

  /** One order for a given set of entries. */
  lemma {:induction false} OrderedSame(a: seq<Entry>, b: seq<Entry>)
    requires Ordered(a) && Ordered(b) && multiset(a) == multiset(b)
    ensures a == b
  {
    SameSize(a, b);
    if a != [] {
      HeadsSame(a, b);
      RestOf(a);
      RestOf(b);
      hide Before;
      OrderedSame(a[1..], b[1..]);
      assert a == [a[0]] + a[1..] && b == [b[0]] + b[1..];
    }
  }

  lemma SameSize(a: seq<Entry>, b: seq<Entry>)
    requires multiset(a) == multiset(b)
    ensures |a| == |b|
  {
    assert |multiset(a)| == |a| && |multiset(b)| == |b|;
  }

  lemma RestOf(a: seq<Entry>)
    requires a != []
    ensures multiset(a[1..]) == multiset(a) - multiset{a[0]}
  {
    assert a == [a[0]] + a[1..];
  }

  lemma HeadsSame(a: seq<Entry>, b: seq<Entry>)
    requires Ordered(a) && Ordered(b) && multiset(a) == multiset(b) && a != [] && b != []
    ensures a[0] == b[0]
  {
    assert a[0] in multiset(b) && b[0] in multiset(a);
    BeforeTotal(a[0].key, b[0].key);
  }

  lemma SortSame(a: seq<Entry>, b: seq<Entry>)
    requires UniqueKeys(a) && UniqueKeys(b) && multiset(a) == multiset(b)
    ensures Sort(a) == Sort(b)
  {
    SortSorts(a);
    SortSorts(b);
    OrderedSame(Sort(a), Sort(b));
  }

  /** Keys sorted at every level. */
  function Normal(v: Value): Value
    decreases v, 0
  {
    match v
    case Arr(items) => Arr(NormalAll(items))
    case Obj(entries) => Obj(Sort(NormalEntries(entries)))
    case _ => v
  }

  function NormalAll(items: seq<Value>): (r: seq<Value>)
    ensures |r| == |items|
    decreases items, 1
  {
    if items == [] then [] else [Normal(items[0])] + NormalAll(items[1..])
  }

  function NormalEntries(es: seq<Entry>): (r: seq<Entry>)
    ensures |r| == |es| && forall i :: 0 <= i < |es| ==> r[i].key == es[i].key
    decreases es, 1
  {
    if es == [] then [] else [Entry(es[0].key, Normal(es[0].value))] + NormalEntries(es[1..])
  }

  lemma {:induction false} NormalPlain(v: Value)
    requires Plain(v)
    ensures Plain(Normal(v))
    decreases v, 0
  {
    match v
    case Arr(items) => NormalAllPlain(items);
    case Obj(entries) =>
      NormalEntriesPlain(entries);
      var es := NormalEntries(entries);
      SortSorts(es);
      OrderedUnique(Sort(es));
      forall i | 0 <= i < |Sort(es)| ensures Plain(Sort(es)[i].value) {
        assert Sort(es)[i] in multiset(es);
      }
    case _ =>
  }

  lemma {:induction false} NormalAllPlain(items: seq<Value>)
    requires forall i :: 0 <= i < |items| ==> Plain(items[i])
    ensures forall i :: 0 <= i < |items| ==> Plain(NormalAll(items)[i])
    decreases items, 1
  {
    if items != [] {
      NormalPlain(items[0]);
      NormalAllPlain(items[1..]);
    }
  }

  lemma {:induction false} NormalEntriesPlain(es: seq<Entry>)
    requires forall i :: 0 <= i < |es| ==> Plain(es[i].value)
    ensures forall i :: 0 <= i < |es| ==> Plain(NormalEntries(es)[i].value)
    decreases es, 1
  {
    if es != [] {
      NormalPlain(es[0].value);
      NormalEntriesPlain(es[1..]);
    }
  }

  function Canonical(v: Value): string
    requires Plain(v)
  {
    NormalPlain(v);
    Write(Normal(v))
  }

  /** Reading canonical text gives the value back, its keys in order. */
  lemma CanonicalReads(v: Value)
    requires Plain(v)
    ensures ReadText(Canonical(v)) == Some(Normal(v))
  {
    NormalPlain(v);
    WrittenTextReads(Normal(v));
  }

  // ---- Canonical text is as short as it can be ----

  predicate Printable(c: char) {
    ' ' <= c < '\U{7f}' && c != '"' && c != '\\'
  }

  predicate PrintableText(s: string) {
    forall i :: 0 <= i < |s| ==> Printable(s[i])
  }

  lemma {:induction false} PrintableWrites(s: string)
    requires PrintableText(s)
    ensures WriteChars(s) == s
  {
    if s != "" {
      PrintableWrites(s[1..]);
      assert s == [s[0]] + s[1..];
    }
  }

  /** Only text and non-empty objects, and in them only characters written as they are. */
  predicate Simple(v: Value) {
    match v
    case Str(text) => PrintableText(text)
    case Obj(entries) =>
      entries != [] && UniqueKeys(entries)
      && forall i :: 0 <= i < |entries| ==> PrintableText(entries[i].key) && Simple(entries[i].value)
    case _ => false
  }

  lemma {:induction false} SimpleIsPlain(v: Value)
    requires Simple(v)
    ensures Plain(v)
  {
    if v.Obj? {
      forall i | 0 <= i < |v.entries| ensures Plain(v.entries[i].value) {
        SimpleIsPlain(v.entries[i].value);
      }
    }
  }

  lemma {:induction false} WritesLeast(v: Value)
    requires Simple(v) && Plain(v)
    ensures |Write(v)| == Least(v)
    decreases v, 0
  {
    match v
    case Str(text) => PrintableWrites(text);
    case Obj(entries) => WritesLeastAll(entries);
  }

  lemma {:induction false} WritesLeastAll(es: seq<Entry>)
    requires es != []
    requires forall i :: 0 <= i < |es| ==> PrintableText(es[i].key) && Simple(es[i].value) && Plain(es[i].value)
    ensures |WriteEntries(es)| == LeastAll(es)
    decreases es, 1
  {
    PrintableWrites(es[0].key);
    WritesLeast(es[0].value);
    if |es| > 1 {
      WritesLeastAll(es[1..]);
    } else {
      assert LeastAll(es[1..]) == 0;
    }
  }

  lemma {:induction false} LeastOfMultiset(a: seq<Entry>, b: seq<Entry>)
    requires multiset(a) == multiset(b)
    ensures LeastAll(a) == LeastAll(b)
  {
    SameSize(a, b);
    if a != [] {
      assert a[0] in multiset(b);
      var i :| 0 <= i < |b| && b[i] == a[0];
      Removed(b, i);
      RestOf(a);
      LeastOfMultiset(a[1..], b[..i] + b[i + 1..]);
    }
  }

  lemma Removed(b: seq<Entry>, i: nat)
    requires i < |b|
    ensures var rest := b[..i] + b[i + 1..];
            multiset(rest) == multiset(b) - multiset{b[i]} && LeastAll(b) == LeastEntry(b[i]) + LeastAll(rest)
  {
    var tail := [b[i]] + b[i + 1..];
    assert b == b[..i] + tail;
    assert tail[1..] == b[i + 1..];
    LeastJoins(b[..i], tail);
    LeastJoins(b[..i], b[i + 1..]);
  }

  lemma {:induction false} LeastJoins(a: seq<Entry>, b: seq<Entry>)
    ensures LeastAll(a + b) == LeastAll(a) + LeastAll(b)
  {
    if a == [] {
      assert a + b == b;
    } else {
      assert (a + b)[1..] == a[1..] + b;
      LeastJoins(a[1..], b);
    }
  }

  lemma {:induction false} NormalSimple(v: Value)
    requires Simple(v)
    ensures Simple(Normal(v)) && Least(Normal(v)) == Least(v)
    decreases v, 0
  {
    if v.Obj? {
      NormalEntriesSimple(v.entries);
      var es := NormalEntries(v.entries);
      SortSorts(es);
      OrderedUnique(Sort(es));
      LeastOfMultiset(Sort(es), es);
      forall i | 0 <= i < |Sort(es)| ensures PrintableText(Sort(es)[i].key) && Simple(Sort(es)[i].value) {
        assert Sort(es)[i] in multiset(es);
      }
    }
  }

  lemma {:induction false} NormalEntriesSimple(es: seq<Entry>)
    requires forall i :: 0 <= i < |es| ==> PrintableText(es[i].key) && Simple(es[i].value)
    ensures forall i :: 0 <= i < |es| ==> PrintableText(NormalEntries(es)[i].key) && Simple(NormalEntries(es)[i].value)
    ensures LeastAll(NormalEntries(es)) == LeastAll(es)
    decreases es, 1
  {
    if es != [] {
      NormalSimple(es[0].value);
      NormalEntriesSimple(es[1..]);
    }
  }

  /** No text that says the same is shorter than the canonical one. */
  lemma CanonicalIsShortest(v: Value, text: string)
    requires Simple(v) && Plain(v) && ReadText(text) == Some(v)
    ensures |Canonical(v)| <= |text|
  {
    TextTakes(text);
    NormalSimple(v);
    NormalPlain(v);
    WritesLeast(Normal(v));
  }
}
