/** The durable keys of the event protocol: group and event id are percent-encoded (section 2.1
    of RFC 3986) so that the joined key names one pair and no other. */
module StateKey {

  import opened Bytes
  import opened Utf8

  // ---- Percent-encoding ----

  predicate Alphanumeric(c: char) {
    'A' <= c <= 'Z' || 'a' <= c <= 'z' || '0' <= c <= '9'
  }

  predicate Unreserved(c: char) {
    Alphanumeric(c) || c in "-_.~"
  }

  /** What JavaScript's `encodeURIComponent` leaves alone. */
  predicate KeptByEncode(c: char) {
    Alphanumeric(c) || c in "-_.!~*'()"
  }

  /** The unreserved characters of section 2.3 of RFC 3986, by their codes, and the marks that
      JavaScript leaves alone as well. */
  lemma UnreservedAre(c: char)
    ensures Unreserved(c) <==>
            var n := c as int;
            65 <= n <= 90 || 97 <= n <= 122 || 48 <= n <= 57 || n == 45 || n == 46 || n == 95 || n == 126
    ensures KeptByEncode(c) <==> Unreserved(c) || c in {'!', '*', '\'', '(', ')'}
  {
    assert c in "-_.~" <==> c in {'-', '_', '.', '~'};
    assert c in "-_.!~*'()" <==> c in {'-', '_', '.', '!', '~', '*', '\'', '(', ')'};
  }

  type Nibble = n: int | 0 <= n < 16

  function HexDigit(n: Nibble): char {
    "0123456789ABCDEF"[n]
  }

  function HexValue(c: char): nat {
    if '0' <= c <= '9' then c as int - '0' as int
    else if 'A' <= c <= 'F' then c as int - 'A' as int + 10
    else 0
  }

  function Percent(b: Byte): string {
    ['%', HexDigit(b / 16), HexDigit(b % 16)]
  }

  function PercentAll(bytes: seq<Byte>): string {
    if bytes == [] then "" else Percent(bytes[0]) + PercentAll(bytes[1..])
  }

  function EncodeComponent(text: string): string {
    if text == "" then ""
    else (if KeptByEncode(text[0]) then [text[0]] else PercentAll(Encode(text[0]))) + EncodeComponent(text[1..])
  }

  function EncodeMarks(text: string): string {
    if text == "" then ""
    else (if text[0] in "!'()*" then Percent(text[0] as int) else [text[0]]) + EncodeMarks(text[1..])
  }

  function PyQuote(text: string): string {
    EncodeMarks(EncodeComponent(text))
  }

  // ---- The encoding by its meaning: one byte of the text at a time ----

  function QuoteByte(b: Byte): string {
    if Unreserved(b as char) then [b as char] else Percent(b)
  }

  function QuoteBytes(bytes: seq<Byte>): string {
    if bytes == [] then "" else QuoteByte(bytes[0]) + QuoteBytes(bytes[1..])
  }

  function Unquote(s: string): seq<int> {
    if s == "" then []
    else if s[0] == '%' && |s| >= 3 then [16 * HexValue(s[1]) + HexValue(s[2])] + Unquote(s[3..])
    else [s[0] as int] + Unquote(s[1..])
  }

  lemma {:induction false} EncodeMarksJoins(a: string, b: string)
    ensures EncodeMarks(a + b) == EncodeMarks(a) + EncodeMarks(b)
  {
    if a == "" {
      assert a + b == b;
    } else {
      assert (a + b)[1..] == a[1..] + b;
      EncodeMarksJoins(a[1..], b);
    }
  }

  lemma {:induction false} MarksLeavePercents(bytes: seq<Byte>)
    ensures EncodeMarks(PercentAll(bytes)) == PercentAll(bytes)
  {
    if bytes != [] {
      var p, rest := Percent(bytes[0]), PercentAll(bytes[1..]);
      EncodeMarksJoins(p, rest);
      MarksLeavePercents(bytes[1..]);
      assert p[1..] == [p[1], p[2]] && p[1..][1..] == [p[2]] && p[1..][1..][1..] == "";
      assert forall k: Nibble :: HexDigit(k) !in "!'()*";
      assert EncodeMarks([p[2]]) == [p[2]];
      assert EncodeMarks(p[1..]) == [p[1]] + [p[2]];
      assert EncodeMarks(p) == p;
    }
  }

  lemma {:induction false} QuoteBytesJoins(a: seq<Byte>, b: seq<Byte>)
    ensures QuoteBytes(a + b) == QuoteBytes(a) + QuoteBytes(b)
  {
    if a == [] {
      assert a + b == b;
    } else {
      assert (a + b)[1..] == a[1..] + b;
      QuoteBytesJoins(a[1..], b);
    }
  }

  /** Bytes of characters outside ASCII are never unreserved. */
  lemma {:induction false} HighBytesQuote(bytes: seq<Byte>)
    requires forall i :: 0 <= i < |bytes| ==> !Unreserved(bytes[i] as char)
    ensures QuoteBytes(bytes) == PercentAll(bytes)
  {
    if bytes != [] {
      HighBytesQuote(bytes[1..]);
    }
  }

  lemma KeptAreAscii(c: char)
    requires KeptByEncode(c)
    ensures c as int < 0x80 && Encode(c) == [c as int]
    ensures Unreserved(c) <==> c !in "!'()*"
  {
    assert c in "-_.!~*'()" ==> c in {'-', '_', '.', '!', '~', '*', '\'', '(', ')'};
    assert c in "-_.~" <==> c in {'-', '_', '.', '~'};
    assert c in "!'()*" <==> c in {'!', '\'', '(', ')', '*'};
  }

  lemma OthersQuote(c: char)
    requires !KeptByEncode(c)
    ensures forall i :: 0 <= i < |Encode(c)| ==> !Unreserved(Encode(c)[i] as char)
  {
    assert Unreserved(c) ==> KeptByEncode(c) by {
      assert c in "-_.~" ==> c in {'-', '_', '.', '~'};
    }
    assert forall b: char :: b as int >= 0x80 ==> !Unreserved(b);
  }

  lemma QuoteChar(c: char)
    ensures EncodeMarks(if KeptByEncode(c) then [c] else PercentAll(Encode(c))) == QuoteBytes(Encode(c))
  {
    hide KeptByEncode, Unreserved, Encode;
    if KeptByEncode(c) {
      KeptAreAscii(c);
      var piece := if c in "!'()*" then Percent(c as int) else [c];
      assert [c][1..] == "" && [c as int][1..] == [];
      assert EncodeMarks([c]) == piece + "" == piece;
      assert QuoteBytes([c as int]) == QuoteByte(c as int) + "" == QuoteByte(c as int);
    } else {
      MarksLeavePercents(Encode(c));
      OthersQuote(c);
      HighBytesQuote(Encode(c));
    }
  }

  /** The two passes together quote the text's UTF-8 bytes one by one. */
  lemma {:induction false} QuotesBytes(text: string)
    ensures PyQuote(text) == QuoteBytes(EncodeAll(text))
  {
    if text != "" {
      var c, rest := text[0], text[1..];
      var piece := if KeptByEncode(c) then [c] else PercentAll(Encode(c));
      EncodeMarksJoins(piece, EncodeComponent(rest));
      QuoteChar(c);
      QuotesBytes(rest);
      QuoteBytesJoins(Encode(c), EncodeAll(rest));
    }
  }

  lemma HexReadsBack(n: Nibble)
    ensures HexValue(HexDigit(n)) == n
  {
  }

  lemma {:induction false} UnquoteBytes(bytes: seq<Byte>)
    ensures Unquote(QuoteBytes(bytes)) == bytes
  {
    if bytes != [] {
      UnquoteByte(bytes[0], QuoteBytes(bytes[1..]));
      UnquoteBytes(bytes[1..]);
      hide Unquote, QuoteByte;
      assert bytes == [bytes[0]] + bytes[1..];
    }
  }

  lemma UnquoteByte(b: Byte, rest: string)
    ensures Unquote(QuoteByte(b) + rest) == [b] + Unquote(rest)
  {
    var q := QuoteByte(b);
    HexReadsBack(b / 16);
    HexReadsBack(b % 16);
    hide HexDigit;
    assert (q + rest)[|q|..] == rest;
  }

  /** Decoding an encoded text gives its UTF-8 bytes back. */
  lemma UnquotesQuoted(text: string)
    ensures Unquote(PyQuote(text)) == EncodeAll(text)
  {
    QuotesBytes(text);
    UnquoteBytes(EncodeAll(text));
  }

  lemma {:induction false} QuoteBytesPlain(bytes: seq<Byte>)
    ensures ':' !in QuoteBytes(bytes)
  {
    if bytes != [] {
      assert forall k: Nibble :: HexDigit(k) != ':';
      QuoteBytesPlain(bytes[1..]);
    }
  }

  // ---- Keys ----

  function StateKey(prefix: string, group: string, id: string): string {
    prefix + ":" + PyQuote(group) + ":" + PyQuote(id)
  }

  lemma LastColonSplits(a: string, b: string, p: string, q: string)
    requires a + ":" + p == b + ":" + q
    requires ':' !in p && ':' !in q
    ensures a == b && p == q
  {
    var s, t := a + ":" + p, b + ":" + q;
    assert s[|a|] == ':' && t[|b|] == ':';
    assert forall i :: |a| < i < |s| ==> s[i] == p[i - |a| - 1];
    assert forall i :: |b| < i < |t| ==> t[i] == q[i - |b| - 1];
    assert |a| == |b|;
    assert a == s[..|a|] && b == t[..|b|];
    assert p == s[|a| + 1..] && q == t[|b| + 1..];
  }

  /** A key names one prefix, one group and one event id, whatever characters they hold. */
  lemma KeyDetermines(prefix: string, group: string, id: string, prefix': string, group': string, id': string)
    requires StateKey(prefix, group, id) == StateKey(prefix', group', id')
    ensures prefix == prefix' && group == group' && id == id'
  {
    QuotesBytes(group);
    QuotesBytes(id);
    QuotesBytes(group');
    QuotesBytes(id');
    QuoteBytesPlain(EncodeAll(group));
    QuoteBytesPlain(EncodeAll(id));
    QuoteBytesPlain(EncodeAll(group'));
    QuoteBytesPlain(EncodeAll(id'));
    LastColonSplits(prefix + ":" + PyQuote(group), prefix' + ":" + PyQuote(group'), PyQuote(id), PyQuote(id'));
    LastColonSplits(prefix, prefix', PyQuote(group), PyQuote(group'));
    QuoteInjective(group, group');
    QuoteInjective(id, id');
  }

  lemma QuoteInjective(a: string, b: string)
    requires PyQuote(a) == PyQuote(b)
    ensures a == b
  {
    UnquotesQuoted(a);
    UnquotesQuoted(b);
    EncodeAllInjective(a, b);
  }
}
