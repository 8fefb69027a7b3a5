/** The RESP2 client codec: the command encoder, and the reader that takes one reply off a
    socket whose bytes arrive in chunks of any size. */
module Resp {

  import Sequences
  import opened Bytes

  const CR: Byte := 13
  const LF: Byte := 10
  const MINUS: Byte := 45
  const PLUS: Byte := 43
  const COLON: Byte := 58
  const DOLLAR: Byte := 36
  const STAR: Byte := 42
  const ZERO: Byte := 48
  const CRLF: seq<Byte> := [CR, LF]

  const MAX_BULK_BYTES: nat := 64 * 1024

  /** Text is kept as its UTF-8 bytes. */
  datatype Reply =
    | Simple(text: seq<Byte>)
    | Failure(message: seq<Byte>)
    | Integer(value: int)
    | Bulk(data: seq<Byte>)
    | Oversized(size: nat)
    | Null
    | Array(items: seq<Reply>)

  /** An error inside an array is kept as its text. */
  function AsData(r: Reply): Reply {
    if r.Failure? then Simple(r.message) else r
  }

  // ---- Integers in text ----

  predicate IsDigit(b: Byte) {
    ZERO <= b < ZERO + 10
  }

  predicate AllDigits(s: seq<Byte>) {
    forall i :: 0 <= i < |s| ==> IsDigit(s[i])
  }

  /** An optional minus sign and at least one digit. */
  predicate IsInteger(s: seq<Byte>) {
    if s != [] && s[0] == MINUS then |s| > 1 && AllDigits(s[1..]) else s != [] && AllDigits(s)
  }

  /** Bytes 48 to 57, at least one, behind an optional byte 45. */
  lemma IntegersAre(s: seq<Byte>)
    ensures IsInteger(s) <==>
            var digits := if s != [] && s[0] == 45 then s[1..] else s;
            digits != [] && forall i :: 0 <= i < |digits| ==> 48 <= digits[i] <= 57
  {
  }

  function DigitsValue(s: seq<Byte>): nat
    requires AllDigits(s)
  {
    if s == [] then 0 else 10 * DigitsValue(s[..|s| - 1]) + (s[|s| - 1] - ZERO)
  }

  function IntegerValue(s: seq<Byte>): int
    requires IsInteger(s)
  {
    if s[0] == MINUS then 0 - DigitsValue(s[1..]) else DigitsValue(s)
  }

  function Digits(n: nat): (s: seq<Byte>)
    ensures s != [] && AllDigits(s)
  {
    if n < 10 then [ZERO + n] else Digits(n / 10) + [ZERO + n % 10]
  }

  function Decimal(n: int): seq<Byte> {
    if n < 0 then [MINUS] + Digits(-n) else Digits(n)
  }

  lemma {:induction false} DigitsReadBack(n: nat)
    ensures DigitsValue(Digits(n)) == n
  {
    if n >= 10 {
      DigitsReadBack(n / 10);
      var s := Digits(n);
      assert s[..|s| - 1] == Digits(n / 10);
    }
  }

  lemma DecimalReadsBack(n: int)
    ensures IsInteger(Decimal(n)) && IntegerValue(Decimal(n)) == n
  {
    DigitsReadBack(if n < 0 then -n else n);
    if n < 0 {
      assert Decimal(n)[1..] == Digits(-n);
    }
  }

  // ---- Lines ----

  predicate CrlfAt(s: seq<Byte>, i: nat) {
    i + 1 < |s| && s[i] == CR && s[i + 1] == LF
  }

  /** The first line end at or after `from`, or -1. */
  function LineEndFrom(s: seq<Byte>, from: nat): (at: int)
    requires from <= |s|
    ensures at == -1 || (from <= at && CrlfAt(s, at))
    ensures forall i :: from <= i && (at == -1 || i < at) ==> !CrlfAt(s, i)
    decreases |s| - from
  {
    if from + 1 >= |s| then -1
    else if CrlfAt(s, from) then from
    else LineEndFrom(s, from + 1)
  }

  function LineEnd(s: seq<Byte>): (at: int)
    ensures at == -1 || (0 <= at && CrlfAt(s, at))
    ensures forall i :: 0 <= i && (at == -1 || i < at) ==> !CrlfAt(s, i)
  {
    LineEndFrom(s, 0)
  }

  lemma LineEndExtends(s: seq<Byte>, t: seq<Byte>)
    requires LineEnd(s) >= 0
    ensures LineEnd(s + t) == LineEnd(s)
  {
    var at := LineEnd(s);
    var u := s + t;
    assert CrlfAt(u, at);
    assert forall i :: 0 <= i < at ==> CrlfAt(u, i) == CrlfAt(s, i);
  }

  // ---- One reply at the front of all the bytes that will ever arrive ----

  datatype Parsed<T> = Done(value: T, rest: seq<Byte>) | Malformed | Incomplete

  function Parse(s: seq<Byte>): (p: Parsed<Reply>)
    ensures p.Done? ==> |p.rest| < |s|
    decreases |s|, 0
  {
    var at := LineEnd(s);
    if at < 0 then Incomplete
    else if at == 0 then Malformed
    else ParseLine(s[0], s[1..at], s[at + 2..])
  }

  /** The reply whose first line is `kind` then `text`, with `rest` after that line. */
  function ParseLine(kind: Byte, text: seq<Byte>, rest: seq<Byte>): (p: Parsed<Reply>)
    decreases |rest|, 2
  {
    if kind == PLUS then Done(Simple(text), rest)
    else if kind == MINUS then Done(Failure(text), rest)
    else if kind != COLON && kind != DOLLAR && kind != STAR then Malformed
    else if !IsInteger(text) then Malformed
    else
      var n := IntegerValue(text);
      if kind == COLON then Done(Integer(n), rest)
      else if n < 0 then Done(Null, rest)
      else if kind == DOLLAR then ParseBulk(rest, n)
      else
        match ParseItems(rest, n)
        case Done(items, after) => Done(Array(items), after)
        case Malformed => Malformed
        case Incomplete => Incomplete
  }

  /** The two bytes after the data are dropped unread. */
  function ParseBulk(s: seq<Byte>, n: nat): Parsed<Reply> {
    if |s| < n + 2 then Incomplete
    else Done(if n > MAX_BULK_BYTES then Oversized(n) else Bulk(s[..n]), s[n + 2..])
  }

  function ParseItems(s: seq<Byte>, n: nat): (p: Parsed<seq<Reply>>)
    ensures p.Done? ==> |p.rest| <= |s|
    decreases |s|, 1
  {
    if n == 0 then Done([], s)
    else
      match Parse(s)
      case Malformed => Malformed
      case Incomplete => Incomplete
      case Done(item, rest) => After([AsData(item)], ParseItems(rest, n - 1))
  }

  function After(read: seq<Reply>, p: Parsed<seq<Reply>>): (r: Parsed<seq<Reply>>)
  {
    if p.Done? then Done(read + p.value, p.rest) else p
  }

  lemma AfterNone(p: Parsed<seq<Reply>>)
    ensures After([], p) == p
    ensures p.Done? ==> After(p.value, Done([], p.rest)) == p
  {
    if p.Done? {
      assert [] + p.value == p.value && p.value + [] == p.value;
    }
  }

  lemma AfterTwice(a: seq<Reply>, b: seq<Reply>, p: Parsed<seq<Reply>>)
    ensures After(a, After(b, p)) == After(a + b, p)
  {
    if p.Done? {
      assert a + (b + p.value) == a + b + p.value;
    }
  }

  // ---- What follows a reply does not change it ----

  function Extended<T>(p: Parsed<T>, t: seq<Byte>): Parsed<T> {
    if p.Done? then Done(p.value, p.rest + t) else p
  }

  /** A reply that has arrived, or is malformed, stays so whatever arrives later; nothing
      past its own bytes is taken. */
  lemma {:induction false} ReplyStands(s: seq<Byte>, t: seq<Byte>)
    requires !Parse(s).Incomplete?
    ensures Parse(s + t) == Extended(Parse(s), t)
    decreases |s|, 0
  {
    var at := LineEnd(s);
    LineEndExtends(s, t);
    if at > 0 {
      assert (s + t)[1..at] == s[1..at];
      assert (s + t)[at + 2..] == s[at + 2..] + t;
      LineStands(s[0], s[1..at], s[at + 2..], t);
    }
  }

  lemma {:induction false} LineStands(kind: Byte, text: seq<Byte>, rest: seq<Byte>, t: seq<Byte>)
    requires !ParseLine(kind, text, rest).Incomplete?
    ensures ParseLine(kind, text, rest + t) == Extended(ParseLine(kind, text, rest), t)
    decreases |rest|, 2
  {
    if kind in {COLON, DOLLAR, STAR} && IsInteger(text) && IntegerValue(text) >= 0 {
      var n := IntegerValue(text);
      if kind == DOLLAR {
        assert (rest + t)[n + 2..] == rest[n + 2..] + t;
        assert (rest + t)[..n] == rest[..n];
      } else if kind == STAR {
        ItemsStand(rest, n, t);
      }
    }
  }

  lemma {:induction false} ItemsStand(s: seq<Byte>, n: nat, t: seq<Byte>)
    requires !ParseItems(s, n).Incomplete?
    ensures ParseItems(s + t, n) == Extended(ParseItems(s, n), t)
    decreases |s|, 1
  {
    if n > 0 {
      ReplyStands(s, t);
      if Parse(s).Done? {
        ItemsStand(Parse(s).rest, n - 1, t);
      }
    }
  }

  // ---- Printing replies ----

  predicate OneLine(text: seq<Byte>) {
    LineEnd(text) == -1
  }

  /** What a server can put on the wire. */
  predicate Printable(r: Reply) {
    match r
    case Simple(text) => OneLine(text)
    case Failure(message) => OneLine(message)
    case Array(items) => forall i :: 0 <= i < |items| ==> Printable(items[i])
    case Oversized(_) => false
    case _ => true
  }

  function Line(kind: Byte, text: seq<Byte>): seq<Byte> {
    [kind] + text + CRLF
  }

  function Print(r: Reply): seq<Byte>
    requires Printable(r)
  {
    match r
    case Simple(text) => Line(PLUS, text)
    case Failure(message) => Line(MINUS, message)
    case Integer(value) => Line(COLON, Decimal(value))
    case Bulk(data) => Line(DOLLAR, Decimal(|data|)) + data + CRLF
    case Null => Line(DOLLAR, Decimal(-1))
    case Array(items) => Line(STAR, Decimal(|items|)) + PrintAll(items)
  }

  function PrintAll(rs: seq<Reply>): seq<Byte>
    requires forall i :: 0 <= i < |rs| ==> Printable(rs[i])
  {
    if rs == [] then [] else Print(rs[0]) + PrintAll(rs[1..])
  }

  /** What the client makes of a reply: bulk strings over the limit stand discarded, and
      errors inside arrays are text. */
  function Received(r: Reply): Reply {
    match r
    case Bulk(data) => if |data| > MAX_BULK_BYTES then Oversized(|data|) else r
    case Array(items) => Array(ReceivedAll(items))
    case _ => r
  }

  function ReceivedAll(rs: seq<Reply>): seq<Reply> {
    if rs == [] then [] else [AsData(Received(rs[0]))] + ReceivedAll(rs[1..])
  }

  lemma LineReads(kind: Byte, text: seq<Byte>, rest: seq<Byte>)
    requires OneLine(text) && kind != CR
    ensures Parse(Line(kind, text) + rest) == ParseLine(kind, text, rest)
  {
    var s := Line(kind, text) + rest;
    var at := LineEnd(s);
    assert CrlfAt(s, |text| + 1);
    assert s == [kind] + (text + (CRLF + rest));
    assert forall i :: 0 < i <= |text| ==> CrlfAt(s, i) == CrlfAt(text, i - 1);
    assert !CrlfAt(s, 0);
    assert at == |text| + 1;
    assert s[1..at] == text;
    assert s[at + 2..] == rest;
  }

  lemma DecimalIsOneLine(n: int)
    ensures OneLine(Decimal(n))
  {
    var s := Decimal(n);
    assert forall i :: 0 <= i < |s| ==> s[i] != CR;
  }

  lemma NumberLineReads(kind: Byte, n: int, rest: seq<Byte>)
    requires kind in {COLON, DOLLAR, STAR}
    ensures Parse(Line(kind, Decimal(n)) + rest) == ParseLine(kind, Decimal(n), rest)
    ensures IsInteger(Decimal(n)) && IntegerValue(Decimal(n)) == n
  {
    DecimalIsOneLine(n);
    DecimalReadsBack(n);
    LineReads(kind, Decimal(n), rest);
  }

  /** Reading a printed reply gives the reply the server meant and leaves the stream exactly
      at the next one, with oversized strings inside it or not. */
  lemma {:induction false} ReadsPrinted(r: Reply, rest: seq<Byte>)
    requires Printable(r)
    ensures Parse(Print(r) + rest) == Done(Received(r), rest)
    decreases r, 0
  {
    match r
    case Simple(text) => LineReads(PLUS, text, rest);
    case Failure(message) => LineReads(MINUS, message, rest);
    case Integer(value) => NumberLineReads(COLON, value, rest);
    case Null => NumberLineReads(DOLLAR, -1, rest);
    case Bulk(data) => BulkReads(data, rest);
    case Array(items) =>
      ReadsAllPrinted(items, rest);
      ArrayReads(items, rest);
  }

  lemma BulkReads(data: seq<Byte>, rest: seq<Byte>)
    ensures Parse(Print(Bulk(data)) + rest) == Done(Received(Bulk(data)), rest)
  {
    hide Parse, ParseLine;
    var tail := data + CRLF + rest;
    Sequences.Associates(Line(DOLLAR, Decimal(|data|)), data + CRLF, rest);
    Sequences.Associates(Line(DOLLAR, Decimal(|data|)), data, CRLF);
    NumberLineReads(DOLLAR, |data|, tail);
    assert tail[..|data|] == data;
    assert tail[|data| + 2..] == rest;
    BulkLine(Decimal(|data|), tail);
  }

  lemma BulkLine(text: seq<Byte>, rest: seq<Byte>)
    requires IsInteger(text) && IntegerValue(text) >= 0
    ensures ParseLine(DOLLAR, text, rest) == ParseBulk(rest, IntegerValue(text))
  {
  }

  lemma ArrayReads(items: seq<Reply>, rest: seq<Byte>)
    requires forall i :: 0 <= i < |items| ==> Printable(items[i])
    requires ParseItems(PrintAll(items) + rest, |items|) == Done(ReceivedAll(items), rest)
    ensures Parse(Print(Array(items)) + rest) == Done(Received(Array(items)), rest)
  {
    hide Parse, ParseItems;
    Sequences.Associates(Line(STAR, Decimal(|items|)), PrintAll(items), rest);
    NumberLineReads(STAR, |items|, PrintAll(items) + rest);
  }

  lemma {:induction false} ReadsAllPrinted(rs: seq<Reply>, rest: seq<Byte>)
    requires forall i :: 0 <= i < |rs| ==> Printable(rs[i])
    ensures ParseItems(PrintAll(rs) + rest, |rs|) == Done(ReceivedAll(rs), rest)
    decreases rs, 1
  {
    if rs == [] {
      assert PrintAll(rs) + rest == rest;
    } else {
      var tail := PrintAll(rs[1..]) + rest;
      assert PrintAll(rs) + rest == Print(rs[0]) + tail;
      ReadsPrinted(rs[0], tail);
      ReadsAllPrinted(rs[1..], rest);
    }
  }

  /** No reply is taken before its last byte is there. */
  lemma PrefixWaits(r: Reply, t: seq<Byte>, u: seq<Byte>)
    requires Printable(r) && Print(r) == t + u && u != []
    ensures Parse(t) == Incomplete
  {
    hide Parse, Print, Received;
    ReadsPrinted(r, []);
    assert t + u + [] == t + u;
    if !Parse(t).Incomplete? {
      ReplyStands(t, u);
    }
  }

  /** A negative length is no string and no array, which is how a read that timed out is answered. */
  lemma NegativeIsNull(kind: Byte, n: int, rest: seq<Byte>)
    requires kind in {DOLLAR, STAR} && n < 0
    ensures Parse(Line(kind, Decimal(n)) + rest) == Done(Null, rest)
  {
    NumberLineReads(kind, n, rest);
  }

  /** A first line of no known kind, or a length or integer that is no number, is refused. */
  lemma BadLineRefused(kind: Byte, text: seq<Byte>, rest: seq<Byte>)
    requires OneLine(text) && kind != CR
    ensures kind !in {PLUS, MINUS, COLON, DOLLAR, STAR} ==> Parse(Line(kind, text) + rest) == Malformed
    ensures kind in {COLON, DOLLAR, STAR} && !IsInteger(text) ==> Parse(Line(kind, text) + rest) == Malformed
    ensures Parse(CRLF + rest) == Malformed
  {
    LineReads(kind, text, rest);
    assert CrlfAt(CRLF + rest, 0);
  }

  // ---- Commands ----

  /** A number is an integer here; a string is given as its UTF-8 bytes. */
  datatype Arg = Data(data: seq<Byte>) | Number(n: int) | NotFinite

  datatype Encoded = Encoded(bytes: seq<Byte>) | TypeError

  function ArgBytes(a: Arg): seq<Byte>
    requires !a.NotFinite?
  {
    if a.Data? then a.data else Decimal(a.n)
  }

  predicate Sendable(args: seq<Arg>) {
    forall i :: 0 <= i < |args| ==> !args[i].NotFinite?
  }

  /** The command as the array of bulk strings it stands for. */
  function Command(args: seq<Arg>): (r: Reply)
    requires Sendable(args)
  {
    Array(seq(|args|, i requires 0 <= i < |args| => Bulk(ArgBytes(args[i]))))
  }

  lemma {:induction false} PrintAllAppends(rs: seq<Reply>, r: Reply)
    requires Printable(r) && forall i :: 0 <= i < |rs| ==> Printable(rs[i])
    ensures PrintAll(rs + [r]) == PrintAll(rs) + Print(r)
  {
    if rs == [] {
      assert rs + [r] == [r];
      assert PrintAll([r]) == Print(r) + PrintAll([]);
    } else {
      assert (rs + [r])[1..] == rs[1..] + [r];
      PrintAllAppends(rs[1..], r);
    }
  }

  method Encode(args: seq<Arg>) returns (e: Encoded)
    ensures Sendable(args) ==> e == Encoded(Print(Command(args)))
    ensures !Sendable(args) ==> e == TypeError
  {
    var out := Line(STAR, Decimal(|args|));
    ghost var printed: seq<Reply> := [];
    var i := 0;
    hide Line, Decimal, ArgBytes;
    assert out + PrintAll(printed) == out;
    while i < |args|
      invariant 0 <= i <= |args| && |printed| == i
      invariant forall k :: 0 <= k < i ==> !args[k].NotFinite? && printed[k] == Bulk(ArgBytes(args[k]))
      invariant out == Line(STAR, Decimal(|args|)) + PrintAll(printed)
    {
      if args[i].NotFinite? {
        return TypeError;
      }
      var data := ArgBytes(args[i]);
      PrintAllAppends(printed, Bulk(data));
      Sequences.Associates(Line(STAR, Decimal(|args|)), PrintAll(printed), Print(Bulk(data)));
      out := out + (Line(DOLLAR, Decimal(|data|)) + data + CRLF);
      printed := printed + [Bulk(data)];
      i := i + 1;
    }
    assert printed == Command(args).items;
    return Encoded(out);
  }

  /** A reader of the same protocol gets the arguments back, those over the limit as their
      length alone, and stands right after the command. */
  lemma CommandReadsBack(args: seq<Arg>, rest: seq<Byte>)
    requires Sendable(args)
    ensures var p := Parse(Print(Command(args)) + rest);
            && p.Done? && p.rest == rest && p.value.Array? && |p.value.items| == |args|
            && forall i :: 0 <= i < |args| ==>
                 p.value.items[i] == (if |ArgBytes(args[i])| > MAX_BULK_BYTES
                                      then Oversized(|ArgBytes(args[i])|) else Bulk(ArgBytes(args[i])))
  {
    var r := Command(args);
    ReadsPrinted(r, rest);
    forall i | 0 <= i < |args|
      ensures |ReceivedAll(r.items)| == |args| && ReceivedAll(r.items)[i] == AsData(Received(r.items[i]))
    {
      ReceivedAt(r.items, i);
    }
    if args == [] {
      assert ReceivedAll(r.items) == [];
    }
  }

  /** A command of two arguments, byte for byte. */
  lemma SampleCommand(name: seq<Byte>, key: seq<Byte>)
    requires |name| == 3 && |key| == 12
    ensures Print(Command([Data(name), Data(key)])) ==
            [42, 50, 13, 10, 36, 51, 13, 10] + name + [13, 10, 36, 49, 50, 13, 10] + key + [13, 10]
    ensures Decimal(-105) == [45, 49, 48, 53] && Decimal(0) == [48]
  {
    var items := Command([Data(name), Data(key)]).items;
    assert items == [Bulk(name), Bulk(key)];
    assert Decimal(12) == [49, 50] && Decimal(2) == [50] && Decimal(3) == [51];
    assert items[1..] == [Bulk(key)] && [Bulk(key)][1..] == [];
    assert PrintAll([Bulk(key)]) == Print(Bulk(key)) + PrintAll([]);
    assert PrintAll(items) == Print(Bulk(name)) + PrintAll([Bulk(key)]);
    assert Digits(1) == [49] && Digits(10) == [49, 48];
  }

  /** An item of an array is received as it would be alone, but an error as its text. */
  lemma {:induction false} ReceivedAt(rs: seq<Reply>, i: nat)
    requires i < |rs|
    ensures |ReceivedAll(rs)| == |rs| && ReceivedAll(rs)[i] == AsData(Received(rs[i]))
    ensures ReceivedAll(rs)[i] == if rs[i].Failure? then Simple(rs[i].message) else Received(rs[i])
  {
    if i > 0 {
      ReceivedAt(rs[1..], i - 1);
    } else if |rs| > 1 {
      ReceivedAt(rs[1..], 0);
    }
  }

  // ---- The read side of one socket ----

  /** One read from the socket: what was held, unread, when the chunk was taken. */
  datatype Fill = Fill(held: seq<Byte>, chunk: seq<Byte>)

  /** Not much was held: less than the largest string kept, or a line not yet ended. */
  predicate Modest(f: Fill) {
    |f.held| < MAX_BULK_BYTES + 2 || LineEnd(f.held) == -1
  }

  lemma NothingHeld(f: Fill)
    requires f.held == []
    ensures Modest(f)
  {
  }

  datatype Outcome<T> = Got(value: T) | ProtocolError | Closed

  /** Dropping some bytes of what is held, behind those dropped before. */
  lemma DropsOn<T>(all: seq<T>, dropped: nat, take: nat, held: seq<T>, later: seq<T>)
    requires dropped <= |all| && held + later == all[dropped..] && take <= |held|
    ensures dropped + take <= |all| && held[take..] + later == all[dropped + take..]
  {
  }

  class Wire {
    var buf: seq<Byte>
    /** Chunks the socket has still to deliver before it closes. */
    var arriving: seq<seq<Byte>>
    ghost var fills: seq<Fill>

    constructor (chunks: seq<seq<Byte>>)
      ensures Unread() == Flat(chunks) && fills == []
    {
      buf, arriving, fills := [], chunks, [];
    }

    /** Everything not read yet, arrived or not. */
    ghost function Unread(): seq<Byte>
      reads this
    {
      buf + Flat(arriving)
    }

    /** Since `before`, nothing but modest fills. */
    ghost predicate Sparing(before: seq<Fill>)
      reads this
    {
      |before| <= |fills| && fills[..|before|] == before
      && forall i :: |before| <= i < |fills| ==> Modest(fills[i])
    }

    method FillBuffer() returns (ok: bool)
      modifies this
      ensures ok == (old(arriving) != [])
      ensures Unread() == old(Unread())
      ensures !ok ==> buf == old(buf) && arriving == old(arriving) && fills == old(fills)
      ensures ok ==> |arriving| == |old(arriving)| - 1 && buf == old(buf) + old(arriving)[0]
                     && fills == old(fills) + [Fill(old(buf), old(arriving)[0])]
    {
      if arriving == [] {
        return false;
      }
      fills := fills + [Fill(buf, arriving[0])];
      buf, arriving := buf + arriving[0], arriving[1..];
      return true;
    }

    method ReadLine() returns (line: Outcome<seq<Byte>>)
      modifies this
      ensures Sparing(old(fills))
      ensures LineEnd(old(Unread())) == -1 ==> line == Closed
      ensures LineEnd(old(Unread())) >= 0 ==>
                line == Got(old(Unread())[..LineEnd(old(Unread()))])
                && Unread() == old(Unread())[LineEnd(old(Unread())) + 2..]
    {
      var at := LineEnd(buf);
      while at < 0
        invariant at == LineEnd(buf)
        invariant Unread() == old(Unread()) && Sparing(old(fills))
        decreases |arriving|
      {
        var ok := FillBuffer();
        if !ok {
          assert Unread() == buf;
          return Closed;
        }
        at := LineEnd(buf);
      }
      LineEndExtends(buf, Flat(arriving));
      var read := buf[..at];
      assert read == Unread()[..at];
      assert buf[at + 2..] + Flat(arriving) == Unread()[at + 2..];
      buf := buf[at + 2..];
      return Got(read);
    }

    method ReadExact(n: nat) returns (data: Outcome<seq<Byte>>)
      requires n <= MAX_BULK_BYTES
      modifies this
      ensures Sparing(old(fills))
      ensures |old(Unread())| < n + 2 ==> data == Closed
      ensures |old(Unread())| >= n + 2 ==> data == Got(old(Unread())[..n]) && Unread() == old(Unread())[n + 2..]
    {
      while |buf| < n + 2
        invariant Unread() == old(Unread()) && Sparing(old(fills))
        decreases |arriving|
      {
        var ok := FillBuffer();
        if !ok {
          assert Unread() == buf;
          return Closed;
        }
      }
      data := Got(buf[..n]);
      assert buf[..n] == Unread()[..n];
      assert buf[n + 2..] + Flat(arriving) == Unread()[n + 2..];
      buf := buf[n + 2..];
    }

    /** Nothing is held when more is read, so no more than one chunk is ever buffered. */
    method Skip(n: nat) returns (ok: bool)
      modifies this
      ensures Sparing(old(fills))
      ensures forall i :: |old(fills)| <= i < |fills| ==> fills[i].held == []
      ensures ok == (|old(Unread())| >= n + 2)
      ensures ok ==> Unread() == old(Unread())[n + 2..]
    {
      hide Modest;
      var remaining := n + 2;
      while remaining > 0
        invariant 0 <= remaining <= n + 2
        invariant n + 2 - remaining <= |old(Unread())|
        invariant Unread() == old(Unread())[n + 2 - remaining..]
        invariant Sparing(old(fills))
        invariant forall i :: |old(fills)| <= i < |fills| ==> fills[i].held == []
        decreases |arriving|, remaining
      {
        if buf == [] {
          NothingHeld(Fill([], if arriving == [] then [] else arriving[0]));
          var more := FillBuffer();
          if !more {
            assert Unread() == [];
            return false;
          }
        }
        var take := if remaining < |buf| then remaining else |buf|;
        DropsOn(old(Unread()), n + 2 - remaining, take, buf, Flat(arriving));
        buf := buf[take..];
        remaining := remaining - take;
      }
      return true;
    }

    /** One reply: what it is, and where it leaves the stream, depend on the bytes alone and
        not on how they were cut into chunks. */
    method ReadReply() returns (reply: Outcome<Reply>)
      modifies this
      ensures Sparing(old(fills))
      ensures match Parse(old(Unread()))
              case Done(value, rest) => reply == Got(value) && Unread() == rest
              case Malformed => reply == ProtocolError
              case Incomplete => reply == Closed
      decreases |Unread()|, 0
    {
      var start := ReadLine();
      if !start.Got? {
        return Closed;
      }
      var line := start.value;
      if line == [] {
        return ProtocolError;
      }
      ghost var text, rest := line[1..], Unread();
      assert old(Unread())[1..LineEnd(old(Unread()))] == text;
      assert Parse(old(Unread())) == ParseLine(line[0], text, rest);
      if line[0] == PLUS {
        return Got(Simple(line[1..]));
      } else if line[0] == MINUS {
        return Got(Failure(line[1..]));
      } else if line[0] != COLON && line[0] != DOLLAR && line[0] != STAR {
        return ProtocolError;
      } else if !IsInteger(line[1..]) {
        return ProtocolError;
      }
      var n := IntegerValue(line[1..]);
      if line[0] == COLON {
        return Got(Integer(n));
      } else if n < 0 {
        return Got(Null);
      } else if line[0] == DOLLAR {
        reply := ReadBulk(n);
      } else {
        var items := ReadItems(n);
        match items
        case Got(values) => reply := Got(Array(values));
        case ProtocolError => reply := ProtocolError;
        case Closed => reply := Closed;
      }
    }

    method ReadBulk(n: nat) returns (reply: Outcome<Reply>)
      modifies this
      ensures Sparing(old(fills))
      ensures match ParseBulk(old(Unread()), n)
              case Done(value, rest) => reply == Got(value) && Unread() == rest
              case Malformed => false
              case Incomplete => reply == Closed
    {
      if n > MAX_BULK_BYTES {
        var skipped := Skip(n);
        reply := if skipped then Got(Oversized(n)) else Closed;
      } else {
        var data := ReadExact(n);
        reply := if data.Got? then Got(Bulk(data.value)) else Closed;
      }
    }

    method ReadItems(n: nat) returns (items: Outcome<seq<Reply>>)
      modifies this
      ensures Sparing(old(fills))
      ensures match ParseItems(old(Unread()), n)
              case Done(values, rest) => items == Got(values) && Unread() == rest
              case Malformed => items == ProtocolError
              case Incomplete => items == Closed
      decreases |Unread()|, 1
    {
      var values: seq<Reply> := [];
      var i := 0;
      AfterNone(ParseItems(Unread(), n));
      while i < n
        invariant 0 <= i <= n
        invariant |Unread()| <= |old(Unread())|
        invariant ParseItems(old(Unread()), n) == After(values, ParseItems(Unread(), n - i))
        invariant Sparing(old(fills))
      {
        ghost var before := Unread();
        var item := ReadReply();
        match item {
          case Got(value) =>
            AfterTwice(values, [AsData(value)], ParseItems(Unread(), n - i - 1));
            values := values + [AsData(value)];
          case ProtocolError => return ProtocolError;
          case Closed => return Closed;
        }
        i := i + 1;
      }
      AfterNone(Done(values, Unread()));
      return Got(values);
    }
  }
}
