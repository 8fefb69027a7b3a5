/** UTF-8, which tells every two texts apart. */
module Utf8 {

  import opened Bytes

  function Encode(c: char): seq<Byte> {
    var n := c as int;
    var high := n / 0x40;
    var top := high / 0x40;
    if n < 0x80 then [n]
    else if n < 0x800 then [0xC0 + high, 0x80 + n % 0x40]
    else if n < 0x1_0000 then [0xE0 + top, 0x80 + high % 0x40, 0x80 + n % 0x40]
    else [0xF0 + top / 0x40, 0x80 + top % 0x40, 0x80 + high % 0x40, 0x80 + n % 0x40]
  }

  function EncodeAll(text: string): seq<Byte> {
    if text == "" then [] else Encode(text[0]) + EncodeAll(text[1..])
  }

  function CharValue(s: seq<Byte>): int
    requires 0 < |s| <= 4
  {
    if |s| == 1 then s[0]
    else if |s| == 2 then 0x40 * (s[0] as int - 0xC0) + (s[1] as int - 0x80)
    else if |s| == 3 then 0x40 * (0x40 * (s[0] as int - 0xE0) + (s[1] as int - 0x80)) + (s[2] as int - 0x80)
    else 0x40 * (0x40 * (0x40 * (s[0] as int - 0xF0) + (s[1] as int - 0x80)) + (s[2] as int - 0x80)) + (s[3] as int - 0x80)
  }

  /** As many bytes as section 3 of RFC 3629 demands; the first tells how many, and every other is
      a continuation. */
  lemma EncodeShape(c: char)
    ensures var n, s := c as int, Encode(c);
            && |s| == (if n <= 0x7F then 1 else if n <= 0x7FF then 2 else if n <= 0xFFFF then 3 else 4)
            && (|s| == 1 ==> s == [n])
            && (|s| == 2 ==> 0xC2 <= s[0] <= 0xDF) && (|s| == 3 ==> 0xE0 <= s[0] <= 0xEF)
            && (|s| == 4 ==> 0xF0 <= s[0] <= 0xF4)
            && forall i :: 1 <= i < |s| ==> 0x80 <= s[i] <= 0xBF
  {
  }

  lemma CharReads(c: char)
    ensures CharValue(Encode(c)) == c as int
  {
  }

  /** The first byte gives the length, and the bytes of that length give the character. */
  lemma CharDetermines(c: char, d: char, x: seq<Byte>, y: seq<Byte>)
    requires Encode(c) + x == Encode(d) + y
    ensures c == d && x == y
  {
    var s, t := Encode(c) + x, Encode(d) + y;
    assert s[0] == Encode(c)[0] == Encode(d)[0];
    assert |Encode(c)| == |Encode(d)|;
    assert forall i :: 0 <= i < |Encode(c)| ==> s[i] == Encode(c)[i] && t[i] == Encode(d)[i];
    assert Encode(c) == Encode(d);
    CharReads(c);
    CharReads(d);
    assert x == s[|Encode(c)|..] == t[|Encode(d)|..] == y;
  }

  lemma {:induction false} EncodeAllInjective(a: string, b: string)
    requires EncodeAll(a) == EncodeAll(b)
    ensures a == b
  {
    if a == "" || b == "" {
      assert |EncodeAll(a)| == 0;
    } else {
      CharDetermines(a[0], b[0], EncodeAll(a[1..]), EncodeAll(b[1..]));
      EncodeAllInjective(a[1..], b[1..]);
      assert a == [a[0]] + a[1..] && b == [b[0]] + b[1..];
    }
  }
}
