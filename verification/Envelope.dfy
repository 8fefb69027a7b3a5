/** The event envelope: what `parse` accepts, and that printing an accepted envelope gives
    text that is accepted again and means the same. */
module Envelopes {

  import opened Wrappers
  import opened Bytes
  import Utf8
  import opened Json

  const SPEC_VERSION := "mctl.events/v1"
  const MAX_KIND: nat := 64
  const MAX_SUBJECT_KEYS: nat := 12
  const MAX_SUBJECT_VALUE: nat := 256
  const MAX_ENVELOPE_BYTES: nat := 4096

  const FIELDS: seq<string> := ["correlation_id", "id", "occurred_at", "source", "specversion", "subject", "type"]

  /** The subject's entries in the order the object holds them. */
  datatype Envelope = Envelope(
    id: string,
    kind: string,
    source: string,
    occurredAt: string,
    correlationId: string,
    subject: seq<(string, string)>)

  // ---- The shapes of the fields ----

  predicate Lower(c: char) { 'a' <= c <= 'z' }

  predicate Digit(c: char) { '0' <= c <= '9' }

  predicate Alphanumeric(c: char) { Lower(c) || 'A' <= c <= 'Z' || Digit(c) }

  predicate Word(c: char) { Lower(c) || Digit(c) || c == '_' }

  predicate IdChar(c: char) { Alphanumeric(c) || c in ":._/@#-" }

  predicate ValueChar(c: char) { Alphanumeric(c) || c in "._:/@#+=-" }

  predicate IsId(s: string) {
    1 <= |s| <= 256 && Alphanumeric(s[0]) && forall i :: 0 <= i < |s| ==> IdChar(s[i])
  }

  predicate IsSource(s: string) {
    1 <= |s| <= 63 && (Lower(s[0]) || Digit(s[0])) && forall i :: 0 <= i < |s| ==> Lower(s[i]) || Digit(s[i]) || s[i] == '-'
  }

  predicate IsSubjectKey(s: string) {
    1 <= |s| <= 32 && Lower(s[0]) && forall i :: 0 <= i < |s| ==> Word(s[i])
  }

  predicate IsSubjectValue(s: string) {
    1 <= |s| <= MAX_SUBJECT_VALUE && Alphanumeric(s[0]) && forall i :: 0 <= i < |s| ==> ValueChar(s[i])
  }

  /** Words with a dot between each two. */
  predicate IsDotted(s: string) {
    s != "" && (forall i :: 0 <= i < |s| ==> Word(s[i]) || s[i] == '.')
    && s[0] != '.' && s[|s| - 1] != '.'
    && forall i :: 0 <= i < |s| - 1 ==> !(s[i] == '.' && s[i + 1] == '.')
  }

  function Dots(s: string): nat {
    if s == "" then 0 else (if s[0] == '.' then 1 else 0) + Dots(s[1..])
  }

  predicate IsType(s: string) {
    IsDotted(s) && Dots(s) == 2
  }

  predicate IsKind(s: string) {
    |s| <= MAX_KIND && IsDotted(s)
  }

  function Number2(s: string, i: nat): nat
    requires i + 1 < |s| && Digit(s[i]) && Digit(s[i + 1])
  {
    10 * (s[i] as int - '0' as int) + (s[i + 1] as int - '0' as int)
  }

  predicate Digits(s: string, from: nat, to: nat)
    requires to <= |s|
  {
    forall i :: from <= i < to ==> Digit(s[i])
  }

  /** `hh:mm` at `i`, on a 24-hour clock. */
  predicate ClockAt(s: string, i: nat) {
    i + 5 <= |s| && Digits(s, i, i + 2) && s[i + 2] == ':' && Digits(s, i + 3, i + 5)
    && Number2(s, i) < 24 && Number2(s, i + 3) < 60
  }

  /** `Z`, or a signed offset. */
  predicate IsZone(s: string) {
    s == "Z" || (|s| == 6 && (s[0] == '+' || s[0] == '-') && ClockAt(s, 1))
  }

  /** A fraction, if any, then the zone. */
  predicate IsTail(s: string) {
    IsZone(s)
    || (s != "" && s[0] == '.' && exists k :: 2 <= k <= |s| && Digits(s, 1, k) && IsZone(s[k..]))
  }

  predicate DateShape(s: string) {
    |s| >= 19 && Digits(s, 0, 4) && s[4] == '-' && Digits(s, 5, 7) && s[7] == '-' && Digits(s, 8, 10)
    && 1 <= Number2(s, 5) <= 12 && 1 <= Number2(s, 8) <= 31
  }

  predicate Leap(year: nat) {
    (year % 4 == 0 && year % 100 != 0) || year % 400 == 0
  }

  function DaysIn(year: nat, month: nat): nat
    requires 1 <= month <= 12
  {
    [31, if Leap(year) then 29 else 28, 31, 30, 31, 30, 31, 31, 30, 31, 30, 31][month - 1]
  }

  /** RFC 3339 with a real calendar date. */
  predicate ValidTimestamp(s: string) {
    DateShape(s) && s[10] == 'T' && ClockAt(s, 11) && s[16] == ':' && Digits(s, 17, 19) && Number2(s, 17) < 60
    && IsTail(s[19..])
    && var year := 100 * Number2(s, 0) + Number2(s, 2);
       year >= 1 && Number2(s, 8) <= DaysIn(year, Number2(s, 5))
  }

  // ---- Objects ----

  predicate Has(es: seq<Entry>, key: string) {
    exists i :: 0 <= i < |es| && es[i].key == key
  }

  function Get(es: seq<Entry>, key: string): Option<Value> {
    if es == [] then None else if es[0].key == key then Some(es[0].value) else Get(es[1..], key)
  }

  lemma {:induction false} GetMember(es: seq<Entry>, key: string)
    ensures Get(es, key).Some? <==> Has(es, key)
    ensures Get(es, key).Some? ==> Entry(key, Get(es, key).value) in es
  {
    if es != [] {
      GetMember(es[1..], key);
      if Has(es, key) && es[0].key != key {
        var i :| 0 <= i < |es| && es[i].key == key;
        assert es[1..][i - 1].key == key;
      }
      if Has(es[1..], key) {
        var i :| 0 <= i < |es[1..]| && es[1..][i].key == key;
        assert es[i + 1].key == key;
      }
    }
  }

  predicate TextField(es: seq<Entry>, key: string, text: string) {
    Get(es, key) == Some(Str(text))
  }

  // ---- What `parse` accepts ----

  function SubjectEntries(subject: seq<(string, string)>): (es: seq<Entry>)
    ensures |es| == |subject| && forall i :: 0 <= i < |es| ==> es[i] == Entry(subject[i].0, Str(subject[i].1))
  {
    seq(|subject|, i requires 0 <= i < |subject| => Entry(subject[i].0, Str(subject[i].1)))
  }

  predicate SubjectHolds(subject: seq<(string, string)>) {
    |subject| <= MAX_SUBJECT_KEYS && UniqueKeys(SubjectEntries(subject))
    && (forall i :: 0 <= i < |subject| ==> IsSubjectKey(subject[i].0) && IsSubjectValue(subject[i].1))
    && exists i :: 0 <= i < |subject| && subject[i].0 == "kind" && IsKind(subject[i].1)
  }

  predicate Holds(e: Envelope) {
    IsId(e.id) && IsType(e.kind) && IsSource(e.source) && ValidTimestamp(e.occurredAt) && IsId(e.correlationId)
    && SubjectHolds(e.subject)
  }

  predicate OnlyFields(es: seq<Entry>) {
    (forall i :: 0 <= i < |es| ==> es[i].key in FIELDS) && forall k :: 0 <= k < |FIELDS| ==> Has(es, FIELDS[k])
  }

  /** The document is the envelope, its fields in any order. */
  predicate Describes(doc: Value, e: Envelope) {
    doc.Obj? && OnlyFields(doc.entries)
    && TextField(doc.entries, "specversion", SPEC_VERSION)
    && TextField(doc.entries, "id", e.id)
    && TextField(doc.entries, "type", e.kind)
    && TextField(doc.entries, "source", e.source)
    && TextField(doc.entries, "occurred_at", e.occurredAt)
    && TextField(doc.entries, "correlation_id", e.correlationId)
    && Get(doc.entries, "subject") == Some(Obj(SubjectEntries(e.subject)))
    && Holds(e)
  }

  datatype Reason = NotUtf8 | TooLong | NotJson | NotAnObject | UnknownField | MissingField | BadSpecVersion
                  | BadField(name: string) | BadSubject

  datatype Result = Accepted(envelope: Envelope) | Invalid(reason: Reason)

  /** The objects a reader builds hold no key twice, at any depth. */
  predicate ReaderMade(v: Value) {
    match v
    case Arr(items) => forall i :: 0 <= i < |items| ==> ReaderMade(items[i])
    case Obj(entries) => UniqueKeys(entries) && forall i :: 0 <= i < |entries| ==> ReaderMade(entries[i].value)
    case _ => true
  }

  /** One subject entry after the other. */
  method NormalizeSubject(es: seq<Entry>) returns (normalized: Option<seq<(string, string)>>)
    ensures normalized.Some? ==>
              SubjectEntries(normalized.value) == es
              && forall i :: 0 <= i < |es| ==> IsSubjectKey(normalized.value[i].0) && IsSubjectValue(normalized.value[i].1)
    ensures normalized.None? ==>
              exists i :: 0 <= i < |es| && (!IsSubjectKey(es[i].key) || !es[i].value.Str? || !IsSubjectValue(es[i].value.text))
  {
    var out: seq<(string, string)> := [];
    var i := 0;
    while i < |es|
      invariant 0 <= i <= |es| && |out| == i
      invariant forall k :: 0 <= k < i ==> es[k] == Entry(out[k].0, Str(out[k].1))
      invariant forall k :: 0 <= k < i ==> IsSubjectKey(out[k].0) && IsSubjectValue(out[k].1)
    {
      var key, value := es[i].key, es[i].value;
      if !IsSubjectKey(key) || !value.Str? || !IsSubjectValue(value.text) {
        return None;
      }
      out := out + [(key, value.text)];
      i := i + 1;
    }
    assert SubjectEntries(out) == es;
    return Some(out);
  }

  /** Exactly the documents that describe an envelope are accepted, as that envelope. */
  method FromDict(doc: Value) returns (r: Result)
    requires ReaderMade(doc)
    ensures forall e :: r == Accepted(e) <==> Describes(doc, e)
  {
    hide IsId, IsType, IsSource, ValidTimestamp, SubjectHolds, Get;
    if !doc.Obj? {
      return Invalid(NotAnObject);
    }
    var es := doc.entries;
    if exists i :: 0 <= i < |es| && es[i].key !in FIELDS {
      return Invalid(UnknownField);
    } else if exists k :: 0 <= k < |FIELDS| && !Has(es, FIELDS[k]) {
      return Invalid(MissingField);
    }
    if Get(es, "specversion") != Some(Str(SPEC_VERSION)) {
      return Invalid(BadSpecVersion);
    }
    var bad := FirstBadField(es);
    if bad.Some? {
      return Invalid(BadField(bad.value));
    }
    GoodFields(es);
    SubjectMade(doc);
    var subject := CheckSubject(Get(es, "subject").value);
    hide ReaderMade, OnlyFields, Shape, Has, TextsHold, Built, Describes;
    if subject.None? {
      return Invalid(BadSubject);
    }
    return Accepted(Built(es, subject.value));
  }

  predicate Shape(name: string, text: string) {
    if name == "id" || name == "correlation_id" then IsId(text)
    else if name == "type" then IsType(text)
    else if name == "source" then IsSource(text)
    else ValidTimestamp(text)
  }

  const SHAPED: seq<string> := ["id", "type", "source", "correlation_id", "occurred_at"]

  predicate GoodField(es: seq<Entry>, name: string) {
    Get(es, name).Some? && Get(es, name).value.Str? && Shape(name, Get(es, name).value.text)
  }

  method FirstBadField(es: seq<Entry>) returns (bad: Option<string>)
    ensures bad.None? ==> forall k :: 0 <= k < |SHAPED| ==> GoodField(es, SHAPED[k])
    ensures bad.Some? ==>
              exists i :: 0 <= i < |SHAPED| && bad.value == SHAPED[i] && !GoodField(es, SHAPED[i])
                          && forall k :: 0 <= k < i ==> GoodField(es, SHAPED[k])
  {
    var i := 0;
    while i < |SHAPED|
      invariant 0 <= i <= |SHAPED|
      invariant forall k :: 0 <= k < i ==> GoodField(es, SHAPED[k])
    {
      if !GoodField(es, SHAPED[i]) {
        return Some(SHAPED[i]);
      }
      i := i + 1;
    }
    return None;
  }

  predicate TextsHold(es: seq<Entry>) {
    var id, kind, source := Get(es, "id"), Get(es, "type"), Get(es, "source");
    var correlation, occurred := Get(es, "correlation_id"), Get(es, "occurred_at");
    id.Some? && id.value.Str? && IsId(id.value.text)
    && kind.Some? && kind.value.Str? && IsType(kind.value.text)
    && source.Some? && source.value.Str? && IsSource(source.value.text)
    && correlation.Some? && correlation.value.Str? && IsId(correlation.value.text)
    && occurred.Some? && occurred.value.Str? && ValidTimestamp(occurred.value.text)
  }

  function Built(es: seq<Entry>, subject: seq<(string, string)>): Envelope
    requires TextsHold(es)
  {
    Envelope(Get(es, "id").value.text, Get(es, "type").value.text, Get(es, "source").value.text,
             Get(es, "occurred_at").value.text, Get(es, "correlation_id").value.text, subject)
  }

  lemma GoodFields(es: seq<Entry>)
    requires forall k :: 0 <= k < |SHAPED| ==> GoodField(es, SHAPED[k])
    ensures TextsHold(es)
  {
    hide IsId, IsType, IsSource, ValidTimestamp, Get;
    assert GoodField(es, SHAPED[0]) && GoodField(es, SHAPED[1]) && GoodField(es, SHAPED[2]);
    assert GoodField(es, SHAPED[3]) && GoodField(es, SHAPED[4]);
  }

  lemma SubjectMade(doc: Value)
    requires ReaderMade(doc) && doc.Obj? && forall k :: 0 <= k < |FIELDS| ==> Has(doc.entries, FIELDS[k])
    ensures Get(doc.entries, "subject").Some?
    ensures ReaderMade(Get(doc.entries, "subject").value)
  {
    assert Has(doc.entries, FIELDS[5]);
    GetMember(doc.entries, "subject");
  }

  method CheckSubject(subject: Value) returns (normalized: Option<seq<(string, string)>>)
    requires ReaderMade(subject)
    ensures normalized.Some? ==> subject == Obj(SubjectEntries(normalized.value)) && SubjectHolds(normalized.value)
    ensures normalized.None? ==> forall s :: subject == Obj(SubjectEntries(s)) ==> !SubjectHolds(s)
  {
    if !subject.Obj? || !Has(subject.entries, "kind") {
      return None;
    }
    var es := subject.entries;
    GetMember(es, "kind");
    var kind := Get(es, "kind").value;
    if !kind.Str? || !IsKind(kind.text) {
      return None;
    }
    if |es| > MAX_SUBJECT_KEYS {
      return None;
    }
    normalized := NormalizeSubject(es);
    if normalized.Some? {
      var i :| 0 <= i < |es| && es[i] == Entry("kind", kind);
      assert normalized.value[i].0 == "kind" && IsKind(normalized.value[i].1);
    }
  }

  // ---- What a reader builds ----

  lemma {:induction false} PutUnique(es: seq<Entry>, e: Entry)
    requires UniqueKeys(es)
    ensures UniqueKeys(Put(es, e))
    ensures forall x :: x in Put(es, e) ==> x == e || x in es
  {
    if es != [] {
      if es[0].key == e.key {
        assert forall i :: 0 < i < |es| ==> ([e] + es[1..])[i] == es[i];
      } else {
        PutUnique(es[1..], e);
        var rest := Put(es[1..], e);
        assert Put(es, e) == [es[0]] + rest;
        forall j | 0 <= j < |rest| ensures rest[j].key != es[0].key {
          assert rest[j] in rest;
          assert rest[j] != e ==> rest[j] in es[1..];
        }
      }
    }
  }

  lemma {:induction false} ReadValueMakes(s: string)
    requires ReadValue(s).Got?
    ensures ReaderMade(ReadValue(s).value)
    decreases |s|, 0
  {
    if s[0] == '{' {
      var t := SkipSpace(s[1..]);
      if !(t != "" && t[0] == '}') {
        ReadMembersMakes(t, []);
      }
    } else if s[0] == '[' {
      var t := SkipSpace(s[1..]);
      if !(t != "" && t[0] == ']') {
        ReadElementsMakes(t, []);
      }
    }
  }

  lemma {:induction false} ReadMembersMakes(s: string, acc: seq<Entry>)
    requires ReadMembers(s, acc).Got? && UniqueKeys(acc) && forall i :: 0 <= i < |acc| ==> ReaderMade(acc[i].value)
    ensures ReaderMade(Obj(ReadMembers(s, acc).value))
    decreases |s|, 1
  {
    var e := ReadMember(s).value;
    ReadValueMakes(SkipSpace(SkipSpace(ReadString(s[1..]).rest)[1..]));
    PutUnique(acc, e);
    var all := Put(acc, e);
    forall i | 0 <= i < |all| ensures ReaderMade(all[i].value) {
      assert all[i] in all;
    }
    var t := SkipSpace(ReadMember(s).rest);
    if t[0] == ',' {
      ReadMembersMakes(SkipSpace(t[1..]), all);
    }
  }

  lemma {:induction false} ReadElementsMakes(s: string, acc: seq<Value>)
    requires ReadElements(s, acc).Got? && forall i :: 0 <= i < |acc| ==> ReaderMade(acc[i])
    ensures ReaderMade(Arr(ReadElements(s, acc).value))
    decreases |s|, 1
  {
    ReadValueMakes(s);
    var t := SkipSpace(ReadValue(s).rest);
    if t[0] == ',' {
      ReadElementsMakes(SkipSpace(t[1..]), acc + [ReadValue(s).value]);
    }
  }

  lemma ReadTextMakes(s: string)
    requires ReadText(s).Some?
    ensures ReaderMade(ReadText(s).value)
  {
    ReadValueMakes(SkipSpace(s));
  }

  // ---- Texts ----

  /** `parse` of this text gives this envelope. */
  predicate Parses(text: string, e: Envelope) {
    |Utf8.EncodeAll(text)| <= MAX_ENVELOPE_BYTES && ReadText(text).Some? && Describes(ReadText(text).value, e)
  }

  method Parse(text: string) returns (r: Result)
    ensures forall e :: r == Accepted(e) <==> Parses(text, e)
  {
    if |Utf8.EncodeAll(text)| > MAX_ENVELOPE_BYTES {
      return Invalid(TooLong);
    }
    var doc := ReadText(text);
    if doc.None? {
      return Invalid(NotJson);
    }
    ReadTextMakes(text);
    r := FromDict(doc.value);
  }

  // ---- Printing ----

  /** The object that is printed, in the order it is built. */
  function Doc(e: Envelope): Value {
    Obj([Entry("specversion", Str(SPEC_VERSION)),
         Entry("id", Str(e.id)),
         Entry("type", Str(e.kind)),
         Entry("source", Str(e.source)),
         Entry("occurred_at", Str(e.occurredAt)),
         Entry("correlation_id", Str(e.correlationId)),
         Entry("subject", Obj(SubjectEntries(e.subject)))])
  }

  lemma DocKeys(e: Envelope)
    ensures UniqueKeys(Doc(e).entries) && OnlyFields(Doc(e).entries)
  {
    var es := Doc(e).entries;
    assert es[0].key == "specversion" && es[1].key == "id" && es[2].key == "type" && es[3].key == "source";
    assert es[4].key == "occurred_at" && es[5].key == "correlation_id" && es[6].key == "subject";
  }

  lemma TimestampPrintable(s: string)
    requires ValidTimestamp(s)
    ensures PrintableText(s)
  {
    var tail := s[19..];
    assert PrintableText(tail);
    forall i | 0 <= i < |s| ensures Printable(s[i]) {
      if i >= 19 {
        assert s[i] == tail[i - 19];
      }
    }
  }

  lemma DocSimple(e: Envelope)
    requires Holds(e)
    ensures Simple(Doc(e)) && Plain(Doc(e))
  {
    DocKeys(e);
    FieldsPrintable(e);
    hide Holds, PrintableText, SubjectEntries, UniqueKeys;
    KeysPrintable();
    assert Simple(Doc(e)) by {
      var es := Doc(e).entries;
      forall i | 0 <= i < |es| ensures PrintableText(es[i].key) && Simple(es[i].value) {
        assert es[i].key in FIELDS;
      }
    }
    SimpleIsPlain(Doc(e));
  }

  lemma KeysPrintable()
    ensures forall key :: key in FIELDS ==> PrintableText(key)
    ensures PrintableText(SPEC_VERSION)
  {
    forall key | key in FIELDS ensures PrintableText(key) {
      assert forall i :: 0 <= i < |key| ==> Word(key[i]);
    }
  }

  lemma FieldsPrintable(e: Envelope)
    requires Holds(e)
    ensures PrintableText(e.id) && PrintableText(e.kind) && PrintableText(e.source)
    ensures PrintableText(e.occurredAt) && PrintableText(e.correlationId)
  {
    hide ValidTimestamp, SubjectHolds, Dots;
    TimestampPrintable(e.occurredAt);
  }

  function ToJson(e: Envelope): string
    requires Holds(e)
  {
    DocSimple(e);
    Canonical(Doc(e))
  }

  // ---- The round trip ----

  function Pairs(es: seq<Entry>): (ps: seq<(string, string)>)
  {
    seq(|es|, i requires 0 <= i < |es| => (es[i].key, if es[i].value.Str? then es[i].value.text else ""))
  }

  /** The same envelope with its subject's keys in order. */
  function Sorted(e: Envelope): Envelope {
    e.(subject := Pairs(Sort(SubjectEntries(e.subject))))
  }

  lemma SortedEntries(subject: seq<(string, string)>)
    requires UniqueKeys(SubjectEntries(subject))
    ensures SubjectEntries(Pairs(Sort(SubjectEntries(subject)))) == Sort(SubjectEntries(subject))
  {
    var es := SubjectEntries(subject);
    SortSorts(es);
    forall i | 0 <= i < |es| ensures Sort(es)[i].value.Str? {
      assert Sort(es)[i] in multiset(es);
    }
  }

  lemma SortedHolds(e: Envelope)
    requires Holds(e)
    ensures Holds(Sorted(e))
  {
    hide IsId, IsType, IsSource, ValidTimestamp, IsKind, IsSubjectKey, IsSubjectValue, Sort;
    SubjectSortedHolds(e.subject);
  }

  lemma SubjectSortedHolds(subject: seq<(string, string)>)
    requires SubjectHolds(subject)
    ensures SubjectHolds(Pairs(Sort(SubjectEntries(subject))))
  {
    hide IsKind, IsSubjectKey, IsSubjectValue, Sort;
    var es := SubjectEntries(subject);
    var sorted := Pairs(Sort(es));
    SortedEntries(subject);
    SortSorts(es);
    OrderedUnique(Sort(es));
    forall i | 0 <= i < |sorted| ensures IsSubjectKey(sorted[i].0) && IsSubjectValue(sorted[i].1) {
      assert SubjectEntries(sorted)[i] in multiset(es);
      var k :| 0 <= k < |es| && es[k] == SubjectEntries(sorted)[i];
      assert subject[k] == sorted[i];
    }
    var i :| 0 <= i < |subject| && subject[i].0 == "kind" && IsKind(subject[i].1);
    assert es[i] in multiset(SubjectEntries(sorted));
    var k :| 0 <= k < |sorted| && SubjectEntries(sorted)[k] == es[i];
    assert sorted[k] == subject[i];
  }

  lemma {:induction false} NormalEntryAt(es: seq<Entry>, i: nat)
    requires i < |es|
    ensures NormalEntries(es)[i] == Entry(es[i].key, Normal(es[i].value))
  {
    if i > 0 {
      NormalEntryAt(es[1..], i - 1);
    }
  }

  lemma NormalSubject(subject: seq<(string, string)>)
    ensures NormalEntries(SubjectEntries(subject)) == SubjectEntries(subject)
  {
    var es := SubjectEntries(subject);
    forall i | 0 <= i < |es| ensures NormalEntries(es)[i] == es[i] {
      NormalEntryAt(es, i);
    }
  }

  lemma NormalDoc(e: Envelope)
    requires UniqueKeys(SubjectEntries(e.subject))
    ensures Normal(Doc(e)) == Obj(Sort(Doc(Sorted(e)).entries))
  {
    var es, sorted := Doc(e).entries, Doc(Sorted(e)).entries;
    assert |es| == 7 && |sorted| == 7 && Normal(Doc(e)) == Obj(Sort(NormalEntries(es)));
    hide Doc, Normal, Sort, SubjectEntries, Pairs, NormalEntries;
    forall i | 0 <= i < 7 ensures NormalEntries(es)[i] == sorted[i] {
      NormalDocEntry(e, i);
    }
    assert NormalEntries(es) == sorted;
  }

  lemma NormalDocEntry(e: Envelope, i: nat)
    requires UniqueKeys(SubjectEntries(e.subject)) && i < 7
    ensures |Doc(e).entries| == 7 && |Doc(Sorted(e)).entries| == 7
    ensures NormalEntries(Doc(e).entries)[i] == Doc(Sorted(e)).entries[i]
  {
    var es, sorted := Doc(e).entries, Doc(Sorted(e)).entries;
    NormalSubject(e.subject);
    SortedEntries(e.subject);
    hide Sort, SubjectEntries, Pairs, NormalEntries;
    NormalEntryAt(es, i);
    assert i < 6 ==> es[i].value.Str? && es[i] == sorted[i];
  }

  lemma {:induction false} GetIs(es: seq<Entry>, key: string, v: Value)
    requires UniqueKeys(es) && Entry(key, v) in es
    ensures Get(es, key) == Some(v)
  {
    if es[0].key == key {
      var i :| 0 <= i < |es| && es[i] == Entry(key, v);
      assert i == 0;
    } else {
      assert Entry(key, v) in es[1..];
      GetIs(es[1..], key, v);
    }
  }

  /** Any object with the entries of the printed one, in whatever order, describes the
      envelope. */
  lemma ReorderedDescribes(es: seq<Entry>, e: Envelope)
    requires Holds(e) && UniqueKeys(es) && multiset(es) == multiset(Doc(e).entries)
    ensures Describes(Obj(es), e)
  {
    ReorderedFields(es, e);
    var doc := Doc(e);
    hide Holds, SubjectEntries, UniqueKeys, Get, OnlyFields, Doc;
    GetOf(es, doc.entries, "specversion", Str(SPEC_VERSION));
    GetOf(es, doc.entries, "id", Str(e.id));
    GetOf(es, doc.entries, "type", Str(e.kind));
    GetOf(es, doc.entries, "source", Str(e.source));
    GetOf(es, doc.entries, "occurred_at", Str(e.occurredAt));
    GetOf(es, doc.entries, "correlation_id", Str(e.correlationId));
    GetOf(es, doc.entries, "subject", Obj(SubjectEntries(e.subject)));
    hide Describes;
  }

  lemma GetOf(es: seq<Entry>, doc: seq<Entry>, key: string, v: Value)
    requires UniqueKeys(es) && multiset(es) == multiset(doc) && Entry(key, v) in doc
    ensures Get(es, key) == Some(v)
  {
    assert Entry(key, v) in multiset(es);
    GetIs(es, key, v);
  }

  lemma ReorderedFields(es: seq<Entry>, e: Envelope)
    requires multiset(es) == multiset(Doc(e).entries)
    ensures OnlyFields(es)
  {
    DocKeys(e);
    var own := Doc(e).entries;
    hide Doc;
    FieldsOfMultiset(es, own);
  }

  lemma FieldsOfMultiset(a: seq<Entry>, b: seq<Entry>)
    requires OnlyFields(b) && multiset(a) == multiset(b)
    ensures OnlyFields(a)
  {
    forall i | 0 <= i < |a| ensures a[i].key in FIELDS {
      assert a[i] in multiset(b);
      var k :| 0 <= k < |b| && b[k] == a[i];
    }
    forall k | 0 <= k < |FIELDS| ensures Has(a, FIELDS[k]) {
      HasOfMultiset(a, b, FIELDS[k]);
    }
  }

  lemma HasOfMultiset(a: seq<Entry>, b: seq<Entry>, key: string)
    requires Has(b, key) && multiset(a) == multiset(b)
    ensures Has(a, key)
  {
    var j :| 0 <= j < |b| && b[j].key == key;
    assert b[j] in multiset(a);
    var i :| 0 <= i < |a| && a[i] == b[j];
  }

  lemma PrintedDescribes(e: Envelope)
    requires Holds(e)
    ensures ReadText(ToJson(e)) == Some(Normal(Doc(e)))
    ensures Describes(Normal(Doc(e)), Sorted(e))
  {
    hide Sort, Normal, Canonical;
    DocSimple(e);
    CanonicalReads(Doc(e));
    SortedHolds(e);
    DocKeys(Sorted(e));
    var es := Doc(Sorted(e)).entries;
    SortSorts(es);
    OrderedUnique(Sort(es));
    NormalDoc(e);
    ReorderedDescribes(Sort(es), Sorted(e));
  }

  // ---- The length ----

  predicate Ascii(s: string) {
    forall i :: 0 <= i < |s| ==> ' ' <= s[i] <= '~'
  }

  lemma HexDigitAscii(n: Nibble)
    ensures ' ' <= HexDigit(n) <= '~'
  {
  }

  lemma UnitAscii(u: CodeUnit)
    ensures Ascii(Unit(u))
  {
    var q := u / 16;
    var p := q / 16;
    HexDigitAscii(p / 16);
    HexDigitAscii(p % 16);
    HexDigitAscii(q % 16);
    HexDigitAscii(u % 16);
    hide HexDigit;
    assert Unit(u) == ['\\', 'u', HexDigit(p / 16), HexDigit(p % 16), HexDigit(q % 16), HexDigit(u % 16)];
  }

  lemma WriteCharAscii(c: char)
    ensures Ascii(WriteChar(c))
  {
    hide Unit;
    var n := c as int;
    if n < 0x1_0000 {
      UnitAscii(n);
    } else {
      UnitAscii(0xD800 + (n - 0x1_0000) / 0x400);
      UnitAscii(0xDC00 + (n - 0x1_0000) % 0x400);
    }
  }

  lemma {:induction false} WriteCharsAscii(s: string)
    ensures Ascii(WriteChars(s))
  {
    if s != "" {
      WriteCharAscii(s[0]);
      WriteCharsAscii(s[1..]);
    }
  }

  /** Whatever the text, canonical JSON is printable ASCII. */
  lemma {:induction false} WriteAscii(v: Value)
    requires Plain(v)
    ensures Ascii(Write(v))
    decreases v, 0
  {
    match v
    case Str(text) => WriteCharsAscii(text);
    case Literal(_) =>
    case Arr(items) =>
      if items != [] {
        WriteItemsAscii(items);
      }
    case Obj(entries) =>
      if entries != [] {
        WriteEntriesAscii(entries);
      }
  }

  lemma {:induction false} WriteItemsAscii(items: seq<Value>)
    requires items != [] && forall i :: 0 <= i < |items| ==> Plain(items[i])
    ensures Ascii(WriteItems(items))
    decreases items, 1
  {
    WriteAscii(items[0]);
    if |items| > 1 {
      WriteItemsAscii(items[1..]);
    }
  }

  lemma {:induction false} WriteEntriesAscii(es: seq<Entry>)
    requires es != [] && forall i :: 0 <= i < |es| ==> Plain(es[i].value)
    ensures Ascii(WriteEntries(es))
    decreases es, 1
  {
    WriteCharsAscii(es[0].key);
    WriteAscii(es[0].value);
    if |es| > 1 {
      WriteEntriesAscii(es[1..]);
    }
  }

  lemma {:induction false} EncodedLength(s: string)
    ensures |s| <= |Utf8.EncodeAll(s)|
    ensures Ascii(s) ==> |s| == |Utf8.EncodeAll(s)|
  {
    if s != "" {
      EncodedLength(s[1..]);
      assert |Utf8.Encode(s[0])| >= 1 && (Ascii(s) ==> s[0] as int < 0x80 && Ascii(s[1..]));
    }
  }

  lemma SameEntries(a: seq<Entry>, b: seq<Entry>)
    requires UniqueKeys(a) && UniqueKeys(b) && forall x :: x in a <==> x in b
    ensures multiset(a) == multiset(b)
  {
    forall x ensures multiset(a)[x] == multiset(b)[x] {
      UniqueCount(a, x);
      UniqueCount(b, x);
    }
  }

  lemma {:induction false} UniqueCount(a: seq<Entry>, x: Entry)
    requires UniqueKeys(a)
    ensures multiset(a)[x] == if x in a then 1 else 0
  {
    if a != [] {
      UniqueCount(a[1..], x);
      assert a == [a[0]] + a[1..];
      assert forall j :: 0 < j < |a| ==> a[j].key != a[0].key;
    }
  }

  /** A described object has the printed object's entries. */
  lemma DescribedEntries(doc: Value, e: Envelope)
    requires Describes(doc, e) && UniqueKeys(doc.entries)
    ensures multiset(doc.entries) == multiset(Doc(e).entries)
  {
    hide Holds, SubjectEntries, ReaderMade;
    var es, own := doc.entries, Doc(e).entries;
    DocKeys(e);
    forall x | x in own ensures x in es {
      GetMember(es, x.key);
    }
    forall x | x in es ensures x in own {
      DescribedEntry(doc, e, x);
    }
    SameEntries(es, own);
  }

  lemma DescribedEntry(doc: Value, e: Envelope, x: Entry)
    requires Describes(doc, e) && UniqueKeys(doc.entries) && x in doc.entries
    ensures x in Doc(e).entries
  {
    hide Holds, SubjectEntries, ReaderMade;
    var es, own := doc.entries, Doc(e).entries;
    DocKeys(e);
    var i :| 0 <= i < |es| && es[i] == x;
    var k :| 0 <= k < |FIELDS| && FIELDS[k] == x.key;
    var j :| 0 <= j < |own| && own[j].key == FIELDS[k];
    GetIs(es, x.key, x.value);
  }

  /** The canonical text of an accepted envelope is no longer than any text that was accepted
      for it, and so is itself within the limit. */
  lemma NeverLonger(text: string, e: Envelope)
    requires Parses(text, e)
    ensures |Utf8.EncodeAll(ToJson(e))| <= |Utf8.EncodeAll(text)|
  {
    hide Holds, Describes;
    var doc := ReadText(text).value;
    assert doc.Obj? && Describes(doc, e) && Holds(e) by {
      DescribedHolds(doc, e);
    }
    ReadTextMakes(text);
    DescribedEntries(doc, e);
    LeastOfMultiset(doc.entries, Doc(e).entries);
    TextTakes(text);
    DocSimple(e);
    NormalSimple(Doc(e));
    NormalPlain(Doc(e));
    WritesLeast(Normal(Doc(e)));
    WriteAscii(Normal(Doc(e)));
    EncodedLength(ToJson(e));
    EncodedLength(text);
  }

  lemma DescribedHolds(doc: Value, e: Envelope)
    requires Describes(doc, e)
    ensures doc.Obj? && Holds(e)
  {
  }

  /** Printing an accepted envelope gives a text that is accepted as the same envelope, its
      subject's keys in order. */
  lemma RoundTrip(text: string, e: Envelope)
    requires Parses(text, e)
    ensures Holds(e) && Parses(ToJson(e), Sorted(e))
    ensures multiset(SubjectEntries(Sorted(e).subject)) == multiset(SubjectEntries(e.subject))
  {
    DescribedHolds(ReadText(text).value, e);
    hide Holds, Describes;
    NeverLonger(text, e);
    PrintedDescribes(e);
    SortedEntries(e.subject);
    SortSorts(SubjectEntries(e.subject));
  }

  /** Equal but for the order of the subject's keys. */
  predicate SameEnvelope(a: Envelope, b: Envelope) {
    a.(subject := []) == b.(subject := [])
    && multiset(SubjectEntries(a.subject)) == multiset(SubjectEntries(b.subject))
  }

  /** The text says the envelope and nothing else: it is the same exactly for envelopes that
      differ at most in the order of the subject's keys. */
  lemma OrderDoesNotMatter(a: Envelope, b: Envelope)
    requires Holds(a) && Holds(b)
    ensures ToJson(a) == ToJson(b) <==> SameEnvelope(a, b)
  {
    hide Holds, ToJson;
    if SameEnvelope(a, b) {
      SamePrints(a, b);
    }
    if ToJson(a) == ToJson(b) {
      PrintsSame(a, b);
    }
  }

  lemma SamePrints(a: Envelope, b: Envelope)
    requires Holds(a) && Holds(b) && SameEnvelope(a, b)
    ensures ToJson(a) == ToJson(b)
  {
    SortSame(SubjectEntries(a.subject), SubjectEntries(b.subject));
    NormalDoc(a);
    NormalDoc(b);
    assert Sorted(a) == Sorted(b);
    DocSimple(a);
    DocSimple(b);
    hide Holds, Doc, Normal, Sort, Plain;
  }

  lemma PrintsSame(a: Envelope, b: Envelope)
    requires Holds(a) && Holds(b) && ToJson(a) == ToJson(b)
    ensures SameEnvelope(a, b)
  {
    PrintedDescribes(a);
    PrintedDescribes(b);
    SortedEntries(a.subject);
    SortedEntries(b.subject);
    SortSorts(SubjectEntries(a.subject));
    SortSorts(SubjectEntries(b.subject));
    hide Holds, Describes, ToJson, Normal, Sort, SubjectEntries, Pairs;
    hide Doc;
    assert Sorted(a).(subject := []) == a.(subject := []) && Sorted(b).(subject := []) == b.(subject := []);
  }

}
