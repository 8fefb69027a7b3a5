/** The group's pending list as the two paging loops see it: one consumer's own entries
    (XREADGROUP with an id) and everybody's idle entries (XPENDING). */
module PendingList {
  import opened Delivery

  /** Entry `i` of the stream is pending for this consumer. */
  predicate Held(v: Store, c: Consumer, st: Stream, i: nat) {
    Entry(st, i) in v.pending && v.pending[Entry(st, i)] == c
  }

  /** XREADGROUP with an id: the first `n` of a consumer's own entries from position `from` on. */
  function OwnPage(v: Store, c: Consumer, st: Stream, from: nat, n: nat): seq<Entry>
    decreases if st in v.logs then |v.logs[st]| - from else 0
  {
    if n == 0 || st !in v.logs || from >= |v.logs[st]| then []
    else if Held(v, c, st, from) then [Entry(st, from)] + OwnPage(v, c, st, from + 1, n - 1)
    else OwnPage(v, c, st, from + 1, n)
  }

  /** In order of position along one stream, from `from` on. */
  ghost predicate Ascending(es: seq<Entry>, st: Stream, from: nat) {
    && (forall i :: 0 <= i < |es| ==> es[i].stream == st && from <= es[i].index)
    && (forall i, j :: 0 <= i < j < |es| ==> es[i].index < es[j].index)
  }

  lemma {:induction false} OwnPageHolds(v: Store, c: Consumer, st: Stream, from: nat, n: nat)
    ensures
      var es := OwnPage(v, c, st, from, n);
      && Ascending(es, st, from) && |es| <= n
      && (forall e :: e in es ==> e in v.pending && v.pending[e] == c)
    decreases if st in v.logs then |v.logs[st]| - from else 0
  {
    if n == 0 || st !in v.logs || from >= |v.logs[st]| {
    } else if Held(v, c, st, from) {
      OwnPageHolds(v, c, st, from + 1, n - 1);
    } else {
      OwnPageHolds(v, c, st, from + 1, n);
    }
  }

  /** A page leaves out no entry up to its last one, and a short page none at all. */
  lemma {:induction false} OwnPageComplete(v: Store, c: Consumer, st: Stream, from: nat, n: nat, i: nat)
    requires st in v.logs && from <= i < |v.logs[st]| && Held(v, c, st, i)
    ensures
      var es := OwnPage(v, c, st, from, n);
      |es| < n || (n > 0 && i <= es[|es| - 1].index) ==> Entry(st, i) in es
    decreases |v.logs[st]| - from
  {
    var es := OwnPage(v, c, st, from, n);
    if n > 0 && i > from {
      if Held(v, c, st, from) {
        OwnPageComplete(v, c, st, from + 1, n - 1, i);
        OwnPageHolds(v, c, st, from + 1, n - 1);
        if n == 1 {
          assert OwnPage(v, c, st, from + 1, 0) == [];
          assert es == [Entry(st, from)];
        }
      } else {
        OwnPageComplete(v, c, st, from + 1, n, i);
      }
    }
  }

  /** All idle entries of a stream from a position on, in order. */
  function Rows(v: Store, st: Stream, idle: set<Entry>, from: nat): seq<Entry>
    decreases if st in v.logs then |v.logs[st]| - from else 0
  {
    if st !in v.logs || from >= |v.logs[st]| then []
    else if Entry(st, from) in v.pending && Entry(st, from) in idle then [Entry(st, from)] + Rows(v, st, idle, from + 1)
    else Rows(v, st, idle, from + 1)
  }

  lemma {:induction false} RowsHold(v: Store, st: Stream, idle: set<Entry>, from: nat)
    ensures Ascending(Rows(v, st, idle, from), st, from)
    ensures forall e :: e in Rows(v, st, idle, from) ==> e in v.pending
    decreases if st in v.logs then |v.logs[st]| - from else 0
  {
    if st in v.logs && from < |v.logs[st]| {
      RowsHold(v, st, idle, from + 1);
    }
  }

  /** A page that starts just after row number `k` is what is left of the list after it. */
  lemma {:induction false} RowsResume(v: Store, st: Stream, idle: set<Entry>, from: nat, k: nat)
    requires k < |Rows(v, st, idle, from)|
    ensures Rows(v, st, idle, Rows(v, st, idle, from)[k].index + 1) == Rows(v, st, idle, from)[k + 1..]
    decreases if st in v.logs then |v.logs[st]| - from else 0
  {
    if Entry(st, from) in v.pending && Entry(st, from) in idle {
      var rest := Rows(v, st, idle, from + 1);
      if k > 0 {
        RowsResume(v, st, idle, from + 1, k - 1);
        assert Rows(v, st, idle, from)[k + 1..] == rest[k..];
      }
    } else {
      RowsResume(v, st, idle, from + 1, k);
    }
  }

  /** The rows owned by another consumer. */
  function Foreign(v: Store, c: Consumer, rows: seq<Entry>): seq<Entry> {
    if rows == [] then []
    else Foreign(v, c, rows[..|rows| - 1])
         + (if Owned(v, c, rows[|rows| - 1]) then [] else [rows[|rows| - 1]])
  }

  predicate Owned(v: Store, c: Consumer, e: Entry) {
    e in v.pending && v.pending[e] == c
  }

  function First<T>(n: nat, s: seq<T>): seq<T> {
    if n <= |s| then s[..n] else s
  }

  lemma {:induction false} ForeignGrows(v: Store, c: Consumer, rows: seq<Entry>, k: nat)
    requires k <= |rows|
    ensures Foreign(v, c, rows[..k]) <= Foreign(v, c, rows)
    decreases |rows|
  {
    if k < |rows| {
      ForeignGrows(v, c, rows[..|rows| - 1], k);
      assert rows[..|rows| - 1][..k] == rows[..k];
    } else {
      assert rows[..k] == rows;
    }
  }

  lemma {:induction false} ForeignMembers(v: Store, c: Consumer, rows: seq<Entry>, st: Stream, from: nat)
    requires Ascending(rows, st, from)
    ensures Ascending(Foreign(v, c, rows), st, from)
    ensures forall e :: e in Foreign(v, c, rows) <==> e in rows && !Owned(v, c, e)
  {
    if rows != [] {
      var front := rows[..|rows| - 1];
      ForeignMembers(v, c, front, st, from);
      assert rows == front + [rows[|rows| - 1]];
      forall e | e in front ensures e.index < rows[|rows| - 1].index {
        var i :| 0 <= i < |front| && front[i] == e;
      }
    }
  }

  lemma {:induction false} ForeignConcat(v: Store, c: Consumer, a: seq<Entry>, b: seq<Entry>)
    ensures Foreign(v, c, a + b) == Foreign(v, c, a) + Foreign(v, c, b)
  {
    if b == [] {
      assert a + b == a;
    } else {
      assert (a + b)[..|a + b| - 1] == a + b[..|b| - 1];
      ForeignConcat(v, c, a, b[..|b| - 1]);
    }
  }

  /** What was found in a first part of the rows is what is found in all of them, once it is enough. */
  lemma FoundEnough(v: Store, c: Consumer, rows: seq<Entry>, k: nat, limit: nat)
    requires k <= |rows| && |Foreign(v, c, rows[..k])| >= limit
    ensures First(limit, Foreign(v, c, rows[..k])) == First(limit, Foreign(v, c, rows))
  {
    ForeignGrows(v, c, rows, k);
  }

  /** The rows of the page that starts after the first `seen` ones. */
  lemma PageExtends(v: Store, c: Consumer, rows: seq<Entry>, seen: nat, n: nat, most: nat)
    requires seen <= |rows| && seen + n <= most
    ensures
      var page := First(n, rows[seen..]);
      && seen + |page| <= |rows|
      && Foreign(v, c, rows[..seen + |page|]) == Foreign(v, c, rows[..seen]) + Foreign(v, c, page)
      && First(most, rows)[..seen + |page|] == rows[..seen + |page|]
      && (|page| < n || seen + |page| == most ==> First(most, rows) == rows[..seen + |page|])
  {
    var page := First(n, rows[seen..]);
    assert rows[..seen + |page|] == rows[..seen] + page;
    ForeignConcat(v, c, rows[..seen], page);
  }

  // ---- One round of re-reading this consumer's own entries ----

  /** One read of every stream still under way, each from its cursor. */
  function RoundPage(v: Store, c: Consumer, cursors: map<Stream, nat>, sts: seq<Stream>, n: nat): seq<Entry> {
    if sts == [] then []
    else
      var st := sts[|sts| - 1];
      RoundPage(v, c, cursors, sts[..|sts| - 1], n)
      + (if st in cursors then OwnPage(v, c, st, cursors[st], n) else [])
  }

  /** A stream that returned entries goes on after the last one; one that did not is finished. */
  function Advance(v: Store, c: Consumer, cursors: map<Stream, nat>, n: nat): map<Stream, nat> {
    map st | st in cursors && OwnPage(v, c, st, cursors[st], n) != [] ::
      var es := OwnPage(v, c, st, cursors[st], n); es[|es| - 1].index + 1
  }

  /** The cursors have passed the entry. */
  ghost predicate Past(cursors: map<Stream, nat>, e: Entry) {
    e.stream !in cursors || e.index < cursors[e.stream]
  }

  ghost predicate InOrder(es: seq<Entry>) {
    forall i, j :: 0 <= i < j < |es| && es[i].stream == es[j].stream ==> es[i].index < es[j].index
  }

  lemma {:induction false} RoundPageHolds(v: Store, c: Consumer, cursors: map<Stream, nat>, sts: seq<Stream>, n: nat)
    requires forall i, j :: 0 <= i < j < |sts| ==> sts[i] != sts[j]
    ensures
      var es := RoundPage(v, c, cursors, sts, n);
      && InOrder(es)
      && forall e :: e in es ==> e.stream in sts && !Past(cursors, e) && Owned(v, c, e)
  {
    if sts != [] {
      var last := |sts| - 1;
      RoundPageHolds(v, c, cursors, sts[..last], n);
      if sts[last] in cursors {
        OwnPageHolds(v, c, sts[last], cursors[sts[last]], n);
        assert forall e :: e in OwnPage(v, c, sts[last], cursors[sts[last]], n) ==> e.stream == sts[last];
      }
    }
  }

  lemma {:induction false} InRoundPage(v: Store, c: Consumer, cursors: map<Stream, nat>, sts: seq<Stream>, n: nat, e: Entry)
    requires e.stream in sts && e.stream in cursors && e in OwnPage(v, c, e.stream, cursors[e.stream], n)
    ensures e in RoundPage(v, c, cursors, sts, n)
  {
    if sts[|sts| - 1] != e.stream {
      InRoundPage(v, c, cursors, sts[..|sts| - 1], n, e);
    }
  }

  /** Whatever the cursors pass in a round was returned by it. */
  lemma RoundCovers(v: Store, c: Consumer, cursors: map<Stream, nat>, sts: seq<Stream>, n: nat, e: Entry)
    requires n > 0 && e.stream in sts && e.stream in v.logs && e.index < |v.logs[e.stream]| && Owned(v, c, e)
    requires !Past(cursors, e) && Past(Advance(v, c, cursors, n), e)
    ensures e in RoundPage(v, c, cursors, sts, n)
  {
    assert Held(v, c, e.stream, e.index) by { assert e == Entry(e.stream, e.index); }
    OwnPageComplete(v, c, e.stream, cursors[e.stream], n, e.index);
    InRoundPage(v, c, cursors, sts, n, e);
  }

  /** Cursors only move forward, past everything returned. */
  lemma RoundPasses(v: Store, c: Consumer, cursors: map<Stream, nat>, n: nat, e: Entry)
    requires Past(cursors, e) || e in OwnPage(v, c, e.stream, cursors[e.stream], n)
    ensures Past(Advance(v, c, cursors, n), e)
  {
    if e.stream in cursors {
      var es := OwnPage(v, c, e.stream, cursors[e.stream], n);
      OwnPageHolds(v, c, e.stream, cursors[e.stream], n);
      if e in es {
        var i :| 0 <= i < |es| && es[i] == e;
      }
    }
  }

  lemma {:induction false} RoundPageParts(v: Store, c: Consumer, cursors: map<Stream, nat>, sts: seq<Stream>, n: nat, e: Entry)
    requires e in RoundPage(v, c, cursors, sts, n)
    ensures e.stream in cursors && e in OwnPage(v, c, e.stream, cursors[e.stream], n)
  {
    var st := sts[|sts| - 1];
    if e in RoundPage(v, c, cursors, sts[..|sts| - 1], n) {
      RoundPageParts(v, c, cursors, sts[..|sts| - 1], n, e);
    } else {
      OwnPageHolds(v, c, st, cursors[st], n);
    }
  }

  /** Own entries a recovery has still to come to. */
  ghost function Unvisited(v: Store, c: Consumer, cursors: map<Stream, nat>): set<Entry> {
    set e | e in v.pending && Owned(v, c, e) && !Past(cursors, e)
  }

  ghost function Work(v: Store, c: Consumer, cursors: map<Stream, nat>): nat {
    |Unvisited(v, c, cursors)| + |cursors|
  }

  lemma {:induction false} SubsetSize<T>(a: set<T>, b: set<T>)
    requires a <= b
    ensures |a| <= |b|
  {
    if a != {} {
      var x :| x in a;
      SubsetSize(a - {x}, b - {x});
    }
  }

  lemma ProperSubsetSize<T>(a: set<T>, b: set<T>, x: T)
    requires a <= b && x in b && x !in a
    ensures |a| < |b|
  {
    SubsetSize(a, b - {x});
  }

  /** Every round leaves less to do, while pending entries only go away. */
  lemma RoundShrinks(v: Store, w: Store, c: Consumer, cursors: map<Stream, nat>, sts: seq<Stream>, n: nat)
    requires cursors != map[] && (forall st :: st in cursors ==> st in sts)
    requires forall e :: e in w.pending ==> e in v.pending && w.pending[e] == v.pending[e]
    requires forall i, j :: 0 <= i < j < |sts| ==> sts[i] != sts[j]
    ensures Work(w, c, Advance(v, c, cursors, n)) < Work(v, c, cursors)
  {
    var later := Advance(v, c, cursors, n);
    var before, after := Unvisited(v, c, cursors), Unvisited(w, c, later);
    forall e | e in after ensures e in before {
      if Past(cursors, e) { RoundPasses(v, c, cursors, n, e); }
    }
    assert later.Keys <= cursors.Keys;
    SubsetSize(later.Keys, cursors.Keys);
    SubsetSize(after, before);
    assert |later| == |later.Keys| && |cursors| == |cursors.Keys|;
    var page := RoundPage(v, c, cursors, sts, n);
    if page != [] {
      RoundPageHolds(v, c, cursors, sts, n);
      assert page[0] in page;
      RoundPageParts(v, c, cursors, sts, n, page[0]);
      RoundPasses(v, c, cursors, n, page[0]);
      ProperSubsetSize(after, before, page[0]);
    } else {
      var st :| st in cursors;
      if st in later {
        var es := OwnPage(v, c, st, cursors[st], n);
        OwnPageHolds(v, c, st, cursors[st], n);
        InRoundPage(v, c, cursors, sts, n, es[0]);
        assert false;
      }
      ProperSubsetSize(later.Keys, cursors.Keys, st);
    }
  }
}
