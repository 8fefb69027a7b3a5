/** The two ends of a slot's requests: the slot's `rpc`, which resends under one id until an
    answer to it is read, and the ingester, which applies what the slots appended. */
module SlotLinks {

  import opened Wrappers
  import opened SlotRequests

  const BATCH: nat := 100

  /** What becomes of a command sent over a connection that may fail. */
  datatype Fate = Arrived | LostBefore | LostAfter

  class Valkey {
    const rules: Rules
    var slots: map<Name, Slot>

    constructor (rules: Rules, names: set<Name>)
      ensures this.rules == rules && slots.Keys == names && AllInv()
    {
      this.rules := rules;
      slots := map n | n in names :: NEW_SLOT;
    }

    ghost predicate AllInv()
      reads this
    {
      forall n :: n in slots ==> Inv(rules, slots[n])
    }

    /** One slot's keys replaced, in one step. */
    method Set(n: Name, s: Slot)
      requires AllInv() && n in slots && Inv(rules, s) && Later(slots[n], s)
      modifies this
      ensures AllInv() && slots == old(slots)[n := s] && Grown(old(slots), slots)
    {
      hide Inv;
      forall m | m in slots ensures Later(slots[m], slots[m]) {
        LaterSelf(slots[m]);
      }
      hide Later;
      slots := slots[n := s];
    }
  }

  /** No cursor is ahead of its slot's checkpoint. */
  ghost predicate Behind(cursors: map<Name, nat>, slots: map<Name, Slot>) {
    forall n :: n in cursors ==> n in slots && cursors[n] <= slots[n].checkpoint
  }

  lemma BehindStill(cursors: map<Name, nat>, a: map<Name, Slot>, b: map<Name, Slot>)
    requires Behind(cursors, a) && Grown(a, b)
    ensures Behind(cursors, b)
  {
    forall n | n in cursors ensures n in b && cursors[n] <= b[n].checkpoint {
      assert Later(a[n], b[n]);
    }
  }

  /** The same slots, nothing taken back. */
  ghost predicate Grown(a: map<Name, Slot>, b: map<Name, Slot>) {
    a.Keys == b.Keys && forall n :: n in a ==> Later(a[n], b[n])
  }

  /** Only requests came in or were trimmed. */
  ghost predicate OnlyRequests(s: Slot, t: Slot) {
    Later(s, t) && t == s.(out := t.out, dropped := t.dropped)
  }

  // ---- Reading a request stream ----

  /** The first `limit` entries from `from` on that were not trimmed. */
  function Present(s: Slot, from: nat, limit: nat): seq<nat>
    decreases |s.out| - from
  {
    if limit == 0 || from >= |s.out| then []
    else if from in s.dropped then Present(s, from + 1, limit)
    else [from] + Present(s, from + 1, limit - 1)
  }

  /** In order, and nothing left out but what was trimmed or lies beyond the batch. */
  ghost predicate ReadsFrom(s: Slot, from: nat, es: seq<nat>) {
    (forall j :: 0 <= j < |es| ==> from <= es[j] < |s.out|)
    && (forall j, k :: 0 <= j < k < |es| ==> es[j] < es[k])
    && (forall k :: from <= k < |s.out| && k !in s.dropped && k !in es ==> |es| > 0 && es[|es| - 1] < k)
  }

  lemma {:induction false} PresentReads(s: Slot, from: nat, limit: nat)
    requires limit > 0
    ensures ReadsFrom(s, from, Present(s, from, limit))
    decreases |s.out| - from
  {
    if from < |s.out| {
      if from in s.dropped {
        PresentReads(s, from + 1, limit);
      } else if limit > 1 {
        PresentReads(s, from + 1, limit - 1);
        ReadsOneMore(s, from, Present(s, from + 1, limit - 1));
      } else {
        assert Present(s, from, limit) == [from];
      }
    }
  }

  lemma ReadsOneMore(s: Slot, from: nat, rest: seq<nat>)
    requires ReadsFrom(s, from + 1, rest) && from < |s.out|
    ensures ReadsFrom(s, from, [from] + rest)
  {
    var es := [from] + rest;
    forall k | from <= k < |s.out| && k !in s.dropped && k !in es
      ensures es[|es| - 1] < k
    {
      assert es[0] == from && k != from;
      assert k !in rest;
    }
  }

  /** Once the batch before entry `j` is done with, nothing unread lies before it, however much
      has come in since the batch was read. */
  lemma TurnComes(seen: Slot, now: Slot, from: nat, es: seq<nat>, j: nat)
    requires ReadsFrom(seen, from, es) && Later(seen, now) && j < |es|
    requires from <= now.checkpoint && forall k :: 0 <= k < j ==> es[k] < now.checkpoint
    ensures InTurn(now, es[j])
  {
    forall k | now.checkpoint <= k < es[j] ensures k in now.dropped {
      assert forall i :: 0 <= i < |es| && es[i] < es[j] ==> i < j;
    }
  }

  lemma GrownSelf(a: map<Name, Slot>)
    ensures Grown(a, a)
  {
  }

  lemma GrownAgain(a: map<Name, Slot>, b: map<Name, Slot>, c: map<Name, Slot>)
    requires Grown(a, b) && Grown(b, c)
    ensures Grown(a, c)
  {
    forall n | n in a ensures Later(a[n], c[n]) {
      LaterAgain(a[n], b[n], c[n]);
    }
  }

  lemma TurnStays(rules: Rules, s: Slot, t: Slot, i: nat)
    requires InTurn(s, i) && OnlyRequests(s, t)
    ensures InTurn(t, i) && (Runs(rules, s, i) <==> Runs(rules, t, i))
  {
  }

  /** An entry behind the checkpoint: handing it over is without effect, whatever would come of it. */
  lemma DoneStays(rules: Rules, s: Slot, t: Slot, i: nat)
    requires InTurn(s, i) && OnlyRequests(s, t)
    ensures i < s.checkpoint ==> !Runs(rules, t, i) && forall result :: Ingest(rules, t, i, result) == t
  {
  }

  /** The entry's request has taken effect. */
  ghost predicate Effected(s: Slot, i: nat) {
    exists e :: e in s.applied && e.entry == i
  }

  /** The entry's request is answered, for good, with a handler error. */
  ghost predicate Refuses(s: Slot, i: nat) {
    i < |s.out| && s.out[i].rid in s.memo
    && s.memo[s.out[i].rid] == Memo(s.out[i].fn, s.out[i].args, Rejected(HANDLER_ERROR))
  }

  lemma IngestPasses(rules: Rules, s: Slot, i: nat, result: Option<string>)
    requires i < |s.out|
    ensures var t := Ingest(rules, s, i, result);
            if Runs(rules, s, i) && result.None? then t == s else i < t.checkpoint
    ensures Runs(rules, s, i) && result.Some? ==> Effected(Ingest(rules, s, i, result), i)
  {
    if Runs(rules, s, i) && result.Some? {
      var t := Ingest(rules, s, i, result);
      assert t.applied[|s.applied|].entry == i;
    }
  }

  lemma PoisonPasses(rules: Rules, s: Slot, i: nat)
    requires i < |s.out|
    ensures i < Poison(rules, s, i).checkpoint
    ensures Runs(rules, s, i) ==> Refuses(Poison(rules, s, i), i)
  {
  }

  lemma RequestsStill(a: map<Name, Slot>, b: map<Name, Slot>, c: map<Name, Slot>, name: Name)
    requires Grown(a, b) && Grown(b, c) && name in b
    requires forall n :: n in b ==> OnlyRequests(a[n], b[n])
    requires c == b[name := c[name]] && OnlyRequests(b[name], c[name])
    ensures Grown(a, c) && forall n :: n in c ==> OnlyRequests(a[n], c[n])
  {
    GrownAgain(a, b, c);
    forall n | n in c ensures OnlyRequests(a[n], c[n]) {
      LaterAgain(a[n], b[n], c[n]);
    }
  }

  // ---- The ingester ----

  class Ingester {
    const valkey: Valkey
    var cursors: map<Name, nat>
    ghost var lost: nat  // how many commands have had no answer

    constructor (valkey: Valkey)
      requires valkey.AllInv()
      ensures this.valkey == valkey && cursors == map[] && Valid()
    {
      this.valkey, cursors, lost := valkey, map[], 0;
    }

    /** A cursor is never ahead of the checkpoint. */
    ghost predicate Valid()
      reads this, valkey
    {
      valkey.AllInv() && Behind(cursors, valkey.slots)
    }

    /** The slots append and trim meanwhile; only one ingester runs. */
    method Meanwhile()
      requires Valid()
      modifies valkey
      ensures Valid() && Grown(old(valkey.slots), valkey.slots)
      ensures forall n :: n in valkey.slots ==> OnlyRequests(old(valkey.slots)[n], valkey.slots[n])
    {
      var n: nat := *;
      hide Inv;
      while n > 0
        invariant Valid() && Grown(old(valkey.slots), valkey.slots)
        invariant forall n :: n in valkey.slots ==> OnlyRequests(old(valkey.slots)[n], valkey.slots[n])
      {
        var name: Name, q: Request, entries: set<nat> := *, *, *;
        if name in valkey.slots {
          ghost var before := valkey.slots;
          var s := valkey.slots[name];
          ClientKeeps(valkey.rules, s, q, entries);
          hide Later;
          if * {
            valkey.Set(name, s.(out := s.out + [q]));
          } else {
            valkey.Set(name, s.(dropped := s.dropped + entries));
          }
          RequestsStill(old(valkey.slots), before, valkey.slots, name);
          BehindStill(cursors, before, valkey.slots);
        }
        n := n - 1;
      }
    }

    method Cursor(slot: Name) returns (c: Option<nat>)
      requires Valid() && slot in valkey.slots
      modifies this`cursors, this`lost
      ensures Valid()
      ensures slot in old(cursors) ==> c == Some(old(cursors)[slot])
      ensures slot !in old(cursors) && c.Some? ==> c.value == valkey.slots[slot].checkpoint
      ensures cursors == if c.Some? then old(cursors)[slot := c.value] else old(cursors)
      ensures lost == old(lost) + (if c.Some? then 0 else 1)
    {
      if slot !in cursors {
        var answered: bool := *;
        if !answered {
          lost := lost + 1;
          return None;
        }
        cursors := cursors[slot := valkey.slots[slot].checkpoint];
      }
      return Some(cursors[slot]);
    }

    /** One request handed over. When this returns true the entry is behind the checkpoint: a
        request that could run has run, once, or its handler raised and the rejection is
        remembered. When it does not (the connection failed) the entry may or may not be done. */
    method Apply(slot: Name, entry: nat) returns (ok: bool, ghost raised: bool)
      requires Valid() && slot in valkey.slots && InTurn(valkey.slots[slot], entry)
      modifies this`cursors, this`lost, valkey
      ensures Valid() && Grown(old(valkey.slots), valkey.slots)
      ensures ok ==> entry < valkey.slots[slot].checkpoint && slot in cursors && cursors[slot] == entry + 1
      ensures ok && Runs(valkey.rules, old(valkey.slots)[slot], entry) ==>
                if raised then Refuses(valkey.slots[slot], entry) else Effected(valkey.slots[slot], entry)
      ensures forall n :: n in old(cursors) ==> n in cursors
      ensures lost >= old(lost) + (if ok then 0 else 1)
      ensures entry < old(valkey.slots)[slot].checkpoint ==> OnlyRequests(old(valkey.slots)[slot], valkey.slots[slot])
    {
      hide Inv, Later, Runs, Refuses, Effected, OnlyRequests;
      var threw: bool;
      ok, threw := CallIngest(slot, entry);
      raised := threw;
      BehindStill(cursors, old(valkey.slots), valkey.slots);
      if ok && threw {
        ghost var before := valkey.slots;
        ok := RecordFailure(slot, entry);
        GrownAgain(old(valkey.slots), before, valkey.slots);
      }
      if ok {
        cursors := cursors[slot := entry + 1];
      }
    }

    /** The call that applies, stores and answers, all in one. */
    method CallIngest(slot: Name, entry: nat) returns (ok: bool, raised: bool)
      requires Valid() && slot in valkey.slots && InTurn(valkey.slots[slot], entry)
      modifies this`lost, valkey
      ensures Valid() && Grown(old(valkey.slots), valkey.slots)
      ensures ok && !raised ==> entry < valkey.slots[slot].checkpoint
      ensures ok && !raised && Runs(valkey.rules, old(valkey.slots)[slot], entry) ==> Effected(valkey.slots[slot], entry)
      ensures ok && raised ==> InTurn(valkey.slots[slot], entry) && Runs(valkey.rules, valkey.slots[slot], entry)
      ensures lost >= old(lost) + (if ok then 0 else 1)
      ensures entry < old(valkey.slots)[slot].checkpoint ==> OnlyRequests(old(valkey.slots)[slot], valkey.slots[slot])
      ensures entry < old(valkey.slots)[slot].checkpoint ==> !raised
    {
      hide Inv, Later, Ingest, Runs, Effected;
      Meanwhile();
      ghost var before := valkey.slots;
      TurnStays(valkey.rules, old(valkey.slots)[slot], before[slot], entry);
      DoneStays(valkey.rules, old(valkey.slots)[slot], before[slot], entry);
      var s := valkey.slots[slot];
      var fate: Fate, result: Option<string> := *, *;
      raised := Runs(valkey.rules, s, entry) && result.None?;
      if fate != Arrived { lost := lost + 1; }
      if fate == LostBefore {
        return false, raised;
      }
      IngestKeeps(valkey.rules, s, entry, result);
      IngestPasses(valkey.rules, s, entry, result);
      valkey.Set(slot, Ingest(valkey.rules, s, entry, result));
      GrownAgain(old(valkey.slots), before, valkey.slots);
      BehindStill(cursors, before, valkey.slots);
      ok := fate == Arrived;
    }

    /** The handler raised: the rejection is recorded instead. */
    method RecordFailure(slot: Name, entry: nat) returns (ok: bool)
      requires Valid() && slot in valkey.slots && InTurn(valkey.slots[slot], entry)
      modifies this`lost, valkey
      ensures Valid() && Grown(old(valkey.slots), valkey.slots)
      ensures ok ==> entry < valkey.slots[slot].checkpoint
      ensures ok && Runs(valkey.rules, old(valkey.slots)[slot], entry) ==> Refuses(valkey.slots[slot], entry)
      ensures lost >= old(lost) + (if ok then 0 else 1)
    {
      hide Inv, Later, Poison, Runs, Refuses;
      Meanwhile();
      ghost var before := valkey.slots;
      TurnStays(valkey.rules, old(valkey.slots)[slot], before[slot], entry);
      var s := valkey.slots[slot];
      var fate: Fate := *;
      if fate != Arrived { lost := lost + 1; }
      if fate == LostBefore {
        return false;
      }
      PoisonKeeps(valkey.rules, s, entry);
      PoisonPasses(valkey.rules, s, entry);
      valkey.Set(slot, Poison(valkey.rules, s, entry));
      GrownAgain(old(valkey.slots), before, valkey.slots);
      BehindStill(cursors, before, valkey.slots);
      return fate == Arrived;
    }

    /** One slot's batch, in order, as it was read when the slot was `seen`. */
    method ApplyBatch(slot: Name, from: nat, es: seq<nat>, ghost seen: Slot) returns (ok: bool)
      requires Valid() && slot in valkey.slots && ReadsFrom(seen, from, es) && Later(seen, valkey.slots[slot])
      requires from <= seen.checkpoint
      modifies this`cursors, this`lost, valkey
      ensures Valid() && Grown(old(valkey.slots), valkey.slots)
      ensures ok ==> forall j :: 0 <= j < |es| ==> es[j] < valkey.slots[slot].checkpoint
      ensures lost >= old(lost) + (if ok then 0 else 1)
    {
      hide Inv, ReadsFrom, InTurn;
      var j := 0;
      while j < |es|
        invariant 0 <= j <= |es| && Valid() && lost >= old(lost)
        invariant Grown(old(valkey.slots), valkey.slots)
        invariant forall k :: 0 <= k < j ==> es[k] < valkey.slots[slot].checkpoint
      {
        ghost var before := valkey.slots;
        LaterAgain(seen, old(valkey.slots)[slot], before[slot]);
        TurnComes(seen, before[slot], from, es, j);
        ghost var raised;
        ok, raised := Apply(slot, es[j]);
        GrownAgain(old(valkey.slots), before, valkey.slots);
        if !ok {
          return;
        }
        assert Later(before[slot], valkey.slots[slot]);
        j := j + 1;
      }
      return true;
    }

    method ReadCursors(allowed: seq<Name>) returns (ids: Option<seq<nat>>)
      requires Valid() && forall k :: 0 <= k < |allowed| ==> allowed[k] in valkey.slots
      modifies this`cursors, this`lost
      ensures Valid()
      ensures ids.Some? ==>
                |ids.value| == |allowed|
                && forall k :: 0 <= k < |allowed| ==> ids.value[k] <= valkey.slots[allowed[k]].checkpoint
      ensures lost >= old(lost) + (if ids.Some? then 0 else 1)
    {
      var found: seq<nat> := [];
      var k := 0;
      while k < |allowed|
        invariant 0 <= k <= |allowed| && |found| == k && Valid() && lost >= old(lost)
        invariant forall i :: 0 <= i < k ==> found[i] <= valkey.slots[allowed[i]].checkpoint
      {
        var c := Cursor(allowed[k]);
        if c.None? {
          return None;
        }
        found := found + [c.value];
        k := k + 1;
      }
      return Some(found);
    }

    /** One read over all the streams, at one moment. */
    method ReadStreams(allowed: seq<Name>, ids: seq<nat>) returns (reply: seq<seq<nat>>)
      requires |ids| == |allowed| && forall k :: 0 <= k < |allowed| ==> allowed[k] in valkey.slots
      ensures |reply| == |allowed|
      ensures forall k :: 0 <= k < |allowed| ==>
                reply[k] == Present(valkey.slots[allowed[k]], ids[k], BATCH) && |reply[k]| <= BATCH
                && ReadsFrom(valkey.slots[allowed[k]], ids[k], reply[k])
    {
      reply := [];
      var k := 0;
      while k < |allowed|
        invariant 0 <= k <= |allowed| && |reply| == k
        invariant forall i :: 0 <= i < k ==>
                    reply[i] == Present(valkey.slots[allowed[i]], ids[i], BATCH) && |reply[i]| <= BATCH
                    && ReadsFrom(valkey.slots[allowed[i]], ids[i], reply[i])
      {
        PresentReads(valkey.slots[allowed[k]], ids[k], BATCH);
        PresentSize(valkey.slots[allowed[k]], ids[k], BATCH);
        reply := reply + [Present(valkey.slots[allowed[k]], ids[k], BATCH)];
        k := k + 1;
      }
    }

    /** The batches of a read, slot by slot; the requests they held are counted. */
    method ApplyAll(allowed: seq<Name>, ids: seq<nat>, reply: seq<seq<nat>>, ghost seen: map<Name, Slot>)
      returns (count: Option<nat>)
      requires Valid() && Grown(seen, valkey.slots) && |ids| == |allowed| && |reply| == |allowed|
      requires forall k :: 0 <= k < |allowed| ==> allowed[k] in seen
      requires forall k :: 0 <= k < |allowed| ==> ids[k] <= seen[allowed[k]].checkpoint
      requires forall k :: 0 <= k < |allowed| ==> ReadsFrom(seen[allowed[k]], ids[k], reply[k])
      modifies this`cursors, this`lost, valkey
      ensures Valid() && Grown(old(valkey.slots), valkey.slots)
      ensures count.Some? ==> count.value == Total(reply) && AllDone(allowed, reply, valkey.slots)
      ensures lost >= old(lost) + (if count.Some? then 0 else 1)
    {
      hide Inv, ReadsFrom, Later, AllDone, DoneWith, Total;
      var n, k := 0, 0;
      GrownSelf(valkey.slots);
      NoneDone(reply, valkey.slots);
      while k < |allowed|
        invariant 0 <= k <= |allowed| && Valid() && Grown(old(valkey.slots), valkey.slots) && lost >= old(lost)
        invariant n == Total(reply[..k]) && AllDone(allowed[..k], reply[..k], valkey.slots)
      {
        ghost var before := valkey.slots;
        GrownAgain(seen, old(valkey.slots), before);
        var ok := ApplyBatch(allowed[k], ids[k], reply[k], seen[allowed[k]]);
        GrownAgain(old(valkey.slots), before, valkey.slots);
        if !ok {
          return None;
        }
        DoneOn(allowed, reply, k, before, valkey.slots);
        n := n + |reply[k]|;
        k := k + 1;
      }
      assert reply[..k] == reply && allowed[..k] == allowed;
      return Some(n);
    }

    /** One pass over the allowed slots; none when a command failed. Every request the pass read
        is done with when it returns, and a pass that handled nothing found nothing: every
        request there before it began is done with or was trimmed. */
    method Step(allowed: seq<Name>) returns (handled: Option<nat>, ghost pass: Pass)
      requires Valid() && forall k :: 0 <= k < |allowed| ==> allowed[k] in valkey.slots
      modifies this`cursors, this`lost, valkey
      ensures Valid() && Grown(old(valkey.slots), valkey.slots)
      ensures handled.Some? ==>
                && Grown(old(valkey.slots), pass.seen) && WholeRead(allowed, pass)
                && AllDone(allowed, pass.reply, valkey.slots) && handled.value == Total(pass.reply)
      ensures handled == Some(0) ==>
                forall n :: n in allowed ==> NoneWaits(old(valkey.slots)[n], valkey.slots[n])
      ensures lost >= old(lost) + (if handled.Some? then 0 else 1)
    {
      hide Inv, ReadsFrom, AllDone, Later, Present, Total, NoneWaits;
      pass := Pass(map[], [], []);
      Meanwhile();
      ghost var seen := valkey.slots;
      var ids := ReadCursors(allowed);
      if ids.None? {
        return None, pass;
      }
      var answered: bool := *;
      if !answered {
        lost := lost + 1;
        return None, pass;
      }
      var reply := ReadStreams(allowed, ids.value);
      pass := Pass(seen, ids.value, reply);
      GrownSelf(seen);
      handled := ApplyAll(allowed, ids.value, reply, seen);
      GrownAgain(old(valkey.slots), seen, valkey.slots);
      if handled == Some(0) {
        forall n | n in allowed ensures NoneWaits(old(valkey.slots)[n], valkey.slots[n]) {
          var i :| 0 <= i < |allowed| && allowed[i] == n;
          TotalCounts(reply, i);
          EmptyRead(old(valkey.slots)[n], seen[n], valkey.slots[n], ids.value[i]);
        }
      }
    }
  }

  /** What one pass read: the slots as they were then, where it read from, and what was there. */
  datatype Pass = Pass(seen: map<Name, Slot>, ids: seq<nat>, reply: seq<seq<nat>>)

  /** The next requests of every allowed slot were read, as many as a read may hold. */
  ghost predicate WholeRead(allowed: seq<Name>, p: Pass) {
    |p.ids| == |allowed| && |p.reply| == |allowed|
    && forall k :: 0 <= k < |allowed| ==>
         && allowed[k] in p.seen && p.ids[k] <= p.seen[allowed[k]].checkpoint
         && p.reply[k] == Present(p.seen[allowed[k]], p.ids[k], BATCH)
  }

  ghost predicate DoneWith(es: seq<nat>, s: Slot) {
    forall j :: 0 <= j < |es| ==> es[j] < s.checkpoint
  }

  /** All of what was read is done with. */
  ghost predicate AllDone(allowed: seq<Name>, reply: seq<seq<nat>>, now: map<Name, Slot>) {
    |reply| == |allowed| && forall k :: 0 <= k < |allowed| ==> allowed[k] in now && DoneWith(reply[k], now[allowed[k]])
  }

  lemma NoneDone(reply: seq<seq<nat>>, now: map<Name, Slot>)
    ensures AllDone([], reply[..0], now) && Total(reply[..0]) == 0
  {
  }

  lemma DoneOn(allowed: seq<Name>, reply: seq<seq<nat>>, k: nat, before: map<Name, Slot>, after: map<Name, Slot>)
    requires |reply| == |allowed| && k < |allowed| && Grown(before, after) && AllDone(allowed[..k], reply[..k], before)
    requires allowed[k] in after && forall j :: 0 <= j < |reply[k]| ==> reply[k][j] < after[allowed[k]].checkpoint
    ensures AllDone(allowed[..k + 1], reply[..k + 1], after)
    ensures Total(reply[..k + 1]) == Total(reply[..k]) + |reply[k]|
  {
    assert reply[..k + 1][..k] == reply[..k];
    forall i | 0 <= i < k + 1 ensures allowed[i] in after && DoneWith(reply[i], after[allowed[i]]) {
      if i < k {
        assert allowed[..k][i] == allowed[i] && reply[..k][i] == reply[i];
      }
    }
  }

  function Total(reply: seq<seq<nat>>): nat {
    if reply == [] then 0 else Total(reply[..|reply| - 1]) + |reply[|reply| - 1]|
  }

  lemma {:induction false} TotalCounts(reply: seq<seq<nat>>, i: nat)
    requires i < |reply| && Total(reply) == 0
    ensures reply[i] == []
  {
    if i < |reply| - 1 {
      TotalCounts(reply[..|reply| - 1], i);
    }
  }

  lemma {:induction false} PresentSize(s: Slot, from: nat, limit: nat)
    ensures |Present(s, from, limit)| <= limit
    decreases |s.out| - from
  {
    if from < |s.out| && limit > 0 {
      PresentSize(s, from + 1, if from in s.dropped then limit else limit - 1);
    }
  }

  /** Every request in `s` is done with in `t`, or was trimmed. */
  ghost predicate NoneWaits(s: Slot, t: Slot) {
    forall k :: 0 <= k < |s.out| ==> k < t.checkpoint || k in t.dropped
  }

  lemma EmptyRead(s: Slot, seen: Slot, t: Slot, from: nat)
    requires Later(s, seen) && Later(seen, t) && ReadsFrom(seen, from, []) && from <= seen.checkpoint
    ensures NoneWaits(s, t)
  {
  }

  // ---- The slot ----

  /** Every request under this id is this request. */
  ghost predicate Ours(s: Slot, q: Request) {
    forall k :: 0 <= k < |s.out| && s.out[k].rid == q.rid ==> s.out[k] == q
  }

  /** No answer to this id lies between the two places. */
  ghost predicate Unread(s: Slot, from: nat, cursor: nat, rid: Rid) {
    from <= cursor <= |s.resp| && forall k :: from <= k < cursor ==> s.resp[k].rid != rid
  }

  /** No request has been sent under this id. */
  ghost predicate Unused(s: Slot, rid: Rid) {
    forall k :: 0 <= k < |s.out| ==> s.out[k].rid != rid
  }

  /** The effect of this request, with this value, and no other under its id. */
  ghost predicate TookEffect(s: Slot, q: Request, value: string) {
    (exists e :: e in s.applied && e.rid == q.rid && e.fn == q.fn && e.args == q.args && e.value == value)
    && (forall i, j :: 0 <= i < j < |s.applied| && s.applied[i].rid == q.rid ==> s.applied[j].rid != q.rid)
    && q.rid in s.memo && s.memo[q.rid] == Memo(q.fn, q.args, Value(value))
  }

  /** No effect, and none to come: the rejection is remembered, or the request can never run. */
  ghost predicate TookNone(rules: Rules, s: Slot, q: Request) {
    (forall e :: e in s.applied ==> e.rid != q.rid)
    && ((q.rid in s.memo && s.memo[q.rid].body.Rejected?) || !rules.runnable(q.fn, q.args))
  }

  lemma AnswerMeans(rules: Rules, s: Slot, q: Request, a: Answer)
    requires Inv(rules, s) && Ours(s, q) && a in s.resp && a.rid == q.rid
    ensures a.body.Value? ==> TookEffect(s, q, a.body.value)
    ensures a.body.Rejected? ==> TookNone(rules, s, q)
  {
    assert AnswerRight(rules, s, a);
    assert s.out[a.entry] == q;
    if q.rid in s.memo {
      var m := s.memo[q.rid];
      var k :| 0 <= k < |s.out| && s.out[k] == Request(q.rid, m.fn, m.args);
      assert Same(m, q);
    }
  }

  lemma NoneYet(rules: Rules, s: Slot, rid: Rid)
    requires Inv(rules, s) && Unused(s, rid)
    ensures Unread(s, 0, |s.resp|, rid)
  {
    forall k | 0 <= k < |s.resp| ensures s.resp[k].rid != rid {
      assert AnswerRight(rules, s, s.resp[k]);
    }
  }

  /** How often a request has been sent under this id. */
  function Copies(out: seq<Request>, rid: Rid): nat {
    if out == [] then 0
    else (if out[|out| - 1].rid == rid then 1 else 0) + Copies(out[..|out| - 1], rid)
  }

  lemma {:induction false} CopiesSame(a: seq<Request>, b: seq<Request>, rid: Rid)
    requires a <= b && forall k :: |a| <= k < |b| ==> b[k].rid != rid
    ensures Copies(b, rid) == Copies(a, rid)
    decreases |b|
  {
    if |a| < |b| {
      CopiesSame(a, b[..|b| - 1], rid);
    } else {
      assert a == b;
    }
  }

  lemma NoCopies(rid: Rid)
    ensures Copies([], rid) == 0
  {
  }

  lemma CopiesOneMore(out: seq<Request>, q: Request)
    ensures Copies(out + [q], q.rid) == Copies(out, q.rid) + 1
  {
    assert (out + [q])[..|out|] == out;
  }

  /** One answered read: after how many sends, from where, up to where the cursor came, and how
      many answers there were. */
  datatype Look = Look(sends: nat, from: nat, to: nat, answers: nat)

  /** The whole batch was looked at. */
  predicate Whole(l: Look) {
    l.from <= l.to && l.to == if l.answers <= l.from + BATCH then l.answers else l.from + BATCH
  }

  /** After that many sends a whole batch was looked at, and the cursor is behind it. */
  ghost predicate LookedAfter(looks: seq<Look>, before: nat, sends: nat, cursor: nat) {
    exists i :: before <= i < |looks| && looks[i].sends == sends && Whole(looks[i]) && looks[i].to <= cursor
  }

  /** After each of the sends. */
  ghost predicate LookedAfterEach(looks: seq<Look>, before: nat, first: nat, sends: nat, cursor: nat) {
    forall k :: first < k <= first + sends ==> LookedAfter(looks, before, k, cursor)
  }

  lemma NoneLooked(looks: seq<Look>, first: nat, cursor: nat)
    ensures LookedAfterEach(looks, |looks|, first, 0, cursor)
  {
  }

  lemma StillLooked(looks: seq<Look>, before: nat, later: nat, sends: nat, was: nat, cursor: nat, longer: seq<Look>)
    requires LookedAfter(looks, later, sends, was) && before <= later && was <= cursor && looks <= longer
    ensures LookedAfter(longer, before, sends, cursor)
  {
    var i :| later <= i < |looks| && looks[i].sends == sends && Whole(looks[i]) && looks[i].to <= was;
    assert longer[i] == looks[i];
  }

  lemma LookedOnce(looks: seq<Look>, before: nat, first: nat, sends: nat, was: nat, cursor: nat, longer: seq<Look>)
    requires LookedAfterEach(looks, before, first, sends, was) && was <= cursor && looks <= longer && before <= |looks|
    requires LookedAfter(longer, |looks|, first + sends + 1, cursor)
    ensures LookedAfterEach(longer, before, first, sends + 1, cursor)
  {
    forall k | first < k <= first + sends + 1 ensures LookedAfter(longer, before, k, cursor) {
      if k <= first + sends {
        StillLooked(looks, before, before, k, was, cursor, longer);
      } else {
        StillLooked(longer, before, |looks|, k, cursor, cursor, longer);
      }
    }
  }

  class SlotLink {
    const valkey: Valkey
    const slot: Name
    const attempts: nat
    var cursor: Option<nat>
    ghost var looks: seq<Look>  // the reads that were answered
    ghost var lost: nat  // how many commands have had no answer

    constructor (valkey: Valkey, slot: Name, attempts: nat)
      requires valkey.AllInv() && slot in valkey.slots
      ensures this.valkey == valkey && this.slot == slot && this.attempts == attempts
      ensures cursor == None && Valid()
    {
      this.valkey, this.slot, this.attempts, cursor, looks, lost := valkey, slot, attempts, None, [], 0;
    }

    ghost predicate Valid()
      reads this, valkey
    {
      valkey.AllInv() && slot in valkey.slots
      && (cursor.Some? ==> cursor.value <= |valkey.slots[slot].resp|)
    }

    /** How often a request has been sent under this id. */
    ghost function Sends(rid: Rid): nat
      reads this, valkey
    {
      if slot in valkey.slots then Copies(valkey.slots[slot].out, rid) else 0
    }

    /** The ingester works, requests are trimmed, other requests come in: never under `rid`. */
    method Meanwhile(rid: Rid)
      requires Valid()
      modifies valkey
      ensures Valid() && Grown(old(valkey.slots), valkey.slots)
      ensures forall k :: |old(valkey.slots)[slot].out| <= k < |valkey.slots[slot].out| ==>
                valkey.slots[slot].out[k].rid != rid
      ensures Sends(rid) == old(Sends(rid))
    {
      var n: nat := *;
      hide Inv;
      while n > 0
        invariant Valid() && Grown(old(valkey.slots), valkey.slots)
        invariant forall k :: |old(valkey.slots)[slot].out| <= k < |valkey.slots[slot].out| ==>
                    valkey.slots[slot].out[k].rid != rid
      {
        var a: Action := *;
        var s := valkey.slots[slot];
        if Enabled(s, a) && !(a.Append? && a.q.rid == rid) {
          ghost var before := valkey.slots;
          NextKeeps(valkey.rules, s, a);
          LaterAgain(old(valkey.slots)[slot], s, Next(valkey.rules, s, a));
          hide Next;
          valkey.Set(slot, Next(valkey.rules, s, a));
          GrownAgain(old(valkey.slots), before, valkey.slots);
        }
        n := n - 1;
      }
      assert Later(old(valkey.slots)[slot], valkey.slots[slot]);
      CopiesSame(old(valkey.slots)[slot].out, valkey.slots[slot].out, rid);
    }

    /** The request on the slot's stream, unless the command failed before it arrived. */
    method Send(q: Request) returns (ok: bool)
      requires Valid() && Ours(valkey.slots[slot], q)
      modifies this`lost, valkey
      ensures Valid() && Grown(old(valkey.slots), valkey.slots) && Ours(valkey.slots[slot], q)
      ensures Sends(q.rid) == old(Sends(q.rid)) + 1
           || (!ok && Sends(q.rid) == old(Sends(q.rid)))
      ensures lost >= old(lost) + (if ok then 0 else 1)
    {
      hide Inv, Copies;
      Meanwhile(q.rid);
      var fate: Fate := *;
      if fate != Arrived { lost := lost + 1; }
      if fate == LostBefore {
        return false;
      }
      ghost var before := valkey.slots;
      var s := valkey.slots[slot];
      CopiesOneMore(s.out, q);
      ClientKeeps(valkey.rules, s, q, {});
      hide Later;
      valkey.Set(slot, s.(out := s.out + [q]));
      GrownAgain(old(valkey.slots), before, valkey.slots);
      return fate == Arrived;
    }

    /** One batch of answers, the cursor moved past each as it is looked at. */
    method Read(q: Request, ghost from: nat) returns (ok: bool, found: Option<Body>)
      requires Valid() && cursor.Some? && Ours(valkey.slots[slot], q) && Unread(valkey.slots[slot], from, cursor.value, q.rid)
      modifies this`cursor, this`looks, this`lost, valkey
      ensures Valid() && Grown(old(valkey.slots), valkey.slots) && Ours(valkey.slots[slot], q)
      ensures cursor.Some?
      ensures found.None? ==> Unread(valkey.slots[slot], from, cursor.value, q.rid)
      ensures found.Some? ==> Found(valkey.slots[slot], from, cursor.value, q.rid, found.value)
      ensures Sends(q.rid) == old(Sends(q.rid))
      ensures lost >= old(lost) + (if ok then 0 else 1)
      ensures old(cursor).value <= cursor.value
      ensures found.None? && ok ==> Whole(Look(Sends(q.rid), old(cursor).value, cursor.value, |valkey.slots[slot].resp|))
      ensures !ok ==> looks == old(looks) && cursor == old(cursor) && found == None
      ensures ok ==> looks == old(looks) + [Look(Sends(q.rid), old(cursor).value, cursor.value, |valkey.slots[slot].resp|)]
    {
      hide Inv, Copies;
      Meanwhile(q.rid);
      found := None;
      ok := *;
      if !ok {
        lost := lost + 1;
        return;
      }
      var resp := valkey.slots[slot].resp;
      var batch := if |resp| <= cursor.value + BATCH then resp[cursor.value..] else resp[cursor.value..cursor.value + BATCH];
      ghost var start, now := cursor.value, valkey.slots;
      var i := 0;
      while i < |batch|
        invariant 0 <= i <= |batch| && cursor == Some(start + i) && valkey.slots == now && lost == old(lost)
        invariant looks == old(looks)
        invariant Unread(valkey.slots[slot], from, start + i, q.rid)
      {
        assert batch[i] == resp[start + i];
        cursor := Some(cursor.value + 1);
        if batch[i].rid == q.rid {
          looks := looks + [Look(Sends(q.rid), start, cursor.value, |resp|)];
          return true, Some(batch[i].body);
        }
        i := i + 1;
      }
      looks := looks + [Look(Sends(q.rid), start, cursor.value, |resp|)];
    }

    /** One call, under an id of its own or, after an earlier call gave up, under that call's id
        again. What it returns is a stored answer to the id: a value with its one effect, a
        rejection with none. When it throws, at most one effect happened. From the place the call
        began to read at, the cursor never passes an answer to it that it did not return; that
        place is the start of the stream for an id that has not been used. */
    method Rpc(fn: string, args: string, rid: Rid) returns (r: Option<Body>, ghost from: nat)
      requires Valid() && Ours(valkey.slots[slot], Request(rid, fn, args))
      modifies this`cursor, this`looks, this`lost, valkey
      ensures Valid() && Grown(old(valkey.slots), valkey.slots)
      ensures Ours(valkey.slots[slot], Request(rid, fn, args))
      ensures r.Some? && r.value.Value? ==> TookEffect(valkey.slots[slot], Request(rid, fn, args), r.value.value)
      ensures r.Some? && r.value.Rejected? ==> TookNone(valkey.rules, valkey.slots[slot], Request(rid, fn, args))
      ensures r.None? ==> AppliedOnce(valkey.slots[slot])
      ensures cursor.Some? ==> if r.Some? then Found(valkey.slots[slot], from, cursor.value, rid, r.value)
                               else Unread(valkey.slots[slot], from, cursor.value, rid)
      ensures BeganAt(old(cursor), old(valkey.slots)[slot], rid, from)
      ensures Sends(rid) <= old(Sends(rid)) + attempts
      ensures Unused(old(valkey.slots)[slot], rid) ==> old(Sends(rid)) == 0
      ensures r.None? ==> lost > old(lost) || Sends(rid) == old(Sends(rid)) + attempts
      ensures r.None? ==>
                lost > old(lost)
                || (cursor.Some? && LookedAfterEach(looks, |old(looks)|, old(Sends(rid)), attempts, cursor.value))
    {
      var q := Request(rid, fn, args);
      hide Inv, Later, Ours, Unread, Found, TookEffect, TookNone, AppliedOnce, BeganAt, Copies, LookedAfterEach;
      if Unused(valkey.slots[slot], rid) {
        CopiesSame([], valkey.slots[slot].out, rid);
        NoCopies(rid);
      }
      var ready;
      ready, from := Open(q);
      if !ready {
        OnceApplied(valkey.rules, valkey.slots[slot]);
        return None, from;
      }
      ghost var before := valkey.slots;
      r := Attempts(q, from);
      GrownAgain(old(valkey.slots), before, valkey.slots);
      OnceApplied(valkey.rules, valkey.slots[slot]);
      if r.Some? {
        FoundMeans(valkey.rules, valkey.slots[slot], from, cursor.value, q, r.value);
      }
    }

    /** A first call starts after the last answer there is; none can be to an id not used yet. */
    method Open(q: Request) returns (ok: bool, ghost from: nat)
      requires Valid() && Ours(valkey.slots[slot], q)
      modifies this`cursor, this`lost, valkey
      ensures Valid() && Grown(old(valkey.slots), valkey.slots) && Ours(valkey.slots[slot], q)
      ensures ok ==> cursor.Some?
      ensures old(cursor).Some? ==> ok && cursor == old(cursor)
      ensures cursor.Some? ==> Unread(valkey.slots[slot], from, cursor.value, q.rid)
      ensures BeganAt(old(cursor), old(valkey.slots)[slot], q.rid, from)
      ensures Sends(q.rid) == old(Sends(q.rid))
      ensures lost >= old(lost) + (if ok then 0 else 1)
    {
      hide Inv, Copies;
      ok := true;
      ghost var unused := Unused(valkey.slots[slot], q.rid);
      if cursor.None? {
        Meanwhile(q.rid);
        assert Later(old(valkey.slots)[slot], valkey.slots[slot]);
        ok := *;
        if ok {
          cursor := Some(|valkey.slots[slot].resp|);
        } else {
          lost := lost + 1;
        }
      }
      from := if unused then 0 else if cursor.Some? then cursor.value else |valkey.slots[slot].resp|;
      if unused {
        NoneYet(valkey.rules, valkey.slots[slot], q.rid);
      }
    }

    /** What one attempt waits for: answers are read at least once, then again until one to the
        call is there or the time is over. */
    method Await(q: Request, ghost from: nat) returns (ok: bool, found: Option<Body>)
      requires Valid() && cursor.Some? && Ours(valkey.slots[slot], q) && Unread(valkey.slots[slot], from, cursor.value, q.rid)
      modifies this`cursor, this`looks, this`lost, valkey
      ensures Valid() && Grown(old(valkey.slots), valkey.slots) && Ours(valkey.slots[slot], q)
      ensures cursor.Some? && old(cursor).value <= cursor.value && old(looks) <= looks
      ensures if found.Some? then Found(valkey.slots[slot], from, cursor.value, q.rid, found.value)
              else Unread(valkey.slots[slot], from, cursor.value, q.rid)
      ensures ok && found.None? ==> LookedAfter(looks, |old(looks)|, Sends(q.rid), cursor.value)
      ensures Sends(q.rid) == old(Sends(q.rid))
      ensures lost >= old(lost) + (if ok then 0 else 1)
    {
      hide Inv, Ours, Unread, Copies, Found, LookedAfter, Whole;
      var polls: nat := *;
      ok, found := ReadOnce(q, from);
      while polls > 0 && ok && found.None?
        invariant Valid() && cursor.Some? && Grown(old(valkey.slots), valkey.slots) && Ours(valkey.slots[slot], q)
        invariant old(cursor).value <= cursor.value && old(looks) <= looks
        invariant if found.Some? then Found(valkey.slots[slot], from, cursor.value, q.rid, found.value)
                  else Unread(valkey.slots[slot], from, cursor.value, q.rid)
        invariant ok && found.None? ==> LookedAfter(looks, |old(looks)|, Sends(q.rid), cursor.value)
        invariant Sends(q.rid) == old(Sends(q.rid)) && lost >= old(lost) + (if ok then 0 else 1)
      {
        ghost var before, looked := valkey.slots, |looks|;
        ok, found := ReadOnce(q, from);
        GrownAgain(old(valkey.slots), before, valkey.slots);
        if ok && found.None? {
          StillLooked(looks, |old(looks)|, looked, Sends(q.rid), cursor.value, cursor.value, looks);
        }
        polls := polls - 1;
      }
    }

    method ReadOnce(q: Request, ghost from: nat) returns (ok: bool, found: Option<Body>)
      requires Valid() && cursor.Some? && Ours(valkey.slots[slot], q) && Unread(valkey.slots[slot], from, cursor.value, q.rid)
      modifies this`cursor, this`looks, this`lost, valkey
      ensures Valid() && Grown(old(valkey.slots), valkey.slots) && Ours(valkey.slots[slot], q)
      ensures cursor.Some? && old(cursor).value <= cursor.value && old(looks) <= looks
      ensures if found.Some? then Found(valkey.slots[slot], from, cursor.value, q.rid, found.value)
              else Unread(valkey.slots[slot], from, cursor.value, q.rid)
      ensures ok && found.None? ==> LookedAfter(looks, |old(looks)|, Sends(q.rid), cursor.value)
      ensures Sends(q.rid) == old(Sends(q.rid))
      ensures lost >= old(lost) + (if ok then 0 else 1)
    {
      hide Inv, Ours, Unread, Copies, Found;
      ok, found := Read(q, from);
      if ok && found.None? {
        assert looks[|old(looks)|].sends == Sends(q.rid) && Whole(looks[|old(looks)|]);
      }
    }

    /** The same request sent again, as often as allowed, until an answer to it is read. */
    method Attempts(q: Request, ghost from: nat) returns (r: Option<Body>)
      requires Valid() && cursor.Some? && Ours(valkey.slots[slot], q) && Unread(valkey.slots[slot], from, cursor.value, q.rid)
      modifies this`cursor, this`looks, this`lost, valkey
      ensures Valid() && Grown(old(valkey.slots), valkey.slots) && Ours(valkey.slots[slot], q)
      ensures cursor.Some?
      ensures if r.Some? then Found(valkey.slots[slot], from, cursor.value, q.rid, r.value)
              else Unread(valkey.slots[slot], from, cursor.value, q.rid)
      ensures Sends(q.rid) <= old(Sends(q.rid)) + attempts
      ensures r.Some? ==> Sends(q.rid) > old(Sends(q.rid))
      ensures r.None? ==> lost > old(lost) || Sends(q.rid) == old(Sends(q.rid)) + attempts
      ensures r.None? ==>
                lost > old(lost) || LookedAfterEach(looks, |old(looks)|, old(Sends(q.rid)), attempts, cursor.value)
    {
      hide Inv, Ours, Unread, Copies, Found, LookedAfter, LookedAfterEach, Whole;
      r := None;
      var attempt := 0;
      NoneLooked(looks, old(Sends(q.rid)), cursor.value);
      while attempt < attempts
        invariant Valid() && cursor.Some? && Grown(old(valkey.slots), valkey.slots)
        invariant attempt <= attempts && lost >= old(lost) && old(looks) <= looks
        invariant Sends(q.rid) == old(Sends(q.rid)) + attempt
        invariant Ours(valkey.slots[slot], q) && Unread(valkey.slots[slot], from, cursor.value, q.rid)
        invariant LookedAfterEach(looks, |old(looks)|, old(Sends(q.rid)), attempt, cursor.value)
      {
        ghost var before, looked, at := valkey.slots, looks, cursor.value;
        var sent := Send(q);
        UnreadStill(before[slot], valkey.slots[slot], from, cursor.value, q.rid);
        GrownAgain(old(valkey.slots), before, valkey.slots);
        if !sent {
          return;
        }
        before := valkey.slots;
        var ok, found := Await(q, from);
        GrownAgain(old(valkey.slots), before, valkey.slots);
        if !ok || found.Some? {
          return found;
        }
        LookedOnce(looked, |old(looks)|, old(Sends(q.rid)), attempt, at, cursor.value, looks);
        attempt := attempt + 1;
      }
    }
  }

  /** Where a call begins to read: at the start for an unused id, else where the cursor was, and
      without one behind the answers there are. */
  ghost predicate BeganAt(cursor: Option<nat>, s: Slot, rid: Rid, from: nat) {
    if Unused(s, rid) then from == 0
    else if cursor.Some? then from == cursor.value
    else |s.resp| <= from
  }

  /** The entry just before the cursor is the first answer to this id from there on, and says this. */
  ghost predicate Found(s: Slot, from: nat, cursor: nat, rid: Rid, body: Body) {
    from < cursor <= |s.resp| && s.resp[cursor - 1].rid == rid && s.resp[cursor - 1].body == body
    && Unread(s, from, cursor - 1, rid)
  }

  lemma FoundMeans(rules: Rules, s: Slot, from: nat, cursor: nat, q: Request, body: Body)
    requires Inv(rules, s) && Ours(s, q) && Found(s, from, cursor, q.rid, body)
    ensures body.Value? ==> TookEffect(s, q, body.value)
    ensures body.Rejected? ==> TookNone(rules, s, q)
  {
    AnswerMeans(rules, s, q, s.resp[cursor - 1]);
  }

  lemma OnceApplied(rules: Rules, s: Slot)
    requires Inv(rules, s)
    ensures AppliedOnce(s)
  {
  }

  lemma UnreadStill(s: Slot, t: Slot, from: nat, cursor: nat, rid: Rid)
    requires Later(s, t) && Unread(s, from, cursor, rid)
    ensures Unread(t, from, cursor, rid)
  {
  }

}
