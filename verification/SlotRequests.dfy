/** A slot's requests: appended by the slot under an id of their own, applied one at a time by
    the ingester, answered on the slot's response stream. Each takes effect at most once,
    however often it is resent and whatever replies are lost. */
module SlotRequests {

  import opened Wrappers

  type Rid = string
  type Name = string

  /** What the store's own checks say: which ids are well formed, which requests can be run. */
  datatype Rules = Rules(validId: Rid -> bool, runnable: (string, string) -> bool)

  datatype Request = Request(rid: Rid, fn: string, args: string)

  datatype Body = Value(value: string) | Rejected(reason: string)

  const CONFLICT := "rid_conflict"
  const REFUSED := "refused"
  const HANDLER_ERROR := "handler_error"

  datatype Memo = Memo(fn: string, args: string, body: Body)

  /** `entry` is the request entry an answer or an effect belongs to. */
  datatype Answer = Answer(rid: Rid, body: Body, entry: nat)

  datatype Applied = Applied(rid: Rid, fn: string, args: string, value: string, entry: nat)

  /** One slot's keys. Entries are numbered as they are appended; `dropped` ones were trimmed
      by the slot; those below `checkpoint` are done with. `applied` lists the slot functions
      that took effect, in order. */
  datatype Slot = Slot(
    out: seq<Request>,
    dropped: set<nat>,
    checkpoint: nat,
    memo: map<Rid, Memo>,
    resp: seq<Answer>,
    applied: seq<Applied>)

  const NEW_SLOT := Slot([], {}, 0, map[], [], [])

  // ---- The atomic steps ----

  function Answered(s: Slot, i: nat, body: Body): Slot
    requires i < |s.out|
  {
    s.(resp := s.resp + [Answer(s.out[i].rid, body, i)], checkpoint := i + 1)
  }

  function Same(m: Memo, q: Request): bool {
    m.fn == q.fn && m.args == q.args
  }

  /** The slot function would run now. */
  predicate Runs(rules: Rules, s: Slot, i: nat)
    requires i < |s.out|
  {
    s.checkpoint <= i && rules.validId(s.out[i].rid) && s.out[i].rid !in s.memo && rules.runnable(s.out[i].fn, s.out[i].args)
  }

  function Apply(s: Slot, i: nat, value: string): Slot
    requires i < |s.out|
  {
    var q := s.out[i];
    Answered(s, i, Value(value)).(
      memo := s.memo[q.rid := Memo(q.fn, q.args, Value(value))],
      applied := s.applied + [Applied(q.rid, q.fn, q.args, value, i)])
  }

  /** `bridge_ingest`: `result` is what the slot function returns; none when it raises, and
      then nothing has changed. */
  function Ingest(rules: Rules, s: Slot, i: nat, result: Option<string>): Slot
    requires i < |s.out|
  {
    var q := s.out[i];
    if i < s.checkpoint then s
    else if !rules.validId(q.rid) then s.(checkpoint := i + 1)
    else if q.rid in s.memo then Answered(s, i, if Same(s.memo[q.rid], q) then s.memo[q.rid].body else Rejected(CONFLICT))
    else if !rules.runnable(q.fn, q.args) then Answered(s, i, Rejected(REFUSED))
    else if result.None? then s
    else Apply(s, i, result.value)
  }

  /** `bridge_ingest_poison`: the request is answered with a rejection that is remembered. */
  function Poison(rules: Rules, s: Slot, i: nat): Slot
    requires i < |s.out|
  {
    var q := s.out[i];
    if i < s.checkpoint then s
    else if !rules.validId(q.rid) then s.(checkpoint := i + 1)
    else if q.rid in s.memo then Answered(s, i, if Same(s.memo[q.rid], q) then s.memo[q.rid].body else Rejected(CONFLICT))
    else Answered(s, i, Rejected(HANDLER_ERROR)).(memo := s.memo[q.rid := Memo(q.fn, q.args, Rejected(HANDLER_ERROR))])
  }

  /** Nothing unread lies between the checkpoint and this entry. */
  predicate InTurn(s: Slot, i: nat) {
    i < |s.out| && forall k :: s.checkpoint <= k < i ==> k in s.dropped
  }

  datatype Action =
    | Append(q: Request)
    | Drop(entries: set<nat>)
    | Ingesting(entry: nat, result: Option<string>)
    | Poisoning(entry: nat)

  predicate Enabled(s: Slot, a: Action) {
    match a
    case Append(_) => true
    case Drop(_) => true
    case Ingesting(i, _) => InTurn(s, i)
    case Poisoning(i) => InTurn(s, i)
  }

  function Next(rules: Rules, s: Slot, a: Action): Slot
    requires Enabled(s, a)
  {
    match a
    case Append(q) => s.(out := s.out + [q])
    case Drop(entries) => s.(dropped := s.dropped + entries)
    case Ingesting(i, result) => Ingest(rules, s, i, result)
    case Poisoning(i) => Poison(rules, s, i)
  }

  // ---- What every step keeps ----

  ghost predicate MemoEarned(s: Slot) {
    forall rid :: rid in s.memo ==>
      exists k :: 0 <= k < |s.out| && s.out[k] == Request(rid, s.memo[rid].fn, s.memo[rid].args)
  }

  /** An effect belongs to an entry of this slot's own stream, and its answer is remembered. */
  ghost predicate EffectsRemembered(rules: Rules, s: Slot) {
    forall e :: e in s.applied ==>
      e.entry < |s.out| && s.out[e.entry] == Request(e.rid, e.fn, e.args) && rules.runnable(e.fn, e.args)
      && e.rid in s.memo && s.memo[e.rid] == Memo(e.fn, e.args, Value(e.value))
  }

  ghost predicate AppliedOnce(s: Slot) {
    forall i, j :: 0 <= i < j < |s.applied| ==> s.applied[i].rid != s.applied[j].rid
  }

  /** A remembered value is the value of an effect. */
  ghost predicate ValuesApplied(s: Slot) {
    forall rid :: rid in s.memo && s.memo[rid].body.Value? ==>
      exists e :: e in s.applied && e.rid == rid && Memo(e.fn, e.args, Value(e.value)) == s.memo[rid]
  }

  /** An answer is the remembered one, or a rejection that is not remembered. */
  ghost predicate AnswerRight(rules: Rules, s: Slot, a: Answer) {
    a.entry < |s.out| && a.entry < s.checkpoint && s.out[a.entry].rid == a.rid
    && ((a.rid in s.memo && s.memo[a.rid].body == a.body && Same(s.memo[a.rid], s.out[a.entry]))
        || (a.body == Rejected(CONFLICT) && a.rid in s.memo && !Same(s.memo[a.rid], s.out[a.entry]))
        || (a.body == Rejected(REFUSED) && !rules.runnable(s.out[a.entry].fn, s.out[a.entry].args)))
  }

  ghost predicate AnswersRight(rules: Rules, s: Slot) {
    forall a :: a in s.resp ==> AnswerRight(rules, s, a)
  }

  /** Every entry the checkpoint has passed was answered, unless its id was no id or the slot
      had trimmed it. */
  ghost predicate NothingSkipped(rules: Rules, s: Slot) {
    s.checkpoint <= |s.out|
    && forall k :: 0 <= k < s.checkpoint ==>
         k in s.dropped || !rules.validId(s.out[k].rid) || exists a :: a in s.resp && a.entry == k
  }

  ghost predicate Inv(rules: Rules, s: Slot) {
    MemoEarned(s) && EffectsRemembered(rules, s) && AppliedOnce(s) && ValuesApplied(s)
    && AnswersRight(rules, s) && NothingSkipped(rules, s)
  }

  /** Nothing is taken back. */
  ghost predicate Later(s: Slot, t: Slot) {
    s.out <= t.out && s.dropped <= t.dropped && s.checkpoint <= t.checkpoint
    && (forall rid :: rid in s.memo ==> rid in t.memo && t.memo[rid] == s.memo[rid])
    && s.resp <= t.resp && s.applied <= t.applied
  }

  lemma LaterAgain(s: Slot, t: Slot, u: Slot)
    requires Later(s, t) && Later(t, u)
    ensures Later(s, u)
  {
  }

  lemma AnsweredKeeps(rules: Rules, s: Slot, i: nat, body: Body)
    requires Inv(rules, s) && InTurn(s, i) && s.checkpoint <= i
    requires AnswerRight(rules, s.(checkpoint := i + 1), Answer(s.out[i].rid, body, i))
    ensures Inv(rules, Answered(s, i, body)) && Later(s, Answered(s, i, body))
  {
    var t := Answered(s, i, body);
    forall k | 0 <= k < t.checkpoint
      ensures k in t.dropped || !rules.validId(t.out[k].rid) || exists a :: a in t.resp && a.entry == k
    {
      if k == i {
        assert t.resp[|s.resp|].entry == i;
      } else if k < s.checkpoint && k !in s.dropped && rules.validId(s.out[k].rid) {
        var a :| a in s.resp && a.entry == k;
        assert a in t.resp;
      }
    }
    forall a | a in t.resp ensures AnswerRight(rules, t, a) {
      assert a in s.resp ==> AnswerRight(rules, s, a);
    }
  }

  lemma PassedKeeps(rules: Rules, s: Slot, i: nat)
    requires Inv(rules, s) && InTurn(s, i) && s.checkpoint <= i && !rules.validId(s.out[i].rid)
    ensures Inv(rules, s.(checkpoint := i + 1)) && Later(s, s.(checkpoint := i + 1))
  {
    var t := s.(checkpoint := i + 1);
    forall a | a in t.resp ensures AnswerRight(rules, t, a) {
      assert AnswerRight(rules, s, a);
    }
  }

  /** A first memo for an id changes nothing that was said before. */
  lemma MemoKeeps(rules: Rules, s: Slot, rid: Rid, m: Memo)
    requires Inv(rules, s) && rid !in s.memo && m.body.Rejected?
    requires exists k :: 0 <= k < |s.out| && s.out[k] == Request(rid, m.fn, m.args)
    ensures Inv(rules, s.(memo := s.memo[rid := m])) && Later(s, s.(memo := s.memo[rid := m]))
  {
    var t := s.(memo := s.memo[rid := m]);
    forall a | a in t.resp ensures AnswerRight(rules, t, a) {
      assert AnswerRight(rules, s, a);
    }
    forall r | r in t.memo && t.memo[r].body.Value?
      ensures exists e :: e in t.applied && e.rid == r && Memo(e.fn, e.args, Value(e.value)) == t.memo[r]
    {
      assert r in s.memo && s.memo[r].body.Value?;
    }
    assert EffectsRemembered(rules, t);
    assert MemoEarned(t);
  }

  lemma EffectKeeps(rules: Rules, s: Slot, i: nat, value: string)
    requires Inv(rules, s) && i < |s.out| && s.out[i].rid !in s.memo && rules.runnable(s.out[i].fn, s.out[i].args)
    ensures var q := s.out[i];
            var t := s.(memo := s.memo[q.rid := Memo(q.fn, q.args, Value(value))],
                        applied := s.applied + [Applied(q.rid, q.fn, q.args, value, i)]);
            Inv(rules, t) && Later(s, t)
  {
    var q := s.out[i];
    var e := Applied(q.rid, q.fn, q.args, value, i);
    var t := s.(memo := s.memo[q.rid := Memo(q.fn, q.args, Value(value))], applied := s.applied + [e]);
    forall a | a in t.resp ensures AnswerRight(rules, t, a) {
      assert AnswerRight(rules, s, a);
    }
    forall k | 0 <= k < |s.applied| ensures s.applied[k].rid != q.rid {
      assert s.applied[k] in s.applied;
    }
    assert AppliedOnce(t);
    assert t.applied[|s.applied|] == e;
    forall r | r in t.memo && t.memo[r].body.Value?
      ensures exists x :: x in t.applied && x.rid == r && Memo(x.fn, x.args, Value(x.value)) == t.memo[r]
    {
      if r == q.rid {
        assert e in t.applied;
      } else {
        var x :| x in s.applied && x.rid == r && Memo(x.fn, x.args, Value(x.value)) == s.memo[r];
        assert x in t.applied;
      }
    }
    assert MemoEarned(t);
    assert EffectsRemembered(rules, t);
  }

  lemma IngestKeeps(rules: Rules, s: Slot, i: nat, result: Option<string>)
    requires Inv(rules, s) && InTurn(s, i)
    ensures Inv(rules, Ingest(rules, s, i, result)) && Later(s, Ingest(rules, s, i, result))
  {
    hide Inv, Later;
    var q := s.out[i];
    LaterSelf(s);
    if i >= s.checkpoint {
      if !rules.validId(q.rid) {
        PassedKeeps(rules, s, i);
      } else if q.rid in s.memo {
        AnsweredKeeps(rules, s, i, if Same(s.memo[q.rid], q) then s.memo[q.rid].body else Rejected(CONFLICT));
      } else if !rules.runnable(q.fn, q.args) {
        AnsweredKeeps(rules, s, i, Rejected(REFUSED));
      } else if result.Some? {
        EffectKeeps(rules, s, i, result.value);
        var t := s.(memo := s.memo[q.rid := Memo(q.fn, q.args, Value(result.value))],
                    applied := s.applied + [Applied(q.rid, q.fn, q.args, result.value, i)]);
        AnsweredKeeps(rules, t, i, Value(result.value));
        LaterAgain(s, t, Answered(t, i, Value(result.value)));
      }
    }
  }

  lemma LaterSelf(s: Slot)
    ensures Later(s, s)
  {
  }

  lemma PoisonKeeps(rules: Rules, s: Slot, i: nat)
    requires Inv(rules, s) && InTurn(s, i)
    ensures Inv(rules, Poison(rules, s, i)) && Later(s, Poison(rules, s, i))
  {
    hide Inv, Later;
    var q := s.out[i];
    LaterSelf(s);
    if i >= s.checkpoint {
      if !rules.validId(q.rid) {
        PassedKeeps(rules, s, i);
      } else if q.rid in s.memo {
        AnsweredKeeps(rules, s, i, if Same(s.memo[q.rid], q) then s.memo[q.rid].body else Rejected(CONFLICT));
      } else {
        var m := Memo(q.fn, q.args, Rejected(HANDLER_ERROR));
        MemoKeeps(rules, s, q.rid, m);
        var t := s.(memo := s.memo[q.rid := m]);
        AnsweredKeeps(rules, t, i, Rejected(HANDLER_ERROR));
        LaterAgain(s, t, Answered(t, i, Rejected(HANDLER_ERROR)));
      }
    }
  }

  lemma ClientKeeps(rules: Rules, s: Slot, q: Request, entries: set<nat>)
    requires Inv(rules, s)
    ensures Inv(rules, s.(out := s.out + [q])) && Later(s, s.(out := s.out + [q]))
    ensures Inv(rules, s.(dropped := s.dropped + entries)) && Later(s, s.(dropped := s.dropped + entries))
  {
    var t := s.(out := s.out + [q]);
    forall a | a in s.resp ensures AnswerRight(rules, t, a) {
      assert AnswerRight(rules, s, a);
    }
    forall rid | rid in t.memo
      ensures exists k :: 0 <= k < |t.out| && t.out[k] == Request(rid, t.memo[rid].fn, t.memo[rid].args)
    {
      var k :| 0 <= k < |s.out| && s.out[k] == Request(rid, s.memo[rid].fn, s.memo[rid].args);
      assert t.out[k] == s.out[k];
    }
    var u := s.(dropped := s.dropped + entries);
    forall a | a in s.resp ensures AnswerRight(rules, u, a) {
      assert AnswerRight(rules, s, a);
    }
  }

  lemma NextKeeps(rules: Rules, s: Slot, a: Action)
    requires Inv(rules, s) && Enabled(s, a)
    ensures Inv(rules, Next(rules, s, a)) && Later(s, Next(rules, s, a))
  {
    hide Inv, Later, Ingest, Poison;
    match a
    case Append(q) => ClientKeeps(rules, s, q, {});
    case Drop(entries) => ClientKeeps(rules, s, Request("", "", ""), entries);
    case Ingesting(i, result) => IngestKeeps(rules, s, i, result);
    case Poisoning(i) => PoisonKeeps(rules, s, i);
  }

  // ---- Runs ----

  ghost predicate StepAt(rules: Rules, run: seq<Slot>, i: nat) {
    i + 1 < |run| && exists a :: Enabled(run[i], a) && run[i + 1] == Next(rules, run[i], a)
  }

  ghost predicate IsRun(rules: Rules, run: seq<Slot>) {
    run != [] && run[0] == NEW_SLOT && forall i: nat :: i + 1 < |run| ==> StepAt(rules, run, i)
  }

  lemma {:induction false} RunInv(rules: Rules, run: seq<Slot>, i: nat)
    requires IsRun(rules, run) && i < |run|
    ensures Inv(rules, run[i])
  {
    if i > 0 {
      RunInv(rules, run, i - 1);
      assert StepAt(rules, run, i - 1);
      var a :| Enabled(run[i - 1], a) && run[i] == Next(rules, run[i - 1], a);
      NextKeeps(rules, run[i - 1], a);
    }
  }

  lemma {:induction false} RunLater(rules: Rules, run: seq<Slot>, i: nat, j: nat)
    requires IsRun(rules, run) && i <= j < |run|
    ensures Later(run[i], run[j])
  {
    hide Inv, Later;
    LaterSelf(run[i]);
    if i < j {
      RunLater(rules, run, i, j - 1);
      RunInv(rules, run, j - 1);
      assert StepAt(rules, run, j - 1);
      var a :| Enabled(run[j - 1], a) && run[j] == Next(rules, run[j - 1], a);
      NextKeeps(rules, run[j - 1], a);
      LaterAgain(run[i], run[j - 1], run[j]);
    }
  }

  /** Over any run, resends and restarts included: at most one effect under an id; an answer
      that carries a value is that effect's value, then and for ever; no entry is passed over. */
  lemma AtMostOnce(rules: Rules, run: seq<Slot>, i: nat, j: nat, a: Answer)
    requires IsRun(rules, run) && i <= j < |run| && a in run[i].resp && a.body.Value?
    ensures a.entry < |run[i].out|
    ensures exists e :: e in run[j].applied && e.rid == a.rid && e.value == a.body.value
                        && e.fn == run[i].out[a.entry].fn && e.args == run[i].out[a.entry].args
    ensures AppliedOnce(run[j]) && NothingSkipped(rules, run[j])
    ensures forall b :: b in run[j].resp && b.rid == a.rid && b.body.Value? ==> b.body == a.body
  {
    hide IsRun;
    RunInv(rules, run, i);
    RunInv(rules, run, j);
    RunLater(rules, run, i, j);
    assert AnswerRight(rules, run[i], a);
    var e :| e in run[i].applied && e.rid == a.rid && Memo(e.fn, e.args, Value(e.value)) == run[i].memo[a.rid];
    assert e in run[j].applied;
    forall b | b in run[j].resp && b.rid == a.rid && b.body.Value? ensures b.body == a.body {
      assert AnswerRight(rules, run[j], b);
    }
  }
}
