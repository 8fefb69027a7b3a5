/** The event delivery protocol: one adapter between a Valkey consumer group and a
    session that acknowledges events by id.

    A state holds what Valkey stores, what the adapter process remembers, and the
    history of everything that happened so far.  An action is one command that took
    effect, one notification, one change of the adapter's memory, or one step of the
    outside world.  `Enabled` is the discipline the adapter has to keep (the module
    EventAdapter proves that it does); the theorems below hold of every history that
    keeps it, whatever fails and however often the process dies. */
module Delivery {

  type EventId = string
  type Stream = string
  type Consumer = string

  /** A stream entry.  Ids grow along a stream, so an id is a position. */
  datatype Entry = Entry(stream: Stream, index: nat)

  datatype Payload = Malformed | Unrouted(event: EventId) | Routed(event: EventId)

  /** An event pushed to the session and not acknowledged yet, with every entry carrying it. */
  datatype Item = Item(attempt: int, deliveredAt: int, entries: seq<Entry>)

  const MAX_ENTRIES_PER_EVENT: nat := 16

  /** Where the section that holds the adapter's lock stands. */
  datatype Phase =
    | Idle
    | Counted(event: EventId, attempt: int)  // the counter has moved, nothing was pushed for it yet
    | Unsent(event: EventId)                 // the push failed, the attempt is to be given back
    | Doomed(event: EventId, attempt: int)   // over the limit, the marker is to be written
    | Acking(event: EventId)                 // the session has acknowledged the event

  datatype Reason = Undeliverable | AlreadyMarked | OverCap

  datatype Action =
      // the outside world
    | Produce(stream: Stream, payload: Payload)
    | LapseMarker(event: EventId)
    | LapseCounter(event: EventId)
    | Restart(consumer: Consumer, at: Phase)
      // Valkey commands
    | Deliver(stream: Stream, count: nat)
    | Claim(entries: set<Entry>)
    | Mark(event: EventId)
    | Xack(entry: Entry, why: Reason)
    | NewCounter(event: EventId)
    | Bump(event: EventId)
    | Refund(event: EventId)
      // the session
    | Push(event: EventId, attempt: int, ok: bool)
    | AckRequested(event: EventId)
    | Acked(event: EventId)
      // the adapter's memory
    | Track(event: EventId, at_: int, entry: Entry)
    | Join(event: EventId, entry: Entry)
    | Renew(event: EventId, attempt: int, at_: int)
    | Drop(event: EventId)
    | Cache(event: EventId)
    | Uncache(event: EventId)
    | Reject(event: EventId, attempt: int)
    | Settled(event: EventId)
    | Abort(at: Phase)

  /** What Valkey stores: the streams, and the group's read positions, pending list,
      dedup markers and attempt counters. */
  datatype Store = Store(
    logs: map<Stream, seq<Payload>>,
    read: map<Stream, nat>,
    pending: map<Entry, Consumer>,
    markers: set<EventId>,
    counters: map<EventId, int>)

  /** What the adapter process remembers. */
  datatype Memory = Memory(
    consumer: Consumer,
    inflight: map<EventId, Item>,
    recent: set<EventId>)             // acknowledged recently, by this process

  datatype State = State(
    limit: int,                       // the policy's max_attempts
    store: Store,
    memory: Memory,
    phase: Phase,
    history: seq<Action>)             // everything that happened
  {
    ghost predicate Exists(e: Entry) {
      e.stream in store.logs && e.index < |store.logs[e.stream]|
    }

    ghost function PayloadOf(e: Entry): Payload
      requires Exists(e)
    {
      store.logs[e.stream][e.index]
    }

    /** The entry carries a valid, routed envelope of this event. */
    ghost predicate Carries(e: Entry, v: EventId) {
      Exists(e) && PayloadOf(e) == Routed(v)
    }

    ghost predicate WasRead(e: Entry) {
      Exists(e) && e.stream in store.read && e.index < store.read[e.stream]
    }

    ghost function Counter(v: EventId): int {
      if v in store.counters then store.counters[v] else 0
    }

    ghost predicate WasMarked(v: EventId) { Mark(v) in history }

    /** The entry is pending and this consumer holds it. */
    ghost predicate Mine(e: Entry) { e in store.pending && store.pending[e] == memory.consumer }

    ghost predicate Tracked(e: Entry) {
      exists v :: v in memory.inflight && e in memory.inflight[v].entries
    }

    /** An attempt of this event has been counted and is not settled yet. */
    ghost predicate Open(v: EventId) {
      (phase.Counted? || phase.Unsent?) && phase.event == v
    }
  }

  /** A group just created over some streams, before any adapter has run.  Positions count
      from where the group starts. */
  ghost predicate Initial(s: State) {
    && s.store.read.Keys == s.store.logs.Keys
    && (forall st :: st in s.store.logs ==> s.store.read[st] == 0)
    && s.store.pending == map[] && s.store.markers == {} && s.store.counters == map[]
    && s.memory.inflight == map[] && s.memory.recent == {} && s.phase == Idle
    && s.history == []
  }

  /** When the adapter, or the world around it, may take an action. */
  ghost predicate Enabled(s: State, a: Action) {
    match a
    case Produce(st, p) => st in s.store.logs
    case LapseMarker(v) => s.phase == Idle
    case LapseCounter(v) => s.phase == Idle
    case Restart(c, at) => at == s.phase
    case Deliver(st, n) => st in s.store.logs && st in s.store.read && s.store.read[st] + n <= |s.store.logs[st]|
    case Claim(es) => es <= s.store.pending.Keys
    case Mark(v) => (s.phase.Doomed? || s.phase.Acking?) && s.phase.event == v
    case Xack(e, why) =>
      s.Exists(e) && (
        match why
        case Undeliverable => !s.PayloadOf(e).Routed?
        case AlreadyMarked => s.PayloadOf(e).Routed? && s.WasMarked(s.PayloadOf(e).event)
        case OverCap =>
          s.PayloadOf(e).Routed? && (
            var v := s.PayloadOf(e).event;
            && v in s.memory.inflight && e !in s.memory.inflight[v].entries
            && |s.memory.inflight[v].entries| >= MAX_ENTRIES_PER_EVENT))
    case NewCounter(v) => s.phase == Idle
    case Bump(v) => s.phase == Idle && v in s.store.counters
    case Refund(v) => s.phase == Unsent(v)
    case Push(v, n, ok) => s.phase == Counted(v, n) && n <= s.limit && v in s.memory.inflight
    case AckRequested(v) => s.phase == Idle && v in s.memory.inflight
    case Acked(v) => s.phase == Acking(v) && v in s.store.markers && v !in s.memory.inflight
    case Track(v, at, e) =>
      && s.phase.Counted? && s.phase.event == v && s.phase.attempt <= s.limit
      && v !in s.memory.inflight && v !in s.store.markers && v !in s.memory.recent
      && s.WasRead(e) && s.Carries(e, v) && (s.Mine(e) || s.WasMarked(v))
    case Join(v, e) =>
      && s.phase == Idle && v in s.memory.inflight && v !in s.store.markers && v !in s.memory.recent
      && e !in s.memory.inflight[v].entries && |s.memory.inflight[v].entries| < MAX_ENTRIES_PER_EVENT
      && s.WasRead(e) && s.Carries(e, v) && (s.Mine(e) || s.WasMarked(v))
    case Renew(v, n, at) => s.phase == Idle && v in s.memory.inflight
    case Drop(v) => v in s.memory.inflight && (s.WasMarked(v) || s.phase == Unsent(v))
    case Cache(v) => s.phase == Acking(v) && v in s.store.markers
    case Uncache(v) => true
    case Reject(v, n) => s.phase == Counted(v, n) && n > s.limit
    case Settled(v) => s.phase.Doomed? && s.phase.event == v && v in s.store.markers && v !in s.memory.inflight
    case Abort(at) => at == s.phase
  }

  ghost function Range(st: Stream, from: nat, n: nat): (es: set<Entry>)
    ensures forall e :: e in es <==> e.stream == st && from <= e.index < from + n
  {
    set i: nat | from <= i < from + n :: Entry(st, i)
  }

  function OwnedBy(es: set<Entry>, c: Consumer): (m: map<Entry, Consumer>)
    ensures m.Keys == es && forall e :: e in es ==> m[e] == c
  {
    map e | e in es :: c
  }

  ghost function StoreAfter(s: State, a: Action): Store
    requires Enabled(s, a)
  {
    var v := s.store;
    match a
    case Produce(st, p) => v.(logs := v.logs[st := v.logs[st] + [p]])
    case LapseMarker(id) => v.(markers := v.markers - {id})
    case LapseCounter(id) => v.(counters := v.counters - {id})
    case Deliver(st, n) =>
      v.(read := v.read[st := v.read[st] + n],
         pending := v.pending + OwnedBy(Range(st, v.read[st], n), s.memory.consumer))
    case Claim(es) => v.(pending := v.pending + OwnedBy(es, s.memory.consumer))
    case Mark(id) => v.(markers := v.markers + {id})
    case Xack(e, why) => v.(pending := v.pending - {e})
    case NewCounter(id) => if id in v.counters then v else v.(counters := v.counters[id := 0])
    case Bump(id) => v.(counters := v.counters[id := v.counters[id] + 1])
    case Refund(id) => v.(counters := v.counters[id := s.Counter(id) - 1])
    case _ => v
  }

  ghost function MemoryAfter(s: State, a: Action): Memory
    requires Enabled(s, a)
  {
    var m := s.memory;
    match a
    case Restart(c, _) => Memory(c, map[], {})
    case Track(v, at, e) => m.(inflight := m.inflight[v := Item(s.phase.attempt, at, [e])])
    case Join(v, e) => m.(inflight := m.inflight[v := m.inflight[v].(entries := m.inflight[v].entries + [e])])
    case Renew(v, n, at) => m.(inflight := m.inflight[v := m.inflight[v].(attempt := n, deliveredAt := at)])
    case Drop(v) => m.(inflight := m.inflight - {v})
    case Cache(v) => m.(recent := m.recent + {v})
    case Uncache(v) => m.(recent := m.recent - {v})
    case _ => m
  }

  ghost function PhaseAfter(s: State, a: Action): Phase
    requires Enabled(s, a)
  {
    match a
    case Bump(v) => Counted(v, s.store.counters[v] + 1)
    case Push(v, _, ok) => if ok then Idle else Unsent(v)
    case AckRequested(v) => Acking(v)
    case Reject(v, n) => Doomed(v, n)
    case Restart(_, _) | Refund(_) | Acked(_) | Settled(_) | Abort(_) => Idle
    case _ => s.phase
  }

  ghost function Apply(s: State, a: Action): State
    requires Enabled(s, a)
  {
    State(s.limit, StoreAfter(s, a), MemoryAfter(s, a), PhaseAfter(s, a), s.history + [a])
  }

  /** `t` is one action later than `s`. */
  ghost predicate Follows(s: State, t: State) {
    && |t.history| == |s.history| + 1
    && Enabled(s, t.history[|s.history|])
    && t == Apply(s, t.history[|s.history|])
  }

  ghost predicate StepAt(run: seq<State>, i: nat) {
    i + 1 < |run| && Follows(run[i], run[i + 1])
  }

  /** Every state a group goes through, from its creation on: over any number of processes. */
  ghost predicate IsRun(run: seq<State>) {
    && run != [] && Initial(run[0])
    && forall i: nat :: i + 1 < |run| ==> StepAt(run, i)
  }

  ghost function Last(run: seq<State>): State
    requires run != []
  {
    run[|run| - 1]
  }

  lemma Extend(run: seq<State>, a: Action)
    requires IsRun(run) && Enabled(Last(run), a)
    ensures IsRun(run + [Apply(Last(run), a)])
  {
    var longer := run + [Apply(Last(run), a)];
    forall i: nat | i + 1 < |longer| ensures StepAt(longer, i) {
      assert i + 1 < |run| ==> StepAt(run, i);
    }
  }

  // ---- What the history says of an event ----

  /** The attempt numbers pushed to the session since the event's counter last lapsed. */
  ghost function Attempts(h: seq<Action>, v: EventId): seq<int> {
    if h == [] then []
    else
      var a := h[|h| - 1];
      if a == LapseCounter(v) then []
      else if a.Push? && a.event == v && a.ok then Attempts(h[..|h| - 1], v) + [a.attempt]
      else Attempts(h[..|h| - 1], v)
  }

  /** The action used up a counted attempt of the event: a push, a rejection, or a lost section. */
  ghost predicate Spends(a: Action, v: EventId) {
    || (a.Push? && a.event == v && a.ok)
    || (a.Reject? && a.event == v)
    || ((a.Abort? || a.Restart?) && (a.at.Counted? || a.at.Unsent?) && a.at.event == v)
  }

  /** How many attempts were used up since the event's counter last lapsed. */
  ghost function SpentOn(h: seq<Action>, v: EventId): nat {
    if h == [] then 0
    else
      var a := h[|h| - 1];
      if a == LapseCounter(v) then 0
      else (if Spends(a, v) then 1 else 0) + SpentOn(h[..|h| - 1], v)
  }

  // ---- The invariant ----

  ghost predicate PositionsFit(s: State) {
    s.store.read.Keys == s.store.logs.Keys && forall st :: st in s.store.logs ==> s.store.read[st] <= |s.store.logs[st]|
  }

  ghost predicate WellFormed(s: State) {
    && PositionsFit(s)
    && (forall e :: e in s.store.pending ==> s.WasRead(e))
    && (forall v :: v in s.store.markers || v in s.memory.recent ==> s.WasMarked(v))
  }

  ghost predicate Distinct(es: seq<Entry>) {
    forall i, j :: 0 <= i < j < |es| ==> es[i] != es[j]
  }

  /** Every in-flight event lists entries of its own, and while its marker has never been
      written every one of them is pending for this consumer. */
  ghost predicate InflightPending(s: State) {
    forall v :: v in s.memory.inflight ==> ItemPending(s, v, s.memory.inflight[v].entries)
  }

  ghost predicate ItemPending(s: State, v: EventId, es: seq<Entry>) {
    && 1 <= |es| <= MAX_ENTRIES_PER_EVENT && Distinct(es)
    && forall i :: 0 <= i < |es| ==>
         s.Carries(es[i], v) && s.WasRead(es[i]) && (s.WasMarked(v) || s.Mine(es[i]))
  }

  ghost predicate CopyPending(s: State, e: Entry, v: EventId) {
    exists other :: other != e && s.Carries(other, v) && other in s.store.pending
  }

  ghost predicate NoEventLost(s: State) {
    forall e, v :: s.WasRead(e) && s.Carries(e, v) ==>
      || e in s.store.pending
      || s.WasMarked(v)
      || (Xack(e, OverCap) in s.history && CopyPending(s, e, v))
  }

  ghost predicate Rising(ns: seq<int>) {
    forall i, j :: 0 <= i < j < |ns| ==> ns[i] < ns[j]
  }

  /** What the counter holds beside an attempt that is still under way. */
  ghost function SettledCount(s: State, v: EventId): int {
    s.Counter(v) - (if s.Open(v) then 1 else 0)
  }

  /** Every attempt counted is accounted for. */
  ghost predicate Account(s: State, v: EventId) {
    && SettledCount(s, v) == SpentOn(s.history, v)
    && (s.phase.Counted? && s.phase.event == v ==> s.phase.attempt == s.Counter(v))
  }

  /** The attempts pushed are numbered upwards within the limit. */
  ghost predicate Numbered(ns: seq<int>, limit: int, count: int) {
    Rising(ns) && forall i :: 0 <= i < |ns| ==> 1 <= ns[i] <= limit && ns[i] <= count
  }

  ghost predicate Budget(s: State, v: EventId) {
    Account(s, v) && Numbered(Attempts(s.history, v), s.limit, SettledCount(s, v))
  }

  ghost predicate Inv(s: State) {
    WellFormed(s) && InflightPending(s) && NoEventLost(s) && forall v :: Budget(s, v)
  }

  lemma KeepsPositions(s: State, a: Action)
    requires PositionsFit(s) && Enabled(s, a)
    ensures PositionsFit(Apply(s, a))
  {
  }

  lemma KeepsWellFormed(s: State, a: Action)
    requires WellFormed(s) && Enabled(s, a)
    ensures WellFormed(Apply(s, a))
  {
    KeepsPositions(s, a);
  }

  lemma KeepsInflightPending(s: State, a: Action)
    requires WellFormed(s) && InflightPending(s) && Enabled(s, a)
    ensures InflightPending(Apply(s, a))
  {
    var t := Apply(s, a);
    forall v | v in t.memory.inflight ensures ItemPending(t, v, t.memory.inflight[v].entries) {
      if v in s.memory.inflight {
        KeepsItem(s, a, v, s.memory.inflight[v].entries);
      }
    }
  }

  lemma KeepsItem(s: State, a: Action, v: EventId, es: seq<Entry>)
    requires WellFormed(s) && Enabled(s, a) && v in s.memory.inflight && s.memory.inflight[v].entries == es
    requires ItemPending(s, v, es) && !a.Restart?
    ensures ItemPending(Apply(s, a), v, es)
  {
    var t := Apply(s, a);
    forall i | 0 <= i < |es|
      ensures t.Carries(es[i], v) && t.WasRead(es[i]) && (t.WasMarked(v) || t.Mine(es[i]))
    {
    }
  }

  lemma KeepsNoEventLost(s: State, a: Action)
    requires WellFormed(s) && InflightPending(s) && NoEventLost(s) && Enabled(s, a)
    ensures NoEventLost(Apply(s, a))
  {
    var t := Apply(s, a);
    forall e, v | t.WasRead(e) && t.Carries(e, v) && e !in t.store.pending && !t.WasMarked(v)
      ensures Xack(e, OverCap) in t.history && CopyPending(t, e, v)
    {
      KeepsAccounted(s, a, e, v);
    }
  }

  lemma KeepsAccounted(s: State, a: Action, e: Entry, v: EventId)
    requires WellFormed(s) && InflightPending(s) && NoEventLost(s) && Enabled(s, a)
    requires var t := Apply(s, a); t.WasRead(e) && t.Carries(e, v) && e !in t.store.pending && !t.WasMarked(v)
    ensures Xack(e, OverCap) in Apply(s, a).history && CopyPending(Apply(s, a), e, v)
  {
    if a.Xack? {
      if s.WasMarked(v) {
        assert false;
      }
      AcknowledgedCopyRemains(s, a, e, v);
    } else {
      WasAccounted(s, a, e, v);
      CopyStaysPending(s, a, e, v);
      assert Xack(e, OverCap) in Apply(s, a).history;
    }
  }

  /** Only an acknowledgement ends an entry's being pending, so it was not pending before. */
  lemma WasAccounted(s: State, a: Action, e: Entry, v: EventId)
    requires WellFormed(s) && NoEventLost(s) && Enabled(s, a) && !a.Xack?
    requires var t := Apply(s, a); t.WasRead(e) && t.Carries(e, v) && e !in t.store.pending && !t.WasMarked(v)
    ensures Xack(e, OverCap) in s.history && CopyPending(s, e, v)
  {
    hide MemoryAfter, PhaseAfter, CopyPending;
    var t := Apply(s, a);
    assert !s.WasMarked(v) by {
      assert forall b :: b in s.history ==> b in t.history;
    }
    assert s.WasRead(e) && s.Carries(e, v) && e !in s.store.pending;
  }

  lemma CopyStaysPending(s: State, a: Action, e: Entry, v: EventId)
    requires Enabled(s, a) && !a.Xack? && CopyPending(s, e, v)
    ensures CopyPending(Apply(s, a), e, v)
  {
    hide MemoryAfter, PhaseAfter;
    var other :| other != e && s.Carries(other, v) && other in s.store.pending;
    assert Apply(s, a).Carries(other, v) && other in Apply(s, a).store.pending;
  }

  /** An acknowledged entry of an unmarked event leaves another entry of it pending. */
  lemma AcknowledgedCopyRemains(s: State, a: Action, e: Entry, v: EventId)
    requires WellFormed(s) && InflightPending(s) && Enabled(s, a) && a.Xack?
    requires s.Carries(e, v) && !s.WasMarked(v)
    requires a.entry == e || CopyPending(s, e, v)
    ensures CopyPending(Apply(s, a), e, v)
  {
    var t := Apply(s, a);
    if s.Carries(a.entry, v) {
      assert a.why == OverCap;
      var kept := s.memory.inflight[v].entries;
      assert forall i :: 0 <= i < |kept| ==> kept[i] != a.entry;
      assert s.Carries(kept[0], v) && s.Carries(kept[1], v) && kept[0] in s.store.pending && kept[1] in s.store.pending;
      assert t.Carries(kept[0], v) && t.Carries(kept[1], v) && kept[0] in t.store.pending && kept[1] in t.store.pending;
    } else {
      var other :| other != e && s.Carries(other, v) && other in s.store.pending;
      assert t.Carries(other, v) && other in t.store.pending;
    }
  }

  lemma SpentAfter(h: seq<Action>, a: Action, v: EventId)
    ensures SpentOn(h + [a], v) == if a == LapseCounter(v) then 0 else (if Spends(a, v) then 1 else 0) + SpentOn(h, v)
  {
    assert (h + [a])[..|h|] == h;
  }

  lemma CounterAfter(s: State, a: Action, v: EventId)
    requires Enabled(s, a)
    ensures Apply(s, a).Counter(v) ==
            if a == Bump(v) then s.Counter(v) + 1
            else if a == Refund(v) then s.Counter(v) - 1
            else if a == LapseCounter(v) then 0
            else s.Counter(v)
  {
    hide MemoryAfter, PhaseAfter;
  }

  ghost function OpenCount(s: State, v: EventId): int {
    if s.Open(v) then 1 else 0
  }

  /** An attempt is opened by counting it and closed by giving it back or spending it. */
  lemma OpenAfter(s: State, a: Action, v: EventId)
    requires Enabled(s, a)
    ensures OpenCount(Apply(s, a), v) ==
            OpenCount(s, v) + (if a == Bump(v) then 1 else 0) - (if a == Refund(v) || Spends(a, v) then 1 else 0)
    ensures a == Refund(v) ==> !Spends(a, v)
    ensures a == LapseCounter(v) ==> OpenCount(s, v) == 0
  {
    hide StoreAfter, MemoryAfter;
  }

  /** While an attempt is under way, its number is the counter. */
  lemma CountedAfter(s: State, a: Action, v: EventId)
    requires Enabled(s, a) && (s.phase.Counted? && s.phase.event == v ==> s.phase.attempt == s.Counter(v))
    ensures var t := Apply(s, a); t.phase.Counted? && t.phase.event == v ==> t.phase.attempt == t.Counter(v)
  {
    CounterAfter(s, a, v);
    hide StoreAfter, MemoryAfter;
  }

  lemma KeepsAccount(s: State, a: Action, v: EventId)
    requires Account(s, v) && Enabled(s, a)
    ensures Account(Apply(s, a), v)
  {
    SpentAfter(s.history, a, v);
    CounterAfter(s, a, v);
    OpenAfter(s, a, v);
    CountedAfter(s, a, v);
    assert forall t :: SettledCount(t, v) == t.Counter(v) - OpenCount(t, v);
    hide SpentOn, StoreAfter, MemoryAfter, PhaseAfter, Enabled, OpenCount, Spends, SettledCount;
    assert Apply(s, a).history == s.history + [a];
  }

  lemma StepInv(s: State, t: State)
    requires Inv(s) && Follows(s, t)
    ensures Inv(t)
  {
    var a := t.history[|s.history|];
    KeepsWellFormed(s, a);
    KeepsInflightPending(s, a);
    KeepsNoEventLost(s, a);
    hide WellFormed, InflightPending, NoEventLost, Enabled, StoreAfter, MemoryAfter, PhaseAfter;
    forall v ensures Budget(t, v) {
      assert Budget(s, v);
      KeepsAccount(s, a, v);
    }
  }

  lemma {:induction false} RunInv(run: seq<State>, i: nat)
    requires IsRun(run) && i < |run|
    ensures Inv(run[i])
  {
    if i > 0 {
      RunInv(run, i - 1);
      assert StepAt(run, i - 1);
      StepInv(run[i - 1], run[i]);
    }
  }

  lemma RunBudget(run: seq<State>, i: nat, v: EventId)
    requires IsRun(run) && i < |run|
    ensures Budget(run[i], v)
  {
    RunInv(run, i);
  }

  // ---- Theorems over every run ----

  /** A run's states share one history, seen up to different points, and one policy. */
  lemma {:induction false} OneHistory(run: seq<State>, i: nat, n: nat)
    requires IsRun(run) && i <= n < |run|
    ensures |run[n].history| == n && run[i].history == run[n].history[..i]
    ensures run[i].limit == run[n].limit
    decreases n
  {
    if n > 0 {
      assert StepAt(run, n - 1);
      if i < n {
        OneHistory(run, i, n - 1);
      } else {
        OneHistory(run, n - 1, n - 1);
      }
    }
  }

  ghost predicate PhaseEarned(s: State) {
    match s.phase
    case Acking(v) => AckRequested(v) in s.history
    case Doomed(v, n) => n > s.limit && Reject(v, n) in s.history
    case _ => true
  }

  lemma {:induction false} AlwaysEarned(run: seq<State>, i: nat)
    requires IsRun(run) && i < |run|
    ensures PhaseEarned(run[i])
  {
    if i > 0 {
      AlwaysEarned(run, i - 1);
      assert StepAt(run, i - 1);
    }
  }

  /** A marker is written only for an event the session acknowledged, or one whose counted
      attempts went over the limit. */
  ghost predicate Earned(h: seq<Action>, v: EventId, limit: int) {
    AckRequested(v) in h || exists n :: n > limit && Reject(v, n) in h
  }

  lemma MarkEarned(run: seq<State>, i: nat, v: EventId)
    requires IsRun(run) && i < |Last(run).history| && Last(run).history[i] == Mark(v)
    ensures Earned(Last(run).history[..i], v, Last(run).limit)
  {
    OneHistory(run, |run| - 1, |run| - 1);
    OneHistory(run, i, |run| - 1);
    OneHistory(run, i + 1, |run| - 1);
    AlwaysEarned(run, i);
    assert StepAt(run, i);
  }

  /** No event is lost: an entry the group has read is still pending, or its event was
      acknowledged or rejected, or it was a copy over the cap and another copy is pending. */
  lemma NoLoss(run: seq<State>, e: Entry, v: EventId)
    requires IsRun(run) && Last(run).WasRead(e) && Last(run).Carries(e, v)
    ensures
      var s := Last(run);
      || e in s.store.pending
      || (exists i :: 0 <= i < |s.history| && s.history[i] == Mark(v) && Earned(s.history[..i], v, s.limit))
      || (Xack(e, OverCap) in s.history
          && exists other :: other != e && s.Carries(other, v) && other in s.store.pending)
  {
    var s := Last(run);
    RunInv(run, |run| - 1);
    if s.WasMarked(v) {
      var i :| 0 <= i < |s.history| && s.history[i] == Mark(v);
      MarkEarned(run, i, v);
    } else if e !in s.store.pending {
      assert CopyPending(s, e, v);
    }
  }

  lemma StepStaysAcknowledged(s: State, a: Action, v: EventId)
    requires Enabled(s, a)
    requires (v in s.store.markers && v !in s.memory.inflight && a != LapseMarker(v)) || a == Acked(v)
    ensures v in Apply(s, a).store.markers && v !in Apply(s, a).memory.inflight
  {
  }

  /** After `ack` returned, the event stays marked and out of flight until its marker lapses. */
  lemma {:induction false} StaysAcknowledged(run: seq<State>, i: nat, n: nat, v: EventId)
    requires IsRun(run) && i < n < |run| && |run[n].history| == n
    requires run[n].history[i] == Acked(v)
    requires forall k :: i < k < n ==> run[n].history[k] != LapseMarker(v)
    ensures v in run[n].store.markers && v !in run[n].memory.inflight
    decreases n
  {
    OneHistory(run, n - 1, n);
    OneHistory(run, n - 1, n - 1);
    assert StepAt(run, n - 1);
    if i < n - 1 {
      StaysAcknowledged(run, i, n - 1, v);
    }
    StepStaysAcknowledged(run[n - 1], run[n].history[n - 1], v);
  }

  lemma StepStaysRejected(s: State, a: Action, v: EventId)
    requires Enabled(s, a) && Account(s, v)
    requires (s.Counter(v) > s.limit && s.phase != Unsent(v) && a != LapseCounter(v))
          || (a.Reject? && a.event == v)
    ensures Apply(s, a).Counter(v) > Apply(s, a).limit && Apply(s, a).phase != Unsent(v)
  {
  }

  /** After a rejection, the counter stays over the limit until it lapses. */
  lemma {:induction false} StaysRejected(run: seq<State>, i: nat, n: nat, v: EventId)
    requires IsRun(run) && i < n < |run| && |run[n].history| == n
    requires run[n].history[i].Reject? && run[n].history[i].event == v
    requires forall k :: i < k < n ==> run[n].history[k] != LapseCounter(v)
    ensures run[n].Counter(v) > run[n].limit && run[n].phase != Unsent(v)
    decreases n
  {
    OneHistory(run, n - 1, n);
    OneHistory(run, n - 1, n - 1);
    assert StepAt(run, n - 1);
    RunBudget(run, n - 1, v);
    if i < n - 1 {
      StaysRejected(run, i, n - 1, v);
    }
    StepStaysRejected(run[n - 1], run[n].history[n - 1], v);
  }

  /** Once `ack` has returned, or the event was rejected, it is never offered to the session
      again, not even in a push that fails, unless what Valkey remembers of it has lapsed. */
  lemma NoPushAfterDone(run: seq<State>, i: nat, j: nat, v: EventId)
    requires IsRun(run) && i < j < |Last(run).history|
    requires Last(run).history[j].Push? && Last(run).history[j].event == v
    ensures
      var h := Last(run).history;
      && (h[i] == Acked(v) ==> exists k :: i < k < j && h[k] == LapseMarker(v))
      && (h[i].Reject? && h[i].event == v ==> exists k :: i < k < j && h[k] == LapseCounter(v))
  {
    var h := Last(run).history;
    OneHistory(run, |run| - 1, |run| - 1);
    OneHistory(run, j, |run| - 1);
    OneHistory(run, j, j);
    OneHistory(run, j + 1, |run| - 1);
    assert StepAt(run, j);
    RunBudget(run, j, v);
    if h[i] == Acked(v) && forall k :: i < k < j ==> h[k] != LapseMarker(v) {
      StaysAcknowledged(run, i, j, v);
      assert false;
    }
    if h[i].Reject? && h[i].event == v && forall k :: i < k < j ==> h[k] != LapseCounter(v) {
      StaysRejected(run, i, j, v);
      assert false;
    }
  }

  lemma {:induction false} RisingIsShort(ns: seq<int>, limit: int)
    requires Rising(ns) && forall i :: 0 <= i < |ns| ==> 1 <= ns[i] <= limit
    ensures |ns| == 0 || |ns| <= ns[|ns| - 1] <= limit
  {
    if |ns| > 1 {
      RisingIsShort(ns[..|ns| - 1], limit);
    }
  }

  /** The pushes of one event are numbered strictly upwards within 1..max_attempts, so there are
      at most max_attempts of them, and the counter is what was spent plus the attempt under way. */
  lemma AttemptsWithinLimit(run: seq<State>, v: EventId)
    requires IsRun(run)
    ensures
      var s := Last(run);
      var ns := Attempts(s.history, v);
      && Rising(ns)
      && (forall n :: n in ns ==> 1 <= n <= s.limit)
      && (ns == [] || |ns| <= s.limit)
      && s.Counter(v) == SpentOn(s.history, v) + (if s.Open(v) then 1 else 0)
  {
    RunBudget(run, |run| - 1, v);
    RisingIsShort(Attempts(Last(run).history, v), Last(run).limit);
  }

  /** Of what was spent on an event since its counter lapsed, only pushes. */
  ghost predicate OnlyPushes(h: seq<Action>, v: EventId) {
    if h == [] || h[|h| - 1] == LapseCounter(v) then true
    else (Spends(h[|h| - 1], v) ==> h[|h| - 1].Push?) && OnlyPushes(h[..|h| - 1], v)
  }

  ghost function UpTo(n: nat): seq<int> { seq(n, i => i + 1) }

  lemma StepNumbers(s: State, a: Action, v: EventId)
    requires Enabled(s, a) && Account(s, v) && OnlyPushes(s.history + [a], v)
    requires a != LapseCounter(v) ==> Attempts(s.history, v) == UpTo(SpentOn(s.history, v))
    ensures Attempts(s.history + [a], v) == UpTo(SpentOn(s.history + [a], v))
  {
    var h := s.history + [a];
    assert h[..|h| - 1] == s.history;
    if a.Push? && a.event == v && a.ok {
      assert a.attempt == SpentOn(s.history, v) + 1;
    }
  }

  /** While no section of the event was cut short and it was not rejected, its pushes are
      numbered 1, 2, 3, ... without a gap: a failed push whose refund worked costs nothing. */
  lemma {:induction false} FailedPushesAreFree(run: seq<State>, n: nat, v: EventId)
    requires IsRun(run) && n < |run| && OnlyPushes(run[n].history, v)
    ensures Attempts(run[n].history, v) == UpTo(SpentOn(run[n].history, v))
  {
    if n > 0 {
      assert StepAt(run, n - 1);
      var a := run[n].history[|run[n - 1].history|];
      assert run[n].history == run[n - 1].history + [a];
      assert run[n].history[..|run[n].history| - 1] == run[n - 1].history;
      RunBudget(run, n - 1, v);
      if a != LapseCounter(v) {
        FailedPushesAreFree(run, n - 1, v);
      }
      StepNumbers(run[n - 1], a, v);
    }
  }
}
