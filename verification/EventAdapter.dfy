/** The adapter itself: the methods that read the consumer group, push events to the
    session and acknowledge them, over a Valkey whose every command may fail before or
    after its effect.  Each method is proved to take only steps the protocol of module
    Delivery allows, so every theorem there holds of everything this class can do. */
module EventAdapter {
  import opened Delivery
  import opened PendingList

  datatype Policy = Policy(
    maxAttempts: nat, maxInflight: nat, streams: seq<Stream>,
    reclaimMinIdle: int, dedupTtl: int)

  const RECENTLY_ACKED_MAX: nat := 4096
  const PENDING_BATCH: nat := 100
  const RECLAIM_BATCH: nat := 50
  const PENDING_PAGES: nat := 10

  /** What becomes of one command: the reply can be lost with the effect or without it. */
  datatype Fate = Answered | LostBefore | LostAfter

  datatype Outcome = Done | Undelivered | Transport

  datatype AckStatus = Unknown | Acknowledged | AckFailed

  class Valkey {
    var logs: map<Stream, seq<Payload>>
    var read: map<Stream, nat>
    var pending: map<Entry, Consumer>
    var markers: set<EventId>
    var counters: map<EventId, int>

    ghost function Contents(): Store
      reads this
    {
      Store(logs, read, pending, markers, counters)
    }
  }

  /** Stopped exactly when it was before or has been told to since. */
  ghost predicate Told(was: bool, before: nat, now: bool, after: nat) {
    before <= after && now == (was || before < after)
  }

  /** Some of the entries, from the first on, were handed over. */
  ghost predicate OfferedPart(before: seq<Entry>, es: seq<Entry>, after: seq<Entry>) {
    exists n :: 0 <= n <= |es| && after == before + es[..n]
  }

  lemma NeverTold(stopped: bool, stops: nat)
    ensures Told(stopped, stops, stopped, stops)
  {
  }

  lemma ToldAgain(a: bool, i: nat, b: bool, j: nat, c: bool, k: nat)
    requires Told(a, i, b, j) && Told(b, j, c, k)
    ensures Told(a, i, c, k)
  {
  }

  // ---- What an operation may do to entries ----

  /** Positions and the consumer stay; payloads stay; no entry becomes pending; one that
      stops being pending is in `handled`, or undeliverable, or of a marked event. */
  ghost predicate Progress(s: State, t: State, handled: set<Entry>) {
    && t.limit == s.limit && t.memory.consumer == s.memory.consumer && t.store.read == s.store.read
    && s.history <= t.history
    && (forall e :: s.Exists(e) ==> t.Exists(e) && t.PayloadOf(e) == s.PayloadOf(e))
    && (forall e :: e in t.store.pending ==> e in s.store.pending && t.store.pending[e] == s.store.pending[e])
    && (forall e :: e in s.store.pending && e !in t.store.pending ==> Gone(t, e) || e in handled)
  }

  ghost predicate Gone(t: State, e: Entry) {
    t.Exists(e) && (t.PayloadOf(e).Routed? ==> t.WasMarked(t.PayloadOf(e).event))
  }

  /** The action was taken in between. */
  ghost predicate Since(s: State, t: State, a: Action) {
    exists i :: |s.history| <= i < |t.history| && t.history[i] == a
  }

  /** A push of the entry's event failed in between. */
  ghost predicate PushedInVain(s: State, t: State, e: Entry) {
    t.Exists(e) && t.PayloadOf(e).Routed? && exists n :: Since(s, t, Push(t.PayloadOf(e).event, n, false))
  }

  ghost predicate AllInVain(s: State, t: State, es: set<Entry>) {
    forall e :: e in es ==> PushedInVain(s, t, e)
  }

  ghost predicate NoPushFailed(s: State, t: State) {
    forall v, n :: !Since(s, t, Push(v, n, false))
  }

  /** Time went by: the history grew, and what was in a stream is still there. */
  ghost predicate Later(s: State, t: State) {
    && s.history <= t.history && t.limit == s.limit
    && forall e :: s.Exists(e) ==> t.Exists(e) && t.PayloadOf(e) == s.PayloadOf(e)
  }

  lemma LastSince(s: State, t: State, u: State, a: Action)
    requires |s.history| < |t.history| && t.history <= u.history && t.history[|t.history| - 1] == a
    ensures Since(s, u, a)
  {
    assert u.history[|t.history| - 1] == a;
  }

  lemma SinceWidens(s: State, t: State, u: State, w: State, a: Action)
    requires Since(t, u, a) && |s.history| <= |t.history| && u.history <= w.history
    ensures Since(s, w, a)
  {
    var i :| |t.history| <= i < |u.history| && u.history[i] == a;
    assert w.history[i] == a;
  }

  lemma SinceEver(s: State, t: State, u: State, w: State)
    requires |s.history| <= |t.history| && u.history <= w.history
    ensures forall a :: Since(t, u, a) ==> Since(s, w, a)
  {
    forall a | Since(t, u, a) ensures Since(s, w, a) {
      SinceWidens(s, t, u, w, a);
    }
  }

  lemma InVainLater(s: State, t: State, u: State, w: State, es: set<Entry>)
    requires AllInVain(t, u, es) && Later(s, t) && Later(u, w)
    ensures AllInVain(s, w, es)
  {
    forall e | e in es ensures PushedInVain(s, w, e) {
      var n :| Since(t, u, Push(u.PayloadOf(e).event, n, false));
      SinceWidens(s, t, u, w, Push(u.PayloadOf(e).event, n, false));
    }
  }

  lemma InVainMore(s: State, t: State, u: State, h1: set<Entry>, h2: set<Entry>, es: set<Entry>, more: set<Entry>)
    requires Progress(s, t, h1) && Progress(t, u, h2) && AllInVain(s, t, es) && AllInVain(t, u, more)
    ensures AllInVain(s, u, es + more)
  {
    InVainLater(s, s, t, u, es);
    InVainLater(s, t, u, u, more);
  }

  lemma OnlyInVain(s: State, t: State, e: Entry, missed: set<Entry>)
    requires missed <= {e} && (missed != {} ==> PushedInVain(s, t, e))
    ensures AllInVain(s, t, missed)
  {
  }

  lemma InVainSinceRead(s: State, blocked: State, t: State, u: State, handled: set<Entry>, es: set<Entry>)
    requires Progress(s, blocked, {}) && Progress(t, u, handled) && AllInVain(t, u, es)
    requires blocked.history <= t.history && blocked.limit == t.limit && blocked.store.logs == t.store.logs
    ensures AllInVain(s, u, es)
  {
    InVainLater(s, t, u, u, es);
  }

  lemma NoneInVainSoFar(s: State, t: State)
    ensures AllInVain(s, t, {})
  {
  }

  /** While no push fails, nothing goes undelivered. */
  lemma NoneInVain(s: State, t: State, es: set<Entry>)
    requires AllInVain(s, t, es) && NoPushFailed(s, t)
    ensures es == {}
  {
    assert forall e :: !PushedInVain(s, t, e);
  }

  /** A count changed only by running out. */
  ghost predicate CountsKept(s: State, t: State) {
    forall v :: t.Counter(v) == s.Counter(v) || Since(s, t, LapseCounter(v))
  }

  ghost predicate CountKept(s: State, t: State, e: Entry) {
    && s.Exists(e) && s.PayloadOf(e).Routed?
    && var v := s.PayloadOf(e).event;
       t.Counter(v) == s.Counter(v) || Since(s, t, LapseCounter(v))
  }

  lemma NoCountChanged(s: State)
    ensures CountsKept(s, s)
  {
  }

  lemma CountsKeptOn(s: State, t: State, u: State)
    requires CountsKept(s, t) && CountsKept(t, u) && s.history <= t.history <= u.history
    ensures CountsKept(s, u)
  {
    SinceEver(s, s, t, u);
    SinceEver(s, t, u, u);
  }

  /** The entry is acknowledged, or an in-flight event answers for it. */
  ghost predicate Handled(s: State, e: Entry) {
    e !in s.store.pending || s.Tracked(e)
  }

  ghost predicate StaysHandled(s: State, t: State) {
    forall e :: Handled(s, e) ==> Handled(t, e)
  }

  /** The entry was read by this consumer and can be handed to `Handle`. */
  ghost predicate Deliverable(s: State, e: Entry) {
    s.WasRead(e) && (s.PayloadOf(e).Routed? ==> s.Mine(e) || s.WasMarked(s.PayloadOf(e).event))
  }

  lemma ProgressTransitive(s: State, t: State, u: State, h1: set<Entry>, h2: set<Entry>)
    requires Progress(s, t, h1) && Progress(t, u, h2)
    ensures Progress(s, u, h1 + h2)
  {
  }

  lemma StaysDeliverable(s: State, t: State, handled: set<Entry>, e: Entry)
    requires Progress(s, t, handled) && Deliverable(s, e) && e !in handled
    ensures Deliverable(t, e)
  {
  }

  // ---- What handling one entry amounts to ----

  /** The event is known to be acknowledged: by the durable marker or by the cache in front of it. */
  ghost predicate Known(s: State, t: State, v: EventId) {
    v in s.store.markers || v in t.memory.recent
  }

  function SetOf(es: seq<Entry>): set<Entry> {
    set e | e in es
  }

  lemma OneMoreOf(es: seq<Entry>, i: nat)
    requires i < |es| && Distinct(es)
    ensures SetOf(es[..i + 1]) == SetOf(es[..i]) + {es[i]} && SetOf(es[..i + 1]) <= SetOf(es)
    ensures es[i] in es && es[i] !in SetOf(es[..i])
  {
    assert es[..i + 1] == es[..i] + [es[i]];
  }

  lemma SetOfBoth(es: seq<Entry>, more: seq<Entry>)
    ensures SetOf(es + more) == SetOf(es) + SetOf(more)
  {
  }

  lemma NoneMissed(s: State)
    ensures AllInVain(s, s, {}) && SetOf([]) == {}
  {
  }

  ghost function EntriesOf(inflight: map<EventId, Item>, v: EventId): set<Entry> {
    if v in inflight then SetOf(inflight[v].entries) else {}
  }

  /** The whole effect of handling an entry when nothing failed. */
  ghost predicate HandledOnce(s: State, t: State, e: Entry) {
    && s.Exists(e) && s.history <= t.history && t.limit == s.limit && t.phase == Idle
    && t.memory.consumer == s.memory.consumer && t.memory.recent <= s.memory.recent
    && if !s.PayloadOf(e).Routed? then
         t.store == s.store.(pending := s.store.pending - {e}) && t.memory == s.memory
       else
         var v := s.PayloadOf(e).event;
         var n := s.Counter(v) + 1;
         if Known(s, t, v) then
           // finished already: acknowledged with everything tracked for it
           && t.store == s.store.(pending := s.store.pending - ({e} + EntriesOf(s.memory.inflight, v)))
           && t.memory.inflight == s.memory.inflight - {v}
         else if v in s.memory.inflight then
           var item := s.memory.inflight[v];
           if e in item.entries then
             t.store == s.store && t.memory.inflight == s.memory.inflight
           else if |item.entries| >= MAX_ENTRIES_PER_EVENT then
             t.store == s.store.(pending := s.store.pending - {e}) && t.memory.inflight == s.memory.inflight
           else
             && t.store == s.store
             && t.memory.inflight == s.memory.inflight[v := item.(entries := item.entries + [e])]
         else if n > s.limit then
           // delivered too often: marked, and never pushed
           && t.store == s.store.(markers := s.store.markers + {v}, counters := s.store.counters[v := n],
                                  pending := s.store.pending - {e})
           && t.memory.inflight == s.memory.inflight
         else
           && t.store == s.store.(counters := s.store.counters[v := n])
           && (exists at :: t.memory.inflight == s.memory.inflight[v := Item(n, at, [e])])
           && t.history != [] && t.history[|t.history| - 1] == Push(v, n, true)
  }

  class Adapter {
    const policy: Policy
    const valkey: Valkey
    var consumer: Consumer
    var inflight: map<EventId, Item>
    var recentlyAcked: map<EventId, int>
    var stopped: bool
    ghost var phase: Phase
    ghost var history: seq<Action>
    ghost var run: seq<State>
    ghost var stops: nat  // how often it has been told to stop
    ghost var offered: seq<Entry>  // the entries handed to `Handle` so far, in order
    ghost var lost: nat  // how many commands have had no answer so far

    ghost function View(): State
      reads this, valkey
    {
      State(policy.maxAttempts, valkey.Contents(), Memory(consumer, inflight, recentlyAcked.Keys), phase, history)
    }

    /** The group exists on every subscribed stream (`ensureGroups`); the policy lists each once. */
    ghost predicate Subscribed()
      reads this, valkey
    {
      && (forall st :: st in policy.streams ==> st in valkey.logs)
      && (forall i, j :: 0 <= i < j < |policy.streams| ==> policy.streams[i] != policy.streams[j])
    }

    /** The present state is where a run of the protocol has come to. */
    ghost predicate Valid()
      reads this, valkey
    {
      IsRun(run) && Last(run) == View() && Subscribed()
    }

    /** Valid, and no section holds the lock. */
    ghost predicate Resting()
      reads this, valkey
    {
      Valid() && phase == Idle
    }

    /** The first process of a group just created over the given streams. */
    constructor (policy: Policy, valkey: Valkey, consumer: Consumer)
      requires valkey.read.Keys == valkey.logs.Keys && forall st :: st in valkey.read ==> valkey.read[st] == 0
      requires valkey.pending == map[] && valkey.markers == {} && valkey.counters == map[]
      requires forall st :: st in policy.streams ==> st in valkey.logs
      requires forall i, j :: 0 <= i < j < |policy.streams| ==> policy.streams[i] != policy.streams[j]
      ensures Resting() && history == [] && this.policy == policy && this.valkey == valkey
    {
      this.policy, this.valkey, this.consumer := policy, valkey, consumer;
      inflight, recentlyAcked, stopped := map[], map[], false;
      phase, history := Idle, [];
      lost, stops, offered := 0, 0, [];
      run := [State(policy.maxAttempts, valkey.Contents(), Memory(consumer, map[], {}), Idle, [])];
    }

    ghost method Record(before: State, a: Action)
      requires IsRun(run) && Last(run) == before && Enabled(before, a) && Subscribed()
      requires before.history == history && before.phase == phase && before.limit == policy.maxAttempts
      requires valkey.Contents() == StoreAfter(before, a)
      requires Memory(consumer, inflight, recentlyAcked.Keys) == MemoryAfter(before, a)
      modifies this`run, this`history, this`phase
      ensures Valid() && View() == Apply(before, a)
    {
      phase := PhaseAfter(before, a);
      history := history + [a];
      run := run + [View()];
      Extend(run[..|run| - 1], a);
      assert run[..|run| - 1] + [View()] == run;
    }

    // ---- Commands, notifications and the clock ----

    static predicate IsCommand(a: Action) {
      a.Mark? || a.NewCounter? || a.Bump? || a.Refund? || a.Claim?
    }

    /** A command goes out; whether its reply comes is decided by the world. */
    method Send() returns (fate: Fate)
      modifies this`lost
      ensures lost == old(lost) + (if fate.Answered? then 0 else 1)
    {
      fate := *;
      if !fate.Answered? { lost := lost + 1; }
    }

    /** One Valkey command: SET, SET NX, INCR, DECR or XCLAIM. */
    method Exec(cmd: Action) returns (ok: bool)
      requires Valid() && IsCommand(cmd) && Enabled(View(), cmd)
      modifies this`run, this`history, this`phase, this`lost, valkey
      ensures Valid()
      ensures View() == Apply(old(View()), cmd) || (!ok && View() == old(View()))
      ensures lost == old(lost) + (if ok then 0 else 1)
    {
      var fate := Send();
      if fate == LostBefore { return false; }
      ghost var before := View();
      match cmd {
        case Mark(v) => valkey.markers := valkey.markers + {v};
        case NewCounter(v) => if v !in valkey.counters { valkey.counters := valkey.counters[v := 0]; }
        case Bump(v) => valkey.counters := valkey.counters[v := valkey.counters[v] + 1];
        case Refund(v) =>
          var n := if v in valkey.counters then valkey.counters[v] else 0;
          valkey.counters := valkey.counters[v := n - 1];
        case Claim(es) => valkey.pending := valkey.pending + OwnedBy(es, consumer);
      }
      Record(before, cmd);
      return fate == Answered;
    }

    method MarkAcked(v: EventId) returns (ok: bool)
      requires Valid() && (phase.Acking? || phase.Doomed?) && phase.event == v
      modifies this`run, this`history, this`phase, this`lost, valkey
      ensures Valid() && phase == old(phase) && old(history) <= history
      ensures View().store == old(View()).store.(markers := valkey.markers)
      ensures valkey.markers == old(valkey.markers) || valkey.markers == old(valkey.markers) + {v}
      ensures ok ==> valkey.markers == old(valkey.markers) + {v} && View().WasMarked(v)
      ensures lost >= old(lost) + (if ok then 0 else 1) && (ok ==> lost == old(lost))
    {
      ok := Exec(Mark(v));
    }

    method AckEntry(e: Entry, ghost why: Reason) returns (ok: bool)
      requires Valid() && Enabled(View(), Xack(e, why))
      modifies this`run, this`history, this`phase, this`lost, valkey
      ensures Valid() && phase == old(phase) && old(history) <= history
      ensures View().store == old(View()).store.(pending := valkey.pending)
      ensures valkey.pending == old(valkey.pending) || valkey.pending == old(valkey.pending) - {e}
      ensures ok ==> valkey.pending == old(valkey.pending) - {e}
      ensures lost >= old(lost) + (if ok then 0 else 1) && (ok ==> lost == old(lost))
    {
      var fate := Send();
      if fate == LostBefore { return false; }
      ghost var before := View();
      valkey.pending := valkey.pending - {e};
      Record(before, Xack(e, why));
      return fate == Answered;
    }

    /** One notification written to the session, or not. */
    method Emit(v: EventId, attempt: int) returns (sent: bool)
      requires Valid() && phase == Counted(v, attempt) && attempt <= policy.maxAttempts && v in inflight
      modifies this`run, this`history, this`phase
      ensures Valid() && phase == (if sent then Idle else Unsent(v))
      ensures history == old(history) + [Push(v, attempt, sent)]
    {
      sent := *;
      Record(View(), Push(v, attempt, sent));
    }

    /** The section ends on an error: an attempt it had counted is not settled any more. */
    ghost method Fail()
      requires Valid()
      modifies this`run, this`history, this`phase
      ensures Resting() && history == old(history) + [Abort(old(phase))]
    {
      Record(View(), Abort(phase));
    }

    /** The attempt is over the limit: the event is to be marked and given up. */
    ghost method GiveUp(v: EventId, attempt: int)
      requires Valid() && phase == Counted(v, attempt) && attempt > policy.maxAttempts
      modifies this`run, this`history, this`phase
      ensures Valid() && phase == Doomed(v, attempt) && history == old(history) + [Reject(v, attempt)]
    {
      Record(View(), Reject(v, attempt));
    }

    ghost method GivenUp(v: EventId)
      requires Valid() && phase.Doomed? && phase.event == v && v in valkey.markers && v !in inflight
      modifies this`run, this`history, this`phase
      ensures Resting() && history == old(history) + [Settled(v)]
    {
      Record(View(), Settled(v));
    }

    ghost method BeginAck(v: EventId)
      requires Resting() && v in inflight
      modifies this`run, this`history, this`phase
      ensures Valid() && phase == Acking(v) && history == old(history) + [AckRequested(v)]
    {
      Record(View(), AckRequested(v));
    }

    ghost method EndAck(v: EventId)
      requires Valid() && phase == Acking(v) && v in valkey.markers && v !in inflight
      modifies this`run, this`history, this`phase
      ensures Resting() && history == old(history) + [Acked(v)]
    {
      Record(View(), Acked(v));
    }

    // ---- Dedup and the attempt counter ----

    /** `monotonicSeconds` */
    method Clock() returns (now: int) {
      now := *;
    }

    /** A remembered event is acknowledged until its time is over, and then forgotten. */
    method CachedAck(v: EventId) returns (hit: bool, ghost now: int)
      requires Resting()
      modifies this`run, this`history, this`phase, this`recentlyAcked
      ensures Resting() && hit == (v in recentlyAcked)
      ensures hit <==> v in old(recentlyAcked) && old(recentlyAcked)[v] > now
      ensures View() == if v in old(recentlyAcked) && !hit then Apply(old(View()), Uncache(v)) else old(View())
    {
      now := 0;
      if v !in recentlyAcked { return false, now; }
      var time := Clock();
      now := time;
      if recentlyAcked[v] <= time {
        Evict(v);
        return false, now;
      }
      return true, now;
    }

    /** Was the event acknowledged already, possibly by an earlier process? */
    method WasAcked(v: EventId) returns (ok: bool, acked: bool)
      requires Resting()
      modifies this`run, this`history, this`phase, this`lost, this`recentlyAcked
      ensures Resting() && (View() == old(View()) || View() == Apply(old(View()), Uncache(v)))
      ensures ok ==> acked == (v in valkey.markers || v in recentlyAcked)
      ensures lost >= old(lost) + (if ok then 0 else 1) && (ok ==> lost == old(lost))
    {
      ghost var now;
      var hit;
      hit, now := CachedAck(v);
      if hit { return true, true; }
      var fate := Send();
      return fate == Answered, v in valkey.markers;
    }

    /** SET NX and EXPIRE: the counter is there and will be for a while. */
    method EnsureCounter(v: EventId) returns (ok: bool)
      requires Resting()
      modifies this`run, this`history, this`phase, this`lost, valkey
      ensures Resting() && old(history) <= history && View().memory == old(View()).memory
      ensures View().store == old(View()).store.(counters := valkey.counters)
      ensures valkey.counters == old(valkey.counters)
           || (v !in old(valkey.counters) && valkey.counters == old(valkey.counters)[v := 0])
      ensures ok ==> v in valkey.counters
      ensures lost >= old(lost) + (if ok then 0 else 1) && (ok ==> lost == old(lost))
    {
      hide IsRun;
      ok := Exec(NewCounter(v));
      if !ok { return; }
      var refreshed := Send();
      ok := refreshed.Answered?;
    }

    /** The number of this delivery, counted durably before anything is pushed. */
    method BumpAttempt(v: EventId) returns (ok: bool, attempt: int)
      requires Resting()
      modifies this`run, this`history, this`phase, this`lost, valkey
      ensures Valid() && old(history) <= history
      ensures View().store == old(View()).store.(counters := valkey.counters)
      ensures View().memory == old(View()).memory
      ensures forall u :: u != v ==> View().Counter(u) == old(View()).Counter(u)
      ensures ok ==> phase == Counted(v, attempt) && attempt == old(View()).Counter(v) + 1
      ensures ok ==> valkey.counters == old(valkey.counters)[v := attempt]
      ensures !ok ==> phase == Idle
      ensures lost >= old(lost) + (if ok then 0 else 1) && (ok ==> lost == old(lost))
    {
      hide IsRun;
      attempt := 0;
      ok := EnsureCounter(v);
      if !ok { return; }
      ok := Exec(Bump(v));
      attempt := if v in valkey.counters then valkey.counters[v] else 0;
      if !ok { Fail(); }
    }

    /** Give an attempt back when the notification never reached the session; best effort. */
    method DropAttempt(v: EventId)
      requires Valid() && phase == Unsent(v)
      modifies this`run, this`history, this`phase, this`lost, valkey
      ensures Resting() && old(history) <= history
      ensures View().store == old(View()).store.(counters := valkey.counters)
      ensures View().memory == old(View()).memory
      ensures valkey.counters == old(valkey.counters)
           || valkey.counters == old(valkey.counters)[v := old(View()).Counter(v) - 1]
      ensures lost >= old(lost)
      ensures lost == old(lost) ==> valkey.counters == old(valkey.counters)[v := old(View()).Counter(v) - 1]
    {
      var ok := Exec(Refund(v));
      if !ok { Fail(); }
    }
  
    // ---- Handling one entry ----

    /** What every run guarantees of the present state. */
    lemma Present()
      requires Valid()
      ensures Inv(View())
    {
      RunInv(run, |run| - 1);
    }

    lemma PresentItem(v: EventId)
      requires Valid() && v in inflight
      ensures ItemPending(View(), v, inflight[v].entries)
    {
      Present();
    }

    /** XACK of entries of an event whose marker has been written. */
    method XackAll(es: seq<Entry>, ghost v: EventId) returns (ok: bool)
      requires Valid() && View().WasMarked(v) && forall e :: e in es ==> View().Carries(e, v)
      modifies this`run, this`history, this`phase, this`lost, valkey
      ensures Valid() && phase == old(phase) && old(history) <= history
      ensures View().memory == old(View()).memory
      ensures View().store == old(View()).store.(pending := valkey.pending)
      ensures ok ==> valkey.pending == old(valkey.pending) - SetOf(es)
      ensures forall e :: e in valkey.pending ==> e in old(valkey.pending) && valkey.pending[e] == old(valkey.pending)[e]
      ensures forall e :: e in old(valkey.pending) && e !in valkey.pending ==> e in es
      ensures lost >= old(lost) + (if ok then 0 else 1)
    {
      hide IsRun;
      for i := 0 to |es|
        invariant Valid() && phase == old(phase) && old(history) <= history && lost >= old(lost)
        invariant View().memory == old(View()).memory
        invariant View().store == old(View()).store.(pending := valkey.pending)
        invariant valkey.pending == old(valkey.pending) - SetOf(es[..i])
      {
        assert es[i] in es;
        ghost var before := valkey.pending;
        ok := AckEntry(es[i], AlreadyMarked);
        assert es[..i + 1] == es[..i] + [es[i]];
        if !ok { return; }
      }
      assert es[..|es|] == es;
      return true;
    }

    /** `inflight.delete` */
    method Forget(v: EventId)
      requires Valid() && v in inflight && (phase == Unsent(v) || View().WasMarked(v))
      modifies this`run, this`history, this`phase, this`inflight
      ensures Valid() && inflight == old(inflight) - {v}
      ensures phase == old(phase) && history == old(history) + [Drop(v)]
    {
      ghost var before := View();
      inflight := inflight - {v};
      Record(before, Drop(v));
    }

    /** Acknowledge a redelivery of an event the session already answered, together with any
        in-flight state left for it by an `ack` that failed half way. */
    method AcknowledgeAcked(e: Entry, v: EventId) returns (ok: bool)
      requires Resting() && View().Carries(e, v) && View().WasMarked(v)
      modifies this`run, this`history, this`phase, this`lost, this`inflight, valkey
      ensures Resting() && old(history) <= history
      ensures View().memory == old(View()).memory.(inflight := old(inflight) - {v})
      ensures View().store == old(View()).store.(pending := valkey.pending)
      ensures ok ==> valkey.pending == old(valkey.pending) - ({e} + EntriesOf(old(inflight), v))
      ensures Progress(old(View()), View(), {e})
      ensures lost >= old(lost) + (if ok then 0 else 1)
    {
      hide IsRun;
      var entries := [e];
      if v in inflight {
        PresentItem(v);
        entries := entries + Without(inflight[v].entries, e);
        Forget(v);
      } else {
        assert inflight == inflight - {v};
      }
      assert SetOf(entries) == {e} + EntriesOf(old(inflight), v);
      ok := XackAll(entries, v);
      AcknowledgedMarked(old(View()), View(), {e}, v);
    }

    /** Delivered too often and never acknowledged: marked as well as acknowledged, or a
        producer's retry would start over at attempt 1. */
    method RejectNew(e: Entry, v: EventId, attempt: int) returns (ok: bool)
      requires Valid() && phase == Counted(v, attempt) && attempt > policy.maxAttempts
      requires View().Carries(e, v) && v !in inflight
      modifies this`run, this`history, this`phase, this`lost, valkey
      ensures Resting() && old(history) <= history && View().memory == old(View()).memory
      ensures View().store == old(View()).store.(pending := valkey.pending, markers := valkey.markers)
      ensures ok ==> valkey.markers == old(valkey.markers) + {v} && valkey.pending == old(valkey.pending) - {e}
      ensures valkey.pending == old(valkey.pending) || valkey.pending == old(valkey.pending) - {e}
      ensures valkey.pending != old(valkey.pending) ==> View().WasMarked(v)
      ensures lost >= old(lost) + (if ok then 0 else 1) && (ok ==> lost == old(lost))
      ensures ok ==> old(history) < history && history[|history| - 1] == Settled(v)
    {
      hide IsRun;
      GiveUp(v, attempt);
      ok := MarkAcked(v);
      if ok {
        ok := AckEntry(e, AlreadyMarked);
      }
      if ok {
        GivenUp(v);
      } else {
        Fail();
      }
    }

    /** `inflight.set` */
    method TakeInFlight(e: Entry, v: EventId, attempt: int)
      requires Valid() && phase == Counted(v, attempt) && attempt <= policy.maxAttempts
      requires Deliverable(View(), e) && View().Carries(e, v)
      requires v !in valkey.markers && v !in recentlyAcked && v !in inflight
      modifies this`run, this`history, this`phase, this`inflight
      ensures Valid() && phase == old(phase) && old(history) <= history
      ensures exists at :: inflight == old(inflight)[v := Item(attempt, at, [e])]
    {
      var now: int := *;
      ghost var before := View();
      inflight := inflight[v := Item(attempt, now, [e])];
      Record(before, Track(v, now, e));
    }

    /** The push failed: the slot and the attempt are given back. */
    method Release(v: EventId)
      requires Valid() && phase == Unsent(v) && v in inflight
      modifies this`run, this`history, this`phase, this`lost, this`inflight, valkey
      ensures Resting() && old(history) <= history && inflight == old(inflight) - {v}
      ensures View().store == old(View()).store.(counters := valkey.counters)
      ensures valkey.counters == old(valkey.counters)
           || valkey.counters == old(valkey.counters)[v := old(View()).Counter(v) - 1]
      ensures lost >= old(lost)
      ensures lost == old(lost) ==> valkey.counters == old(valkey.counters)[v := old(View()).Counter(v) - 1]
    {
      hide IsRun;
      Forget(v);
      DropAttempt(v);
    }

    /** Take the event in flight and push it; a push that fails releases the slot and the attempt. */
    method PushCounted(e: Entry, v: EventId, attempt: int) returns (sent: bool)
      requires Valid() && phase == Counted(v, attempt) && attempt <= policy.maxAttempts
      requires Deliverable(View(), e) && View().Carries(e, v)
      requires v !in valkey.markers && v !in recentlyAcked && v !in inflight
      modifies this`run, this`history, this`phase, this`lost, this`inflight, valkey
      ensures Resting() && old(history) <= history
      ensures View().store == old(View()).store.(counters := valkey.counters)
      ensures View().memory == old(View()).memory.(inflight := inflight)
      ensures sent ==> valkey.counters == old(valkey.counters)
      ensures sent ==> history != [] && history[|history| - 1] == Push(v, attempt, true)
      ensures sent ==> exists at :: inflight == old(inflight)[v := Item(attempt, at, [e])]
      ensures !sent ==> inflight == old(inflight) && Since(old(View()), View(), Push(v, attempt, false))
      ensures !sent ==> (valkey.counters == old(valkey.counters)
                         || valkey.counters == old(valkey.counters)[v := old(View()).Counter(v) - 1])
      ensures lost >= old(lost)
      ensures !sent && lost == old(lost) ==>
                valkey.counters == old(valkey.counters)[v := old(View()).Counter(v) - 1]
    {
      hide IsRun, Deliverable, Since;
      TakeInFlight(e, v, attempt);
      sent := Emit(v, attempt);
      if !sent {
        ghost var failed := View();
        Release(v);
        LastSince(old(View()), failed, View(), Push(v, attempt, false));
      }
    }

    /** Push an event that is not in flight: counted first, so that a lost reply or a crash
        never leaves a push uncounted. */
    method PushNew(e: Entry, v: EventId) returns (out: Outcome)
      requires Resting() && Deliverable(View(), e) && View().Carries(e, v)
      requires v !in valkey.markers && v !in recentlyAcked && v !in inflight
      modifies this`run, this`history, this`phase, this`lost, this`inflight, valkey
      ensures Resting() && old(history) <= history
      ensures out.Done? ==> HandledOnce(old(View()), View(), e)
      ensures out.Undelivered? ==> PushFailed(old(View()), View(), e)
      ensures out.Transport? ==> inflight == old(inflight)
      ensures Progress(old(View()), View(), {e})
      ensures lost >= old(lost) + (if out.Transport? then 1 else 0)
      ensures out.Undelivered? && lost == old(lost) ==> GivenBack(old(View()), View(), e)
    {
      hide IsRun;
      ghost var before := View();
      var ok, attempt := BumpAttempt(v);
      if !ok { return Transport; }
      out := OfferCounted(e, v, attempt, before);
    }

    /** The counted event rejected over the limit, otherwise pushed; `before` is the state before
        it was counted. */
    method OfferCounted(e: Entry, v: EventId, attempt: int, ghost before: State) returns (out: Outcome)
      requires Valid() && phase == Counted(v, attempt) && before.limit == policy.maxAttempts
      requires Deliverable(before, e) && before.Carries(e, v) && Deliverable(View(), e) && View().Carries(e, v)
      requires v !in valkey.markers && v !in recentlyAcked && v !in inflight
      requires attempt == before.Counter(v) + 1 && View().memory == before.memory && before.history <= history
      requires View().store == before.store.(counters := before.store.counters[v := attempt])
      modifies this`run, this`history, this`phase, this`lost, this`inflight, valkey
      ensures Resting() && old(history) <= history
      ensures out.Done? ==> HandledOnce(before, View(), e)
      ensures out.Undelivered? ==> PushFailed(before, View(), e)
      ensures out.Transport? ==> inflight == old(inflight)
      ensures Progress(before, View(), {e})
      ensures lost >= old(lost) + (if out.Transport? then 1 else 0)
      ensures out.Undelivered? && lost == old(lost) ==> GivenBack(before, View(), e)
    {
      hide IsRun, Deliverable, Progress, HandledOnce, PushFailed, Since, GivenBack;
      ghost var counted := View();
      if attempt > policy.maxAttempts {
        var ok := RejectNew(e, v, attempt);
        out := if ok then Done else Transport;
      } else {
        var sent := PushCounted(e, v, attempt);
        out := if sent then Done else Undelivered;
      }
      OfferProgress(before, View(), e);
      SinceEver(before, counted, View(), View());
      OfferMeans(before, View(), e, v, out, lost == old(lost));
    }

    /** An entry of an event that is in flight: counted with the first, not pushed again. */
    method HandleDuplicate(e: Entry, v: EventId) returns (out: Outcome)
      requires Resting() && Deliverable(View(), e) && View().Carries(e, v)
      requires v !in valkey.markers && v !in recentlyAcked && v in inflight
      modifies this`run, this`history, this`phase, this`lost, this`inflight, valkey
      ensures Resting() && old(history) <= history && inflight.Keys == old(inflight.Keys)
      ensures out.Done? ==> HandledOnce(old(View()), View(), e)
      ensures !out.Undelivered?
      ensures Progress(old(View()), View(), {e})
      ensures lost >= old(lost) + (if out.Transport? then 1 else 0)
    {
      hide IsRun;
      if e in inflight[v].entries {
        // Re-read from this consumer's pending list: already tracked, nothing new arrived.
        return Done;
      }
      if |inflight[v].entries| >= MAX_ENTRIES_PER_EVENT {
        var ok := AckEntry(e, OverCap);
        return if ok then Done else Transport;
      }
      ghost var before := View();
      inflight := inflight[v := inflight[v].(entries := inflight[v].entries + [e])];
      Record(before, Join(v, e));
      return Done;
    }

    method HandleKnown(e: Entry, v: EventId) returns (out: Outcome)
      requires Resting() && View().Carries(e, v) && (v in valkey.markers || v in recentlyAcked)
      modifies this`run, this`history, this`phase, this`lost, this`inflight, valkey
      ensures Resting() && old(history) <= history && inflight.Keys <= old(inflight.Keys)
      ensures out.Done? ==> HandledOnce(old(View()), View(), e)
      ensures !out.Undelivered?
      ensures Progress(old(View()), View(), {e})
      ensures lost >= old(lost) + (if out.Transport? then 1 else 0)
    {
      hide IsRun;
      KnownIsMarked(v);
      var ok := AcknowledgeAcked(e, v);
      return if ok then Done else Transport;
    }

    /** The locked part of `Handle`. */
    method HandleRouted(e: Entry, v: EventId) returns (out: Outcome)
      requires Resting() && Deliverable(View(), e) && View().Carries(e, v)
      modifies this`run, this`history, this`phase, this`lost, this`inflight, this`recentlyAcked, valkey
      ensures Resting() && old(history) <= history
      ensures out.Done? ==> HandledOnce(old(View()), View(), e)
      ensures out.Undelivered? ==> PushFailed(old(View()), View(), e)
      ensures inflight.Keys <= old(inflight.Keys) + {v}
      ensures Progress(old(View()), View(), {e})
      ensures lost >= old(lost) + (if out.Transport? then 1 else 0)
      ensures out.Undelivered? && lost == old(lost) ==> GivenBack(old(View()), View(), e)
    {
      hide IsRun, HandledOnce, PushFailed, Progress, GivenBack;
      var ok, acked := WasAcked(v);
      ghost var checked := View();
      CacheOnly(old(View()), checked, e, v);
      if !ok { return Transport; }
      if acked {
        out := HandleKnown(e, v);
      } else if v in inflight {
        out := HandleDuplicate(e, v);
      } else {
        out := PushNew(e, v);
      }
      CacheIrrelevant(old(View()), checked, View(), e, v);
    }

    lemma KnownIsMarked(v: EventId)
      requires Valid() && (v in valkey.markers || v in recentlyAcked)
      ensures View().WasMarked(v)
    {
      Present();
    }

    /** An entry that can never become deliverable is acknowledged, so that it does not loop. */
    method HandleUndeliverable(e: Entry) returns (out: Outcome)
      requires Resting() && View().Exists(e) && !View().PayloadOf(e).Routed?
      modifies this`run, this`history, this`phase, this`lost, valkey
      ensures Resting() && old(history) <= history
      ensures out.Done? ==> HandledOnce(old(View()), View(), e)
      ensures !out.Undelivered?
      ensures Progress(old(View()), View(), {e})
      ensures lost >= old(lost) + (if out.Transport? then 1 else 0)
    {
      hide IsRun;
      var ok := AckEntry(e, Undeliverable);
      out := if ok then Done else Transport;
    }

    /** Handle one stream entry. */
    method Handle(e: Entry) returns (out: Outcome)
      requires Resting() && Deliverable(View(), e)
      modifies this`run, this`history, this`phase, this`lost, this`inflight, this`recentlyAcked, valkey
      ensures Resting() && old(history) <= history
      ensures out.Done? ==> HandledOnce(old(View()), View(), e)
      ensures out.Undelivered? ==> PushFailed(old(View()), View(), e)
      ensures |inflight| <= old(|inflight|) + 1
      ensures Progress(old(View()), View(), {e})
      ensures lost >= old(lost) + (if out.Transport? then 1 else 0)
      ensures out.Undelivered? && lost == old(lost) ==> GivenBack(old(View()), View(), e)
    {
      hide IsRun, HandledOnce, PushFailed, Progress, GivenBack;
      match valkey.logs[e.stream][e.index] {
        case Routed(v) =>
          out := HandleRouted(e, v);
          AtMostOneMore(old(inflight), inflight, v);
        case _ =>
          out := HandleUndeliverable(e);
      }
    }

    // ---- Acknowledgement by the session ----

    /** The durable marker first, then every entry. */
    method MarkAndXack(v: EventId) returns (ok: bool)
      requires Valid() && (phase.Acking? || phase.Doomed?) && phase.event == v && v in inflight
      modifies this`run, this`history, this`phase, this`lost, valkey
      ensures Valid() && phase == old(phase) && old(history) <= history
      ensures View().store == old(View()).store.(markers := valkey.markers, pending := valkey.pending)
      ensures valkey.markers == old(valkey.markers) || valkey.markers == old(valkey.markers) + {v}
      ensures valkey.pending == old(valkey.pending) || View().WasMarked(v)
      ensures forall e :: e in valkey.pending ==> e in old(valkey.pending) && valkey.pending[e] == old(valkey.pending)[e]
      ensures forall e :: e in old(valkey.pending) && e !in valkey.pending ==> e in inflight[v].entries
      ensures ok ==> valkey.markers == old(valkey.markers) + {v}
      ensures ok ==> valkey.pending == old(valkey.pending) - EntriesOf(old(inflight), v)
      ensures ok ==> View().WasMarked(v)
      ensures lost >= old(lost) + (if ok then 0 else 1)
    {
      hide IsRun;
      PresentItem(v);
      ok := MarkAcked(v);
      if ok {
        ok := XackAll(inflight[v].entries, v);
      }
    }

    /** `ack_event`: the marker is written before the XACKs, and the event leaves
        flight only when every XACK succeeded, so that a retried call completes it. */
    method Ack(v: EventId) returns (status: AckStatus)
      requires Resting()
      modifies this`run, this`history, this`phase, this`lost, this`inflight, this`recentlyAcked, valkey
      ensures Resting() && old(history) <= history
      ensures status.Unknown? <==> v !in old(inflight)
      ensures status.Unknown? ==> View() == old(View())
      ensures status.Acknowledged? ==> AckedFully(old(View()), View(), v)
      ensures status.AckFailed? ==> inflight == old(inflight) && recentlyAcked == old(recentlyAcked)
      ensures valkey.counters == old(valkey.counters)
      ensures Progress(old(View()), View(), {}) && StaysHandled(old(View()), View())
      ensures |recentlyAcked| <= RECENTLY_ACKED_MAX || recentlyAcked == old(recentlyAcked)
      ensures lost >= old(lost) + (if status.AckFailed? then 1 else 0)
    {
      hide IsRun, Progress, StaysHandled, ItemPending, AckEffect, AckedFully;
      if v !in inflight {
        NothingHappened(View());
        return Unknown;
      }
      PresentItem(v);
      var ok := AckInFlight(v);
      AckProgress(old(View()), View(), v);
      return if ok then Acknowledged else AckFailed;
    }

    method AckInFlight(v: EventId) returns (ok: bool)
      requires Resting() && v in inflight
      modifies this`run, this`history, this`phase, this`lost, this`inflight, this`recentlyAcked, valkey
      ensures Resting() && AckEffect(old(View()), View(), v)
      ensures if ok then AckedFully(old(View()), View(), v) && |recentlyAcked| <= RECENTLY_ACKED_MAX
              else inflight == old(inflight) && recentlyAcked == old(recentlyAcked)
      ensures lost >= old(lost) + (if ok then 0 else 1)
    {
      hide IsRun, EntriesOf, SetOf;
      BeginAck(v);
      ok := MarkAndXack(v);
      ghost var marked := View();
      assert AckEffect(old(View()), marked, v);
      hide AckEffect;
      if ok {
        FinishAck(v);
      } else {
        Fail();
      }
      AckEnds(old(View()), marked, View(), v);
    }

    method FinishAck(v: EventId)
      requires Valid() && phase == Acking(v) && v in valkey.markers && v in inflight && View().WasMarked(v)
      modifies this`run, this`history, this`phase, this`inflight, this`recentlyAcked
      ensures Resting() && old(history) < history && history[|history| - 1] == Acked(v)
      ensures inflight == old(inflight) - {v} && |recentlyAcked| <= RECENTLY_ACKED_MAX && v in recentlyAcked
    {
      hide IsRun;
      Forget(v);
      ghost var _ := Remember(v);
      EndAck(v);
    }

    /** `recentlyAcked.set`, kept bounded. */
    method Remember(v: EventId) returns (ghost now: int)
      requires Valid() && phase == Acking(v) && v in valkey.markers
      modifies this`run, this`history, this`phase, this`recentlyAcked
      ensures Valid() && phase == old(phase) && old(history) <= history
      ensures |recentlyAcked| <= RECENTLY_ACKED_MAX && v in recentlyAcked && recentlyAcked[v] == now + policy.dedupTtl
      ensures forall x :: x in recentlyAcked && x != v ==> x in old(recentlyAcked) && recentlyAcked[x] == old(recentlyAcked)[x]
      ensures |recentlyAcked| < RECENTLY_ACKED_MAX ==> recentlyAcked.Keys == old(recentlyAcked).Keys + {v}
    {
      hide IsRun;
      var time := Clock();
      now := time;
      ghost var before := View();
      recentlyAcked := recentlyAcked[v := time + policy.dedupTtl];
      Record(before, Cache(v));
      while |recentlyAcked| > RECENTLY_ACKED_MAX
        invariant Valid() && phase == old(phase) && old(history) <= history
        invariant v in recentlyAcked && recentlyAcked[v] == now + policy.dedupTtl
        invariant forall x :: x in recentlyAcked && x != v ==> x in old(recentlyAcked) && recentlyAcked[x] == old(recentlyAcked)[x]
        invariant recentlyAcked.Keys == old(recentlyAcked).Keys + {v} || |recentlyAcked| >= RECENTLY_ACKED_MAX
      {
        assert |recentlyAcked.Keys - {v}| > 0;
        var oldest :| oldest in recentlyAcked && oldest != v;
        Evict(oldest);
      }
    }

    method Evict(v: EventId)
      requires Valid() && v in recentlyAcked
      modifies this`run, this`history, this`phase, this`recentlyAcked
      ensures Valid() && View() == Apply(old(View()), Uncache(v))
      ensures phase == old(phase) && history == old(history) + [Uncache(v)]
      ensures recentlyAcked == old(recentlyAcked) - {v} && |recentlyAcked| == old(|recentlyAcked|) - 1
    {
      hide IsRun;
      ghost var before := View();
      recentlyAcked := recentlyAcked - {v};
      assert recentlyAcked.Keys == old(recentlyAcked.Keys) - {v};
      assert |recentlyAcked| == |recentlyAcked.Keys|;
      Record(before, Uncache(v));
    }

    // ---- Idle redelivery ----

    /** Over the limit: the event is marked, acknowledged with all its entries, and dropped. */
    method RejectInflight(v: EventId, attempt: int) returns (ok: bool)
      requires Valid() && phase == Counted(v, attempt) && attempt > policy.maxAttempts && v in inflight
      modifies this`run, this`history, this`phase, this`lost, this`inflight, valkey
      ensures Resting() && old(history) <= history
      ensures View().store == old(View()).store.(markers := valkey.markers, pending := valkey.pending)
      ensures valkey.markers == old(valkey.markers) || valkey.markers == old(valkey.markers) + {v}
      ensures valkey.pending == old(valkey.pending) || View().WasMarked(v)
      ensures forall e :: e in valkey.pending ==> e in old(valkey.pending) && valkey.pending[e] == old(valkey.pending)[e]
      ensures forall e :: e in old(valkey.pending) && e !in valkey.pending ==> e in old(inflight)[v].entries
      ensures ok ==> valkey.markers == old(valkey.markers) + {v} && inflight == old(inflight) - {v}
      ensures ok ==> valkey.pending == old(valkey.pending) - EntriesOf(old(inflight), v)
      ensures !ok ==> inflight == old(inflight)
      ensures Since(old(View()), View(), Reject(v, attempt))
      ensures lost >= old(lost) + (if ok then 0 else 1)
    {
      hide IsRun;
      ghost var rejected := |history|;
      GiveUp(v, attempt);
      ok := MarkAndXack(v);
      if ok {
        Forget(v);
        GivenUp(v);
      } else {
        Fail();
      }
      assert history[rejected] == Reject(v, attempt);
    }

    /** Offer an in-flight event once more. */
    method Reoffer(v: EventId, attempt: int, at: int)
      requires Valid() && phase == Counted(v, attempt) && attempt <= policy.maxAttempts && v in inflight
      modifies this`run, this`history, this`phase, this`lost, this`inflight, valkey
      ensures Resting() && old(history) <= history
      ensures View().store == old(View()).store.(counters := valkey.counters)
      ensures (valkey.counters == old(valkey.counters) && Since(old(View()), View(), Push(v, attempt, true))
               && inflight == old(inflight)[v := Item(attempt, at, old(inflight)[v].entries)])
           || (inflight == old(inflight) && Since(old(View()), View(), Push(v, attempt, false))
               && (valkey.counters == old(valkey.counters)
                   || valkey.counters == old(valkey.counters)[v := old(View()).Counter(v) - 1])
               && (lost == old(lost) ==>
                     valkey.counters == old(valkey.counters)[v := old(View()).Counter(v) - 1]))
      ensures lost >= old(lost)
    {
      hide IsRun;
      ghost var pushed := |history|;
      var sent := Emit(v, attempt);
      if sent {
        ghost var before := View();
        inflight := inflight[v := inflight[v].(attempt := attempt, deliveredAt := at)];
        Record(before, Renew(v, attempt, at));
      } else {
        // Not delivered, so not counted: the event keeps its slot and its earlier attempt.
        DropAttempt(v);
      }
      assert history[pushed] == Push(v, attempt, sent);
    }

    method RedeliverOne(v: EventId, at: int) returns (ok: bool)
      requires Resting() && v in inflight
      modifies this`run, this`history, this`phase, this`lost, this`inflight, valkey
      ensures Resting()
      ensures ok ==> Redelivered(old(View()), View(), v, at, lost == old(lost))
      ensures !ok ==> inflight == old(inflight)
      ensures Elsewhere(old(View()), View(), v)
      ensures Progress(old(View()), View(), {}) && StaysHandled(old(View()), View())
      ensures lost >= old(lost) + (if ok then 0 else 1)
    {
      hide IsRun, Progress, StaysHandled, Since;
      PresentItem(v);
      var attempt;
      ok, attempt := BumpAttempt(v);
      ghost var counted := View();
      if ok {
        if attempt > policy.maxAttempts {
          ok := RejectInflight(v, attempt);
        } else {
          Reoffer(v, attempt, at);
        }
      }
      SinceEver(old(View()), counted, View(), View());
      RedeliverProgress(old(View()), View(), v);
    }

    /** Push this consumer's own events again once they have been idle for long enough. */
    method RedeliverStale(at: int) returns (ok: bool)
      requires Resting()
      modifies this`run, this`history, this`phase, this`lost, this`inflight, valkey
      ensures Resting() && inflight.Keys <= old(inflight.Keys)
      ensures Progress(old(View()), View(), {}) && StaysHandled(old(View()), View())
      ensures ok ==> forall v :: v in old(inflight) ==>
                       Swept(old(View()), View(), v, at, policy.reclaimMinIdle, lost == old(lost))
      ensures lost >= old(lost) + (if ok then 0 else 1)
    {
      hide IsRun, Progress, StaysHandled, Redelivered, Elsewhere, SameEvent;
      ghost var start := View();
      NothingHappened(start);
      var todo := inflight.Keys;
      forall v | v in todo ensures SameEvent(start, start, v) { ItselfSame(start, v); }
      while todo != {}
        invariant Resting() && todo <= inflight.Keys <= start.memory.inflight.Keys && lost >= old(lost)
        invariant Progress(start, View(), {}) && StaysHandled(start, View())
        invariant forall v :: v in todo ==> SameEvent(start, View(), v)
        invariant forall v :: v in start.memory.inflight && v !in todo ==>
                    Swept(start, View(), v, at, policy.reclaimMinIdle, lost == old(lost))
        decreases todo
      {
        var v :| v in todo;
        ghost var before := View();
        ghost var heard := lost;
        SameItem(start, before, v);
        if at - inflight[v].deliveredAt >= policy.reclaimMinIdle {
          ok := RedeliverOne(v, at);
          ProgressOn(start, before, View());
          ElsewhereKeys(before, View(), v);
          if !ok { return; }
          RedeliveredSince(start, before, View(), v, at, lost == heard, lost == old(lost));
          forall u | u in start.memory.inflight && u != v
            ensures u in todo ==> SameEvent(start, View(), u)
            ensures u !in todo ==> Swept(start, View(), u, at, policy.reclaimMinIdle, lost == old(lost))
          {
            assert u !in todo ==> Swept(start, before, u, at, policy.reclaimMinIdle, heard == old(lost));
            StaysSwept(start, before, View(), u, v, at, policy.reclaimMinIdle, heard == old(lost), lost == old(lost));
          }
        }
        todo := todo - {v};
      }
      return true;
    }

    // ---- The world around the consumer ----

    /** One thing that can happen while the consumer waits outside its lock: a producer adds an
        entry, a time to live runs out, the session acknowledges, the adapter is told to stop. */
    method Disturb()
      requires Resting()
      modifies this`run, this`history, this`phase, this`lost, this`inflight, this`recentlyAcked, this`stopped, this`stops, valkey
      ensures Resting() && inflight.Keys <= old(inflight.Keys)
      ensures Told(old(stopped), old(stops), stopped, stops)
      ensures Progress(old(View()), View(), {}) && StaysHandled(old(View()), View())
      ensures lost >= old(lost)
      ensures old(history) <= history && CountsKept(old(View()), View())
    {
      hide IsRun;
      var what: int := *;
      var v: EventId := *;
      var st: Stream := *;
      var payload: Payload := *;
      ghost var before := View();
      if what == 0 && st in valkey.logs {
        valkey.logs := valkey.logs[st := valkey.logs[st] + [payload]];
        Record(before, Produce(st, payload));
      } else if what == 1 {
        valkey.markers := valkey.markers - {v};
        Record(before, LapseMarker(v));
      } else if what == 2 {
        valkey.counters := valkey.counters - {v};
        Record(before, LapseCounter(v));
        assert history[|before.history|] == LapseCounter(v);
      } else if what == 3 {
        var status := Ack(v);
      } else {
        stopped, stops := true, stops + 1;
      }
    }

    method Interleave()
      requires Resting()
      modifies this`run, this`history, this`phase, this`lost, this`inflight, this`recentlyAcked, this`stopped, this`stops, valkey
      ensures Resting() && inflight.Keys <= old(inflight.Keys)
      ensures Told(old(stopped), old(stops), stopped, stops)
      ensures Progress(old(View()), View(), {}) && StaysHandled(old(View()), View())
      ensures lost >= old(lost)
      ensures old(history) <= history && CountsKept(old(View()), View())
    {
      hide IsRun, Progress, StaysHandled, CountsKept;
      var steps: nat := *;
      NothingHappened(View());
      NoCountChanged(View());
      while steps > 0
        invariant Resting() && inflight.Keys <= old(inflight.Keys)
        invariant Told(old(stopped), old(stops), stopped, stops) && lost >= old(lost)
        invariant old(history) <= history && CountsKept(old(View()), View())
        invariant Progress(old(View()), View(), {}) && StaysHandled(old(View()), View())
      {
        ghost var before := View();
        Disturb();
        ProgressOn(old(View()), before, View());
        CountsKeptOn(old(View()), before, View());
        steps := steps - 1;
      }
    }

    // ---- Dispatch ----

    /** Hand one entry to `Handle`; a failed delivery leaves it pending and goes on. */
    method Dispatch(e: Entry) returns (ok: bool, delivered: bool)
      requires Resting() && Deliverable(View(), e)
      modifies this`run, this`history, this`phase, this`lost, this`inflight, this`recentlyAcked, this`stopped, this`stops,
               this`offered, valkey
      ensures Resting() && |inflight| <= old(|inflight|) + 1 && Told(old(stopped), old(stops), stopped, stops)
      ensures Progress(old(View()), View(), {e})
      ensures ok ==> StaysHandled(old(View()), View())
      ensures ok ==> if delivered then Handled(View(), e) else PushedInVain(old(View()), View(), e)
      ensures lost >= old(lost) + (if ok then 0 else 1)
      ensures offered == old(offered) + [e]
      ensures ok && !delivered && lost == old(lost) ==> CountKept(old(View()), View(), e)
    {
      hide IsRun, Progress, StaysHandled, Handled, HandledOnce, PushFailed, GivenBack, CountsKept, CountKept;
      ghost var start := View();
      Interleave();
      ghost var locked := View();
      SubsetSize(inflight.Keys, start.memory.inflight.Keys);
      assert |inflight| <= |start.memory.inflight| by { FewerKeys(inflight, start.memory.inflight); }
      StaysDeliverable(start, locked, {}, e);
      offered := offered + [e];
      var out := Handle(e);
      ProgressTransitive(start, locked, View(), {}, {e});
      assert {} + {e} == {e};
      ok, delivered := !out.Transport?, out.Done?;
      if out.Done? {
        HandledOnceHandles(locked, View(), e);
      } else if out.Undelivered? {
        PushFailedKeeps(start, locked, View(), e);
        if lost == old(lost) { KeptAndGivenBack(start, locked, View(), e); }
      }
      if ok {
        StaysHandledTransitive(start, locked, View());
      }
    }

    method DispatchAll(es: seq<Entry>) returns (ok: bool, ghost undelivered: set<Entry>)
      requires Resting() && Distinct(es) && forall e :: e in es ==> Deliverable(View(), e)
      modifies this`run, this`history, this`phase, this`lost, this`inflight, this`recentlyAcked, this`stopped, this`stops,
               this`offered, valkey
      ensures Resting() && |inflight| <= old(|inflight|) + |es| && Told(old(stopped), old(stops), stopped, stops)
      ensures Progress(old(View()), View(), SetOf(es))
      ensures ok ==> StaysHandled(old(View()), View())
      ensures ok ==> forall e :: e in es ==> Handled(View(), e) || e in undelivered
      ensures AllInVain(old(View()), View(), undelivered)
      ensures lost >= old(lost) + (if ok then 0 else 1)
      ensures OfferedPart(old(offered), es, offered) && (ok ==> offered == old(offered) + es)
    {
      hide IsRun, Progress, StaysHandled, Handled, AllInVain, PushedInVain, SetOf;
      ghost var start := View();
      NothingHappened(start);
      undelivered := {};
      NoneMissed(start);
      assert es[..0] == [];
      for i := 0 to |es|
        invariant Resting() && |inflight| <= |start.memory.inflight| + i && Told(old(stopped), old(stops), stopped, stops)
        invariant lost >= old(lost) && offered == old(offered) + es[..i]
        invariant Progress(start, View(), SetOf(es[..i])) && StaysHandled(start, View())
        invariant AllInVain(start, View(), undelivered)
        invariant forall j :: 0 <= j < i ==> Handled(View(), es[j]) || es[j] in undelivered
      {
        ghost var before := View();
        OneMoreOf(es, i);
        assert es[..i + 1] == es[..i] + [es[i]];
        StaysDeliverable(start, before, SetOf(es[..i]), es[i]);
        var delivered;
        ok, delivered := Dispatch(es[i]);
        ProgressTransitive(start, before, View(), SetOf(es[..i]), {es[i]});
        ghost var missed := if ok && !delivered then {es[i]} else {};
        OnlyInVain(before, View(), es[i], missed);
        InVainMore(start, before, View(), SetOf(es[..i]), {es[i]}, undelivered, missed);
        undelivered := undelivered + missed;
        if !ok {
          ProgressMore(start, View(), SetOf(es[..i + 1]), SetOf(es));
          return;
        }
        StaysHandledTransitive(start, before, View());
        forall j | 0 <= j < i && Handled(before, es[j]) ensures Handled(View(), es[j]) {
          StaysHandledAt(before, View(), es[j]);
        }
      }
      assert es[..|es|] == es;
      return true, undelivered;
    }

    // ---- Reading new entries ----

    /** The server's share of a read for one stream: its next entries become pending here. */
    method TakeNext(st: Stream, count: nat) returns (es: seq<Entry>)
      requires Resting() && st in valkey.logs && PositionsFit(View())
      modifies this`run, this`history, this`phase, valkey
      ensures Resting() && old(history) <= history && PositionsFit(View())
      ensures es == Next(old(valkey.Contents()), st, count)
      ensures View().store == old(View()).store.(
        read := old(valkey.read)[st := old(valkey.read)[st] + |es|],
        pending := old(valkey.pending) + OwnedBy(SetOf(es), consumer))
    {
      hide IsRun;
      var from := valkey.read[st];
      var n := Min(count, |valkey.logs[st]| - from);
      es := seq(n, i requires 0 <= i < n => Entry(st, from + i));
      ghost var before := View();
      assert es == Next(before.store, st, count);
      NextIsRange(before.store, st, count);
      KeepsPositions(before, Deliver(st, n));
      valkey.pending := valkey.pending + OwnedBy(SetOf(es), consumer);
      valkey.read := valkey.read[st := from + n];
      Record(before, Deliver(st, n));
    }

    /** The server's share of a read of every stream, in the order asked for. */
    method TakeEach(count: nat) returns (es: seq<Entry>)
      requires Resting() && PositionsFit(View())
      modifies this`run, this`history, this`phase, valkey
      ensures Resting() && old(history) <= history && valkey.logs == old(valkey.logs)
      ensures es == NewEntries(old(valkey.Contents()), policy.streams, count)
      ensures ReadSince(old(View()), View(), es)
      ensures ReadOn(old(valkey.Contents()), valkey.Contents(), policy.streams, count)
    {
      hide IsRun, ReadSince, Next, SetOf, OwnedBy, ReadUpTo;
      es := [];
      ghost var start := View();
      NothingRead(start);
      NoneReadYet(start.store, policy.streams, count);
      assert policy.streams[..0] == [];
      for i := 0 to |policy.streams|
        invariant Resting() && old(history) <= history && PositionsFit(View()) && valkey.logs == start.store.logs
        invariant es == NewEntries(start.store, policy.streams[..i], count)
        invariant ReadUpTo(start.store, View().store, policy.streams, i, count)
        invariant ReadSince(start, View(), es)
      {
        ghost var before := View();
        ReadUpToAt(start.store, before.store, policy.streams, i, count);
        var more := TakeNext(policy.streams[i], count);
        assert policy.streams[..i + 1][..i] == policy.streams[..i];
        ReadMore(start, before, View(), policy.streams[i], count, es);
        SameNext(start.store, before.store, policy.streams[i], count);
        ReadUpToOn(start.store, before.store, View().store, policy.streams, i, count);
        es := es + more;
      }
      ReadUpToAll(start.store, View().store, policy.streams, count);
      assert policy.streams[..|policy.streams|] == policy.streams;
    }

    /** XREADGROUP with `>`: up to `count` entries of every stream. */
    method ReadNew(count: nat) returns (ok: bool, es: seq<Entry>)
      requires Resting()
      modifies this`run, this`history, this`phase, this`lost, valkey
      ensures Resting() && old(history) <= history && valkey.logs == old(valkey.logs)
      ensures Distinct(es) && |es| <= |policy.streams| * count
      ensures forall e :: e in es ==> Deliverable(View(), e)
      ensures ok ==> es == NewEntries(old(valkey.Contents()), policy.streams, count)
      ensures ok ==> forall e :: View().WasRead(e) && !old(View()).WasRead(e) ==> e in es
      ensures ok ==> ReadOn(old(valkey.Contents()), valkey.Contents(), policy.streams, count)
      ensures lost >= old(lost) + (if ok then 0 else 1)
    {
      hide IsRun, Deliverable, ReadSince, Next;
      var fate := Send();
      if fate == LostBefore { return false, []; }
      Positions();
      ghost var start := View();
      es := TakeEach(count);
      NewEntriesFacts(start.store, policy.streams, count);
      ReadIsDeliverable(start, View(), es);
      if fate == LostAfter { return false, []; }
      return true, es;
    }

    lemma Positions()
      requires Valid()
      ensures PositionsFit(View())
    {
      Present();
    }

    /** Read up to `count` entries of every stream and hand them over. */
    method ReadAndDispatch(count: nat) returns (ok: bool, ghost undelivered: set<Entry>)
      requires Resting()
      modifies this`run, this`history, this`phase, this`lost, this`inflight, this`recentlyAcked, this`stopped, this`stops,
               this`offered, valkey
      ensures Resting() && |inflight| <= old(|inflight|) + |policy.streams| * count
      ensures ok && !stopped ==>
                forall e :: View().WasRead(e) && !old(View()).WasRead(e) ==> Handled(View(), e) || e in undelivered
      ensures AllInVain(old(View()), View(), undelivered)
      ensures ok ==> Onward(old(valkey.Contents()), valkey.Contents(), policy.streams, count)
      ensures lost >= old(lost) + (if ok then 0 else 1)
      ensures Told(old(stopped), old(stops), stopped, stops)
    {
      hide IsRun, Progress, StaysHandled, Handled, Deliverable, NewEntries, ReadOn, AllInVain, PushedInVain;
      undelivered := {};
      ghost var start := View();
      Positions();
      Interleave();  // while the read blocks
      FewerKeys(inflight, start.memory.inflight);
      SameReadAfter(start, View(), {});
      ghost var blocked := View();
      Positions();
      var es;
      ok, es := ReadNew(count);
      ghost var read := View();
      NoneInVainSoFar(start, read);
      if !ok { return; }
      ReadsOnward(start, blocked, read, policy.streams, count);
      Positions();
      if stopped { return; }
      ok, undelivered := DispatchAll(es);
      SameReadAfter(read, View(), SetOf(es));
      InVainSinceRead(start, blocked, read, View(), SetOf(es), undelivered);
    }

    /** Read and hand over new entries, while in-flight events leave room for them. */
    method ReadOnce() returns (ok: bool, ghost undelivered: set<Entry>)
      requires Resting()
      modifies this`run, this`history, this`phase, this`lost, this`inflight, this`recentlyAcked, this`stopped, this`stops,
               this`offered, valkey
      ensures Resting()
      ensures |inflight| <= Max(old(|inflight|), Max(1, |policy.streams|) * policy.maxInflight)
      ensures ok && !stopped ==>
                forall e :: View().WasRead(e) && !old(View()).WasRead(e) ==> Handled(View(), e) || e in undelivered
      ensures AllInVain(old(View()), View(), undelivered)
      ensures ok && old(|inflight|) < policy.maxInflight ==>
                Onward(old(valkey.Contents()), valkey.Contents(), policy.streams, policy.maxInflight - old(|inflight|))
      ensures old(|inflight|) >= policy.maxInflight ==> ok && valkey.read == old(valkey.read)
      ensures lost >= old(lost) + (if ok then 0 else 1)
      ensures Told(old(stopped), old(stops), stopped, stops)
    {
      hide IsRun, Progress, StaysHandled, Handled, PushedInVain;
      if |policy.streams| == 0 || |inflight| >= policy.maxInflight {
        ghost var start := View();
        Positions();
        Interleave();
        FewerKeys(inflight, start.memory.inflight);
        SameReadAfter(start, View(), {});
        return true, {};
      }
      var count := policy.maxInflight - |inflight|;
      WithinCapacity(|policy.streams|, policy.maxInflight, |inflight|);
      ok, undelivered := ReadAndDispatch(count);
    }

    // ---- Taking over abandoned entries ----

    /** Append a page's foreign entries to those found so far, up to the limit. */
    method ScanPage(reply: seq<Entry>, before: seq<Entry>, limit: nat) returns (found: seq<Entry>)
      requires |before| < limit
      ensures found == First(limit, before + Foreign(valkey.Contents(), consumer, reply))
    {
      ghost var v := valkey.Contents();
      found := before;
      for i := 0 to |reply|
        invariant found == before + Foreign(v, consumer, reply[..i]) && |found| < limit
      {
        assert reply[..i + 1][..i] == reply[..i];
        if reply[i] !in valkey.pending || valkey.pending[reply[i]] != consumer {
          found := found + [reply[i]];
          if |found| >= limit {
            ForeignGrows(v, consumer, reply, i + 1);
            return;
          }
        }
      }
      assert reply[..|reply|] == reply;
    }

    /** Idle entries pending on another consumer, oldest first: the list is walked a page at
        a time, so that a backlog of this consumer's own entries cannot hide them. */
    method AbandonedEntries(st: Stream, idle: set<Entry>, limit: nat) returns (ok: bool, found: seq<Entry>)
      requires limit > 0
      modifies this`lost
      ensures ok ==> found == Abandoned(valkey.Contents(), consumer, st, idle, limit)
      ensures lost >= old(lost) + (if ok then 0 else 1)
    {
      hide Scanned, Abandoned, Foreign, Rows, First;
      ghost var v := valkey.Contents();
      found := [];
      var start: nat := 0;
      NothingScanned(v, consumer, st, idle);
      for page := 0 to PENDING_PAGES
        invariant Scanned(v, consumer, st, idle, start, page * PENDING_BATCH, found)
        invariant |found| < limit && lost == old(lost)
        invariant page == PENDING_PAGES ==> found == Abandoned(v, consumer, st, idle, limit)
      {
        var fate := Send();
        if fate != Answered { return false, []; }
        var reply := First(PENDING_BATCH, PendingFrom(st, idle, start));
        ghost var before := found;
        found := ScanPage(reply, found, limit);
        ScannedOn(v, consumer, st, idle, limit, start, page * PENDING_BATCH, before);
        if |found| >= limit || |reply| < PENDING_BATCH {
          return true, found;
        }
        start := reply[|reply| - 1].index + 1;
      }
      return true, found;
    }

    /** XPENDING: the idle entries of a stream from a position on. */
    function PendingFrom(st: Stream, idle: set<Entry>, from: nat): seq<Entry>
      reads valkey
    {
      Rows(Store(valkey.logs, valkey.read, valkey.pending, valkey.markers, valkey.counters), st, idle, from)
    }

    /** XCLAIM: of the entries asked for, those still pending and still idle become this consumer's. */
    method XClaim(batch: seq<Entry>) returns (ok: bool, es: seq<Entry>)
      requires Resting() && Distinct(batch)
      modifies this`run, this`history, this`phase, this`lost, valkey
      ensures Resting() && TakenOver(old(View()), View())
      ensures Distinct(es) && |es| <= |batch| && forall e :: e in es ==> e in batch && Deliverable(View(), e)
      ensures ok ==> history == old(history) + [Claim(SetOf(es))]
      ensures lost >= old(lost) + (if ok then 0 else 1)
    {
      hide IsRun;
      var stillIdle: set<Entry> := *;
      es := Only(batch, valkey.pending.Keys * stillIdle);
      Present();
      assert forall e :: e in SetOf(es) ==> e in valkey.pending && View().WasRead(e);
      ok := Exec(Claim(SetOf(es)));
      if !ok { es := []; }
    }

    /** Take over abandoned entries of one stream, up to a limit. */
    method ReclaimFrom(st: Stream, idle: set<Entry>, limit: nat)
      returns (ok: bool, ghost taken: set<Entry>, ghost undelivered: set<Entry>)
      requires Resting() && limit > 0
      modifies this`run, this`history, this`phase, this`lost, this`inflight, this`recentlyAcked, this`stopped, this`stops,
               this`offered, valkey
      ensures Resting() && |inflight| <= old(|inflight|) + limit && Reclaimed(old(View()), View())
      ensures taken <= SetOf(Abandoned(old(valkey.Contents()), consumer, st, idle, limit))
      ensures ok && Abandoned(old(valkey.Contents()), consumer, st, idle, limit) != [] ==>
                Since(old(View()), View(), Claim(taken))
      ensures ok ==> StaysHandled(old(View()), View()) && AllHandled(View(), taken, undelivered)
      ensures AllInVain(old(View()), View(), undelivered)
      ensures lost >= old(lost) + (if ok then 0 else 1)
      ensures Told(old(stopped), old(stops), stopped, stops)
    {
      hide IsRun, Progress, StaysHandled, Handled, Deliverable, Reclaimed, TakenOver, AllInVain, PushedInVain;
      taken, undelivered := {}, {};
      ghost var start := View();
      NothingReclaimed(start);
      var batch;
      ok, batch := AbandonedEntries(st, idle, limit);
      if !ok || batch == [] { return; }
      AbandonedAreDistinct(valkey.Contents(), consumer, st, idle, limit);
      Interleave();
      FewerKeys(inflight, start.memory.inflight);
      ghost var listed := View();
      ReclaimedMeanwhile(start, listed);
      var claimed;
      ok, claimed := XClaim(batch);
      ghost var mine := View();
      ReclaimedTaken(start, listed, mine);
      if !ok { return; }
      taken := SetOf(claimed);
      assert history[|history| - 1] == Claim(taken);
      ok, undelivered := DispatchAll(claimed);
      ReclaimedHandled(start, mine, View(), taken, undelivered);
      SinceEver(start, listed, mine, View());
    }

    /** Take over entries another consumer claimed and never acknowledged; the streams are looked
        at in turn, as the `listings` record, while there is room. */
    method Reclaim() returns (ok: bool, ghost taken: set<Entry>, ghost undelivered: set<Entry>, ghost listings: seq<Listing>)
      requires Resting()
      modifies this`run, this`history, this`phase, this`lost, this`inflight, this`recentlyAcked, this`stopped, this`stops,
               this`offered, valkey
      ensures Resting() && |inflight| <= Max(old(|inflight|), policy.maxInflight)
      ensures forall e :: e in taken ==> WasForeign(old(View()), e)
      ensures ok ==> forall e :: e in taken ==> Handled(View(), e) || e in undelivered
      ensures AllInVain(old(View()), View(), undelivered)
      ensures AllClaimed(old(View()), View(), policy, listings, taken)
      ensures ok && !stopped && |inflight| < policy.maxInflight ==> |listings| == |policy.streams|
      ensures lost >= old(lost) + (if ok then 0 else 1)
      ensures Told(old(stopped), old(stops), stopped, stops)
    {
      hide IsRun, StaysHandled, Handled, Reclaimed, AllHandled, AllInVain, PushedInVain, Abandoned, AllClaimed, Told, Since;
      hide WasForeign;
      taken, undelivered, listings := {}, {}, [];
      ghost var start := View();
      NothingReclaimed(start);
      NothingClaimed(start, policy);
      NeverTold(stopped, stops);
      ok := true;
      for i := 0 to |policy.streams|
        invariant Resting() && |inflight| <= Max(old(|inflight|), policy.maxInflight) && lost >= old(lost)
        invariant Told(old(stopped), old(stops), stopped, stops)
        invariant Reclaimed(start, View()) && AllHandled(View(), taken, undelivered)
        invariant AllInVain(start, View(), undelivered) && forall e :: e in taken ==> WasForeign(start, e)
        invariant |listings| == i && AllClaimed(start, View(), policy, listings, taken)
      {
        var capacity := policy.maxInflight - |inflight|;
        if stopped || capacity <= 0 { break; }
        var idle: set<Entry> := *;
        ghost var before, was, stops0 := View(), stopped, stops;
        ghost var more, missed;
        ok, more, missed := ReclaimFrom(policy.streams[i], idle, Min(RECLAIM_BATCH, capacity));
        ToldAgain(old(stopped), old(stops), was, stops0, stopped, stops);
        AbandonedWereForeign(start, before, policy.streams[i], idle, Min(RECLAIM_BATCH, capacity));
        ReclaimedOn(start, before, View(), undelivered, missed);
        if !ok {
          ClaimsStay(start, before, View(), policy, listings, taken);
          undelivered := undelivered + missed;
          return;
        }
        AllHandledOn(before, View(), taken, undelivered, more, missed);
        ClaimsOn(start, before, View(), policy, listings, taken, idle, more);
        taken, undelivered, listings := taken + more, undelivered + missed, listings + [Listing(before, idle)];
      }
      AllHandledMeans(View(), taken, undelivered);
    }

    // ---- Recovery of this consumer's own entries ----

    /** Re-read the entries this consumer claimed and never acknowledged, page after page. */
    method RecoverPending() returns (ok: bool, ghost undelivered: set<Entry>)
      requires Resting()
      modifies this`run, this`history, this`phase, this`lost, this`inflight, this`recentlyAcked, this`stopped, this`stops,
               this`offered, valkey
      ensures Resting() && old(offered) <= offered && InOrder(offered[|old(offered)|..])
      ensures forall e :: e in offered[|old(offered)|..] ==> old(View()).Mine(e)
      ensures ok && !stopped ==>
                forall e :: e in valkey.pending && valkey.pending[e] == consumer && e.stream in policy.streams
                  ==> View().Tracked(e) || e in undelivered
      ensures AllInVain(old(View()), View(), undelivered)
      ensures NoPushFailed(old(View()), View()) ==> undelivered == {}
      ensures lost >= old(lost) + (if ok then 0 else 1)
      ensures Told(old(stopped), old(stops), stopped, stops)
    {
      hide IsRun, AllInVain, NoPushFailed, InOrder, Work, Recovering, Told;
      var cursors: map<Stream, nat> := map st | st in policy.streams :: 0;
      undelivered := {};
      ghost var start, dispatched := View(), [];
      NothingHappened(start);
      NothingRecovered(start, policy.streams, cursors);
      NeverTold(stopped, stops);
      while cursors != map[] && !stopped
        invariant Resting() && cursors.Keys <= (set st | st in policy.streams)
        invariant lost >= old(lost) && Told(old(stopped), old(stops), stopped, stops)
        invariant Recovering(start, View(), policy.streams, cursors, dispatched, undelivered)
        invariant offered == old(offered) + dispatched
        decreases Work(valkey.Contents(), consumer, cursors)
      {
        var fate := Send();
        if fate != Answered {
          RecoveryEnds(start, View(), policy.streams, cursors, dispatched, undelivered, old(offered), offered);
          return false, undelivered;
        }
        ghost var was, before, page, missed := stopped, stops, [], {};
        ok, cursors, page, missed := RecoverRound(cursors, start, dispatched, undelivered, old(offered));
        ToldAgain(old(stopped), old(stops), was, before, stopped, stops);
        undelivered := undelivered + missed;
        if !ok { return; }
        dispatched := dispatched + page;
      }
      RecoveryEnds(start, View(), policy.streams, cursors, dispatched, undelivered, old(offered), offered);
      return true, undelivered;
    }

    /** What a read of the streams still under way returns, handed over. */
    method RecoverRound(cursors: map<Stream, nat>, ghost start: State, ghost dispatched: seq<Entry>,
                        ghost undelivered: set<Entry>, ghost before: seq<Entry>)
      returns (ok: bool, later: map<Stream, nat>, ghost page: seq<Entry>, ghost missed: set<Entry>)
      requires Resting() && cursors != map[] && cursors.Keys <= (set st | st in policy.streams)
      requires Recovering(start, View(), policy.streams, cursors, dispatched, undelivered)
      requires offered == before + dispatched
      modifies this`run, this`history, this`phase, this`lost, this`inflight, this`recentlyAcked, this`stopped, this`stops,
               this`offered, valkey
      ensures Resting() && Told(old(stopped), old(stops), stopped, stops)
      ensures ok ==> Recovering(start, View(), policy.streams, later, dispatched + page, undelivered + missed)
      ensures ok ==> offered == before + (dispatched + page) && later.Keys <= cursors.Keys
      ensures ok ==> Work(valkey.Contents(), consumer, later) < Work(old(valkey.Contents()), consumer, cursors)
      ensures Accounted(start, View(), before, offered, undelivered + missed)
      ensures lost >= old(lost) + (if ok then 0 else 1)
    {
      hide IsRun, Progress, StaysHandled, Handled, Deliverable, RoundPage, Advance, InOrder, Work, Inv;
      hide AllInVain, PushedInVain, NoPushFailed, SetOf, Recovering, Accounted, Told, Past, OfferedPart;
      ghost var read := View();
      var entries := PageOf(cursors);
      page, later := entries, LaterCursors(cursors);
      PageReady(cursors);
      ok, missed := DispatchAll(entries);
      RoundBreaks(start, read, View(), policy.streams, cursors, dispatched, undelivered, missed, before, offered);
      if ok {
        RoundEnds(start, read, View(), policy.streams, cursors, dispatched, undelivered, missed);
      }
    }

    /** XREADGROUP with ids, as the server answers it now. */
    function PageOf(cursors: map<Stream, nat>): seq<Entry>
      reads this, valkey
    {
      RoundPage(Store(valkey.logs, valkey.read, valkey.pending, valkey.markers, valkey.counters),
                consumer, cursors, policy.streams, PENDING_BATCH)
    }

    function LaterCursors(cursors: map<Stream, nat>): map<Stream, nat>
      reads this, valkey
    {
      Advance(Store(valkey.logs, valkey.read, valkey.pending, valkey.markers, valkey.counters),
              consumer, cursors, PENDING_BATCH)
    }

    lemma PageReady(cursors: map<Stream, nat>)
      requires Resting()
      ensures Distinct(PageOf(cursors)) && Inv(View()) && forall e :: e in PageOf(cursors) ==> Deliverable(View(), e)
    {
      Present();
      RoundPageHolds(valkey.Contents(), consumer, cursors, policy.streams, PENDING_BATCH);
    }

    // ---- Processes ----

    /** The process dies, at whatever point, and another one starts, maybe under another name. */
    method Restart(name: Consumer)
      requires Valid()
      modifies this`run, this`history, this`phase, this`inflight, this`recentlyAcked, this`stopped, this`consumer
      ensures Resting() && consumer == name && inflight == map[] && recentlyAcked == map[]
    {
      ghost var before := View();
      consumer, inflight, recentlyAcked, stopped := name, map[], map[], false;
      Record(before, Delivery.Restart(name, phase));
    }

    /** Any number of processes doing anything the adapter does, in any order: what `run`
        does and more. */
    method Live(steps: nat)
      requires Resting()
      modifies this`run, this`history, this`phase, this`lost, this`inflight, this`recentlyAcked, this`stopped
      modifies this`stops, this`offered, this`consumer, valkey
      ensures Resting() && Inv(View())
    {
      for i := 0 to steps
        invariant Resting()
      {
        hide IsRun;
        var what: int, name: Consumer, now: int := *, *, *;
        var ok;
        ghost var taken, undelivered, listings;
        if what == 0 {
          ok, undelivered := ReadOnce();
        } else if what == 1 {
          ok := RedeliverStale(now);
        } else if what == 2 {
          ok, taken, undelivered, listings := Reclaim();
        } else if what == 3 {
          ok, undelivered := RecoverPending();
        } else if what == 4 {
          Interleave();
        } else {
          Restart(name);
        }
      }
      Present();
    }
  }

  /** The entries of a sequence that are in a set. */
  function Only(es: seq<Entry>, keep: set<Entry>): (r: seq<Entry>)
    requires Distinct(es)
    ensures Distinct(r) && |r| <= |es| && forall e :: e in r <==> e in es && e in keep
  {
    if es == [] then []
    else
      var front := Only(es[..|es| - 1], keep);
      if es[|es| - 1] in keep then front + [es[|es| - 1]] else front
  }

  /** The first idle entries pending on another consumer, looked for in the pages read. */
  function Abandoned(v: Store, c: Consumer, st: Stream, idle: set<Entry>, limit: nat): seq<Entry> {
    First(limit, Foreign(v, c, First(PENDING_PAGES * PENDING_BATCH, Rows(v, st, idle, 0))))
  }

  /** The first `seen` rows of the list have been looked at, and `start` is where the rest begins. */
  ghost predicate Scanned(v: Store, c: Consumer, st: Stream, idle: set<Entry>, start: nat, seen: nat, found: seq<Entry>) {
    var rows := Rows(v, st, idle, 0);
    seen <= |rows| && Rows(v, st, idle, start) == rows[seen..] && found == Foreign(v, c, rows[..seen])
  }

  lemma NothingScanned(v: Store, c: Consumer, st: Stream, idle: set<Entry>)
    ensures Scanned(v, c, st, idle, 0, 0, [])
  {
  }

  /** One page more: the search is over, or the page was full and the next one starts behind it. */
  lemma ScannedOn(v: Store, c: Consumer, st: Stream, idle: set<Entry>, limit: nat, start: nat, seen: nat, found: seq<Entry>)
    requires Scanned(v, c, st, idle, start, seen, found) && |found| < limit
    requires seen + PENDING_BATCH <= PENDING_PAGES * PENDING_BATCH
    ensures
      var page := First(PENDING_BATCH, Rows(v, st, idle, start));
      var more := First(limit, found + Foreign(v, c, page));
      && |page| <= PENDING_BATCH
      && (|more| >= limit || |page| < PENDING_BATCH || seen + PENDING_BATCH == PENDING_PAGES * PENDING_BATCH
          ==> more == Abandoned(v, c, st, idle, limit))
      && (|more| < limit && |page| == PENDING_BATCH
          ==> Scanned(v, c, st, idle, page[|page| - 1].index + 1, seen + PENDING_BATCH, more))
  {
    hide Foreign, Rows;
    var rows := Rows(v, st, idle, 0);
    var page := First(PENDING_BATCH, rows[seen..]);
    PageExtends(v, c, rows, seen, PENDING_BATCH, PENDING_PAGES * PENDING_BATCH);
    if |found + Foreign(v, c, page)| >= limit {
      FoundEnough(v, c, First(PENDING_PAGES * PENDING_BATCH, rows), seen + |page|, limit);
    }
    if |page| == PENDING_BATCH {
      RowsResume(v, st, idle, start, PENDING_BATCH - 1);
    }
  }

  lemma AbandonedAreDistinct(v: Store, c: Consumer, st: Stream, idle: set<Entry>, limit: nat)
    ensures Distinct(Abandoned(v, c, st, idle, limit)) && |Abandoned(v, c, st, idle, limit)| <= limit
    ensures forall e :: e in Abandoned(v, c, st, idle, limit) ==> e in v.pending && v.pending[e] != c
  {
    hide Rows, Foreign;
    var rows := First(PENDING_PAGES * PENDING_BATCH, Rows(v, st, idle, 0));
    RowsHold(v, st, idle, 0);
    assert forall i :: 0 <= i < |rows| ==> rows[i] == Rows(v, st, idle, 0)[i];
    ForeignMembers(v, c, rows, st, 0);
    var all := Foreign(v, c, rows);
    assert forall i :: 0 <= i < |First(limit, all)| ==> First(limit, all)[i] == all[i] && all[i] in rows;
  }

  // ---- What taking entries over amounts to ----

  /** Another consumer holds the entry. */
  ghost predicate WasForeign(s: State, e: Entry) {
    e in s.store.pending && s.store.pending[e] != s.memory.consumer
  }

  /** What other consumers hold, they held before. */
  ghost predicate Reclaimed(s: State, t: State) {
    && Later(s, t) && t.memory.consumer == s.memory.consumer
    && forall e :: WasForeign(t, e) ==> WasForeign(s, e)
  }

  /** Nothing but the holders of pending entries changed, and only to this consumer. */
  ghost predicate TakenOver(s: State, t: State) {
    && s.history <= t.history && t.limit == s.limit && t.memory == s.memory
    && t.store == s.store.(pending := t.store.pending) && t.store.pending.Keys == s.store.pending.Keys
    && forall e :: e in t.store.pending ==>
         t.store.pending[e] == s.store.pending[e] || t.store.pending[e] == s.memory.consumer
  }

  /** One look at the abandoned entries of a stream: when it was, and which entries had been idle
      for long enough. */
  datatype Listing = Listing(at: State, idle: set<Entry>)

  /** There was room when the stream was looked at, and when it had abandoned entries, some of
      them were claimed since: those the server still gave away. */
  ghost predicate Claimed(start: State, t: State, policy: Policy, l: Listing, st: Stream, taken: set<Entry>) {
    var room := policy.maxInflight - |l.at.memory.inflight|;
    && |start.history| <= |l.at.history| && room > 0
    && var es := Abandoned(l.at.store, l.at.memory.consumer, st, l.idle, Min(RECLAIM_BATCH, room));
       es != [] ==> exists claimed :: claimed <= SetOf(es) && claimed <= taken && Since(l.at, t, Claim(claimed))
  }

  /** The streams looked at, in the policy's order. */
  ghost predicate AllClaimed(start: State, t: State, policy: Policy, listings: seq<Listing>, taken: set<Entry>) {
    |listings| <= |policy.streams|
    && forall k :: 0 <= k < |listings| ==> Claimed(start, t, policy, listings[k], policy.streams[k], taken)
  }

  lemma NothingClaimed(s: State, policy: Policy)
    ensures AllClaimed(s, s, policy, [], {})
  {
  }

  lemma ClaimsStay(start: State, s: State, t: State, policy: Policy, listings: seq<Listing>, taken: set<Entry>)
    requires AllClaimed(start, s, policy, listings, taken) && Reclaimed(s, t)
    ensures AllClaimed(start, t, policy, listings, taken)
  {
    hide Abandoned, Since;
    forall k | 0 <= k < |listings| ensures Claimed(start, t, policy, listings[k], policy.streams[k], taken) {
      SinceEver(listings[k].at, listings[k].at, s, t);
    }
  }

  lemma ClaimsOn(start: State, s: State, t: State, policy: Policy, listings: seq<Listing>, taken: set<Entry>,
                 idle: set<Entry>, more: set<Entry>)
    requires AllClaimed(start, s, policy, listings, taken) && Reclaimed(start, s) && Reclaimed(s, t)
    requires |listings| < |policy.streams| && policy.maxInflight > |s.memory.inflight|
    requires
      var es := Abandoned(s.store, s.memory.consumer, policy.streams[|listings|], idle,
                          Min(RECLAIM_BATCH, policy.maxInflight - |s.memory.inflight|));
      more <= SetOf(es) && (es != [] ==> Since(s, t, Claim(more)))
    ensures AllClaimed(start, t, policy, listings + [Listing(s, idle)], taken + more)
  {
    hide Abandoned, Since, SetOf;
    ClaimsStay(start, s, t, policy, listings, taken);
    var l, st := Listing(s, idle), policy.streams[|listings|];
    assert Claimed(start, t, policy, l, st, taken + more);
    forall k | 0 <= k < |listings| ensures Claimed(start, t, policy, listings[k], policy.streams[k], taken + more) {
      assert Claimed(start, t, policy, listings[k], policy.streams[k], taken);
    }
  }

  ghost predicate AllHandled(s: State, taken: set<Entry>, undelivered: set<Entry>) {
    forall e :: e in taken ==> Handled(s, e) || e in undelivered
  }

  lemma NothingReclaimed(s: State)
    ensures Reclaimed(s, s) && StaysHandled(s, s) && AllHandled(s, {}, {}) && AllInVain(s, s, {})
  {
  }

  lemma ReclaimedMeanwhile(s: State, t: State)
    requires Progress(s, t, {})
    ensures Reclaimed(s, t) && AllInVain(s, t, {}) && s.history <= t.history
  {
  }

  lemma ReclaimedTaken(start: State, s: State, t: State)
    requires Reclaimed(start, s) && StaysHandled(start, s) && TakenOver(s, t)
    ensures Reclaimed(start, t) && StaysHandled(start, t) && AllInVain(start, t, {})
  {
    forall e | Handled(s, e) ensures Handled(t, e) {
    }
  }

  lemma ReclaimedHandled(start: State, s: State, t: State, taken: set<Entry>, undelivered: set<Entry>)
    requires Reclaimed(start, s) && StaysHandled(start, s) && Progress(s, t, taken)
    requires AllInVain(s, t, undelivered)
    ensures Reclaimed(start, t) && AllInVain(start, t, undelivered) && s.history <= t.history
    ensures StaysHandled(s, t) ==> StaysHandled(start, t)
  {
    InVainLater(start, s, t, t, undelivered);
  }

  lemma ReclaimedOn(start: State, s: State, t: State, undelivered: set<Entry>, missed: set<Entry>)
    requires Reclaimed(start, s) && Reclaimed(s, t)
    requires AllInVain(start, s, undelivered) && AllInVain(s, t, missed)
    ensures Reclaimed(start, t) && AllInVain(start, t, undelivered + missed)
  {
    InVainLater(start, start, s, t, undelivered);
    InVainLater(start, s, t, t, missed);
  }

  lemma AbandonedWereForeign(start: State, s: State, st: Stream, idle: set<Entry>, limit: nat)
    requires Reclaimed(start, s)
    ensures forall e :: e in SetOf(Abandoned(s.store, s.memory.consumer, st, idle, limit)) ==> WasForeign(start, e)
  {
    AbandonedAreDistinct(s.store, s.memory.consumer, st, idle, limit);
    assert forall e :: e in Abandoned(s.store, s.memory.consumer, st, idle, limit) ==> WasForeign(s, e);
  }

  lemma AllHandledOn(s: State, t: State, taken: set<Entry>, undelivered: set<Entry>, more: set<Entry>, missed: set<Entry>)
    requires AllHandled(s, taken, undelivered) && StaysHandled(s, t) && AllHandled(t, more, missed)
    ensures AllHandled(t, taken + more, undelivered + missed)
  {
  }

  lemma AllHandledMeans(s: State, taken: set<Entry>, undelivered: set<Entry>)
    requires AllHandled(s, taken, undelivered)
    ensures forall e :: e in taken ==> Handled(s, e) || e in undelivered
  {
  }

  /** Every own entry the cursors have passed is answered for. */
  ghost predicate Recovered(s: State, sts: seq<Stream>, cursors: map<Stream, nat>, undelivered: set<Entry>) {
    forall e :: s.Mine(e) && e.stream in sts && Past(cursors, e) ==> Handled(s, e) || e in undelivered
  }

  /** How far a recovery that began at `start` has come: what it handed over, in order, lies behind
      the cursors, and whatever lies behind them is answered for. */
  ghost predicate Recovering(start: State, s: State, sts: seq<Stream>, cursors: map<Stream, nat>,
                             dispatched: seq<Entry>, undelivered: set<Entry>)
  {
    && Progress(start, s, SetOf(dispatched)) && AllInVain(start, s, undelivered)
    && Recovered(s, sts, cursors, undelivered)
    && InOrder(dispatched) && forall e :: e in dispatched ==> Past(cursors, e) && start.Mine(e)
  }

  lemma NothingRecovered(s: State, sts: seq<Stream>, cursors: map<Stream, nat>)
    requires Progress(s, s, {}) && forall st :: st in sts ==> st in cursors && cursors[st] == 0
    ensures Recovering(s, s, sts, cursors, [], {})
  {
    NoneMissed(s);
  }

  /** What was handed over since `before` is this consumer's and in order, and whatever counts as
      undelivered had a push that failed. */
  ghost predicate Accounted(start: State, s: State, before: seq<Entry>, offered: seq<Entry>, undelivered: set<Entry>) {
    && before <= offered && InOrder(offered[|before|..]) && (forall e :: e in offered[|before|..] ==> start.Mine(e))
    && AllInVain(start, s, undelivered) && (NoPushFailed(start, s) ==> undelivered == {})
  }

  lemma RecoveryEnds(start: State, s: State, sts: seq<Stream>, cursors: map<Stream, nat>,
                     dispatched: seq<Entry>, undelivered: set<Entry>, before: seq<Entry>, offered: seq<Entry>)
    requires Recovering(start, s, sts, cursors, dispatched, undelivered) && offered == before + dispatched
    ensures Accounted(start, s, before, offered, undelivered)
    ensures cursors == map[] ==> forall e :: s.Mine(e) && e.stream in sts ==> s.Tracked(e) || e in undelivered
  {
    assert offered[|before|..] == dispatched;
    if NoPushFailed(start, s) {
      NoneInVain(start, s, undelivered);
    }
  }

  /** A round cut short: what was handed over of its page is in order behind what was before. */
  lemma RoundBreaks(start: State, s: State, t: State, sts: seq<Stream>, cursors: map<Stream, nat>,
                    dispatched: seq<Entry>, undelivered: set<Entry>, missed: set<Entry>,
                    before: seq<Entry>, offered: seq<Entry>)
    requires forall i, j :: 0 <= i < j < |sts| ==> sts[i] != sts[j]
    requires Recovering(start, s, sts, cursors, dispatched, undelivered) && AllInVain(s, t, missed)
    requires
      var page := RoundPage(s.store, s.memory.consumer, cursors, sts, PENDING_BATCH);
      && Progress(s, t, SetOf(page))
      && OfferedPart(before + dispatched, page, offered)
    ensures Accounted(start, t, before, offered, undelivered + missed)
  {
    hide Progress, AllInVain, RoundPage, Advance, SetOf, Recovered, NoPushFailed, Past;
    var page := RoundPage(s.store, s.memory.consumer, cursors, sts, PENDING_BATCH);
    RoundInOrder(start, s, sts, cursors, dispatched, SetOf(dispatched));
    InVainMore(start, s, t, SetOf(dispatched), SetOf(page), undelivered, missed);
    if NoPushFailed(start, t) {
      NoneInVain(start, t, undelivered + missed);
    }
    var n :| 0 <= n <= |page| && offered == before + dispatched + page[..n];
    assert offered[|before|..] == (dispatched + page)[..|dispatched| + n];
  }

  /** A whole round: the cursors have passed its page, and less is left to do. */
  lemma RoundEnds(start: State, s: State, t: State, sts: seq<Stream>, cursors: map<Stream, nat>,
                  dispatched: seq<Entry>, undelivered: set<Entry>, missed: set<Entry>)
    requires forall i, j :: 0 <= i < j < |sts| ==> sts[i] != sts[j]
    requires Inv(s) && Recovering(start, s, sts, cursors, dispatched, undelivered)
    requires AllInVain(s, t, missed) && StaysHandled(s, t)
    requires cursors != map[] && cursors.Keys <= (set st | st in sts)
    requires
      var page := RoundPage(s.store, s.memory.consumer, cursors, sts, PENDING_BATCH);
      Progress(s, t, SetOf(page)) && forall e :: e in page ==> Handled(t, e) || e in missed
    ensures
      var c := s.memory.consumer;
      var page := RoundPage(s.store, c, cursors, sts, PENDING_BATCH);
      var later := Advance(s.store, c, cursors, PENDING_BATCH);
      && Recovering(start, t, sts, later, dispatched + page, undelivered + missed)
      && Work(t.store, c, later) < Work(s.store, c, cursors) && later.Keys <= cursors.Keys
  {
    var c := s.memory.consumer;
    var page := RoundPage(s.store, c, cursors, sts, PENDING_BATCH);
    RoundRecovers(s, t, sts, cursors, undelivered, missed);
    RoundInOrder(start, s, sts, cursors, dispatched, SetOf(dispatched));
    ProgressShrinks(s, t, SetOf(page));
    RoundShrinks(s.store, t.store, c, cursors, sts, PENDING_BATCH);
    assert Advance(s.store, c, cursors, PENDING_BATCH).Keys <= cursors.Keys;
    SetOfBoth(dispatched, page);
    hide Progress, AllInVain, RoundPage, Advance, SetOf, Recovered, Past, InOrder, Work, StaysHandled, Handled, Inv;
    ProgressTransitive(start, s, t, SetOf(dispatched), SetOf(page));
    InVainMore(start, s, t, SetOf(dispatched), SetOf(page), undelivered, missed);
  }

  lemma ProgressShrinks(s: State, t: State, handled: set<Entry>)
    requires Progress(s, t, handled)
    ensures forall e :: e in t.store.pending ==> e in s.store.pending && t.store.pending[e] == s.store.pending[e]
  {
  }

  lemma RoundInOrder(start: State, s: State, sts: seq<Stream>, cursors: map<Stream, nat>,
                     dispatched: seq<Entry>, handled: set<Entry>)
    requires Progress(start, s, handled)
    requires forall i, j :: 0 <= i < j < |sts| ==> sts[i] != sts[j]
    requires InOrder(dispatched) && forall e :: e in dispatched ==> Past(cursors, e) && start.Mine(e)
    ensures
      var c := s.memory.consumer;
      var page := RoundPage(s.store, c, cursors, sts, PENDING_BATCH);
      && InOrder(dispatched + page)
      && forall e :: e in dispatched + page ==> Past(Advance(s.store, c, cursors, PENDING_BATCH), e) && start.Mine(e)
  {
    var c := s.memory.consumer;
    var page := RoundPage(s.store, c, cursors, sts, PENDING_BATCH);
    RoundPageHolds(s.store, c, cursors, sts, PENDING_BATCH);
    forall e | e in dispatched + page
      ensures Past(Advance(s.store, c, cursors, PENDING_BATCH), e) && start.Mine(e)
    {
      if e in page { RoundPageParts(s.store, c, cursors, sts, PENDING_BATCH, e); }
      RoundPasses(s.store, c, cursors, PENDING_BATCH, e);
    }
    forall i, j | 0 <= i < j < |dispatched + page| && (dispatched + page)[i].stream == (dispatched + page)[j].stream
      ensures (dispatched + page)[i].index < (dispatched + page)[j].index
    {
      if i < |dispatched| <= j {
        assert (dispatched + page)[i] in dispatched && (dispatched + page)[j] in page;
      }
    }
  }

  lemma RoundRecovers(s: State, t: State, sts: seq<Stream>, cursors: map<Stream, nat>,
                      undelivered: set<Entry>, missed: set<Entry>)
    requires Inv(s) && Recovered(s, sts, cursors, undelivered) && StaysHandled(s, t)
    requires
      var page := RoundPage(s.store, s.memory.consumer, cursors, sts, PENDING_BATCH);
      Progress(s, t, SetOf(page)) && forall e :: e in page ==> Handled(t, e) || e in missed
    ensures Recovered(t, sts, Advance(s.store, s.memory.consumer, cursors, PENDING_BATCH), undelivered + missed)
  {
    var later := Advance(s.store, s.memory.consumer, cursors, PENDING_BATCH);
    forall e | t.Mine(e) && e.stream in sts && Past(later, e)
      ensures Handled(t, e) || e in undelivered + missed
    {
      assert s.Mine(e) && s.WasRead(e);
      if !Past(cursors, e) {
        RoundCovers(s.store, s.memory.consumer, cursors, sts, PENDING_BATCH, e);
      }
    }
  }

  function Max(a: int, b: int): int { if a >= b then a else b }

  lemma WithinCapacity(streams: nat, limit: nat, held: nat)
    requires streams >= 1 && held <= limit
    ensures held + streams * (limit - held) <= Max(1, streams) * limit
  {
    assert streams * (limit - held) == streams * limit - streams * held;
    assert held <= streams * held;
  }

  lemma SameReadAfter(s: State, t: State, handled: set<Entry>)
    requires PositionsFit(s) && Progress(s, t, handled)
    ensures t.store.read == s.store.read && forall e :: t.WasRead(e) <==> s.WasRead(e)
  {
  }

  /** Each stream's position moved past what the group had not read, up to `count` entries of it. */
  ghost predicate Onward(v: Store, w: Store, sts: seq<Stream>, count: nat) {
    forall st :: st in sts ==>
      && st in v.logs && st in v.read && st in w.read
      && v.read[st] + Min(count, |v.logs[st]| - v.read[st]) <= w.read[st] <= v.read[st] + count
  }

  lemma ReadsOnward(s: State, blocked: State, t: State, sts: seq<Stream>, count: nat)
    requires PositionsFit(s) && PositionsFit(blocked) && Progress(s, blocked, {})
    requires forall st :: st in sts ==> st in s.store.logs
    requires ReadOn(blocked.store, t.store, sts, count)
    ensures Onward(s.store, t.store, sts, count)
  {
    forall st | st in sts
      ensures st in blocked.store.logs && |s.store.logs[st]| <= |blocked.store.logs[st]|
    {
      assert st in blocked.store.read;
      if |s.store.logs[st]| > 0 {
        assert s.Exists(Entry(st, |s.store.logs[st]| - 1));
        assert blocked.Exists(Entry(st, |s.store.logs[st]| - 1));
      }
    }
  }

  function Min(a: int, b: int): int { if a <= b then a else b }

  /** Exactly these entries were read since, and this consumer holds them. */
  ghost predicate ReadSince(s: State, t: State, es: seq<Entry>) {
    && (forall e :: e in es ==> t.Mine(e) && t.WasRead(e))
    && (forall e :: t.WasRead(e) && !s.WasRead(e) ==> e in es)
  }

  /** Each stream's position moved by what one read returns of it. */
  ghost predicate ReadOn(v: Store, w: Store, sts: seq<Stream>, count: nat) {
    forall st :: st in sts ==> st in v.read && st in w.read && w.read[st] == v.read[st] + |Next(v, st, count)|
  }

  /** The same of the first `i` streams, and the others were not read. */
  ghost predicate ReadUpTo(v: Store, w: Store, sts: seq<Stream>, i: nat, count: nat) {
    forall j :: 0 <= j < |sts| ==>
      && sts[j] in v.read && sts[j] in w.read
      && w.read[sts[j]] == v.read[sts[j]] + if j < i then |Next(v, sts[j], count)| else 0
  }

  lemma NoneReadYet(v: Store, sts: seq<Stream>, count: nat)
    requires forall st :: st in sts ==> st in v.read
    ensures ReadUpTo(v, v, sts, 0, count)
  {
  }

  lemma ReadUpToAt(v: Store, w: Store, sts: seq<Stream>, i: nat, count: nat)
    requires ReadUpTo(v, w, sts, i, count) && i < |sts|
    ensures sts[i] in v.read && sts[i] in w.read && w.read[sts[i]] == v.read[sts[i]]
  {
  }

  lemma ReadUpToOn(v: Store, u: Store, w: Store, sts: seq<Stream>, i: nat, count: nat)
    requires ReadUpTo(v, u, sts, i, count) && i < |sts| && sts[i] in u.read
    requires forall i, j :: 0 <= i < j < |sts| ==> sts[i] != sts[j]
    requires w.read == u.read[sts[i] := u.read[sts[i]] + |Next(v, sts[i], count)|]
    ensures ReadUpTo(v, w, sts, i + 1, count)
  {
    hide Next;
  }

  lemma ReadUpToAll(v: Store, w: Store, sts: seq<Stream>, count: nat)
    requires ReadUpTo(v, w, sts, |sts|, count)
    ensures ReadOn(v, w, sts, count)
  {
    hide Next;
  }

  lemma NothingRead(s: State)
    ensures ReadSince(s, s, [])
  {
  }

  lemma ReadMore(start: State, s: State, t: State, st: Stream, count: nat, es: seq<Entry>)
    requires ReadSince(start, s, es) && PositionsFit(s) && st in s.store.logs
    requires t.memory == s.memory
    requires
      var more := Next(s.store, st, count);
      t.store == s.store.(read := s.store.read[st := s.store.read[st] + |more|],
                          pending := s.store.pending + OwnedBy(SetOf(more), s.memory.consumer))
    ensures ReadSince(start, t, es + Next(s.store, st, count))
  {
    NextIsRange(s.store, st, count);
  }

  lemma ReadIsDeliverable(s: State, t: State, es: seq<Entry>)
    requires ReadSince(s, t, es)
    ensures forall e :: e in es ==> Deliverable(t, e)
    ensures forall e :: t.WasRead(e) && !s.WasRead(e) ==> e in es
  {
  }

  lemma SameNext(v: Store, w: Store, st: Stream, count: nat)
    requires v.logs == w.logs && (st in v.read <==> st in w.read) && (st in v.read ==> v.read[st] == w.read[st])
    ensures Next(v, st, count) == Next(w, st, count)
  {
  }

  lemma NextIsRange(v: Store, st: Stream, count: nat)
    requires st in v.logs && st in v.read && v.read[st] <= |v.logs[st]|
    ensures SetOf(Next(v, st, count)) == Range(st, v.read[st], |Next(v, st, count)|)
  {
    var es := Next(v, st, count);
    forall e | e in Range(st, v.read[st], |es|) ensures e in es {
      assert es[e.index - v.read[st]] == e;
    }
  }

  /** The entries of a stream the group has not read yet, up to `count`. */
  ghost function Next(v: Store, st: Stream, count: nat): seq<Entry> {
    if st in v.logs && st in v.read && v.read[st] <= |v.logs[st]| then
      seq(Min(count, |v.logs[st]| - v.read[st]), i requires 0 <= i => Entry(st, v.read[st] + i))
    else []
  }

  /** What one read of every stream returns, stream after stream. */
  ghost function NewEntries(v: Store, sts: seq<Stream>, count: nat): seq<Entry> {
    if sts == [] then []
    else NewEntries(v, sts[..|sts| - 1], count) + Next(v, sts[|sts| - 1], count)
  }

  lemma {:induction false} NewEntriesFacts(v: Store, sts: seq<Stream>, count: nat)
    requires forall i, j :: 0 <= i < j < |sts| ==> sts[i] != sts[j]
    ensures Distinct(NewEntries(v, sts, count)) && |NewEntries(v, sts, count)| <= |sts| * count
    ensures forall e :: e in NewEntries(v, sts, count) ==> e.stream in sts
  {
    if sts != [] {
      var last := |sts| - 1;
      NewEntriesFacts(v, sts[..last], count);
      assert |sts| * count == last * count + count;
    }
  }

  lemma FewerKeys(m: map<EventId, Item>, n: map<EventId, Item>)
    requires m.Keys <= n.Keys
    ensures |m| <= |n|
  {
    SubsetSize(m.Keys, n.Keys);
    assert |m| == |m.Keys| && |n| == |n.Keys|;
  }

  lemma HandledOnceHandles(s: State, t: State, e: Entry)
    requires s.Exists(e) && HandledOnce(s, t, e)
    ensures Handled(t, e) && StaysHandled(s, t)
  {
    forall x | (x == e || Handled(s, x)) && x in t.store.pending ensures t.Tracked(x) {
      if x != e {
        var u :| u in s.memory.inflight && x in s.memory.inflight[u].entries;
        assert u in t.memory.inflight && x in t.memory.inflight[u].entries;
      } else {
        var v := s.PayloadOf(e).event;
        assert v in t.memory.inflight && e in t.memory.inflight[v].entries;
      }
    }
  }

  lemma PushFailedKeeps(start: State, s: State, t: State, e: Entry)
    requires s.Exists(e) && PushFailed(s, t, e) && Progress(start, s, {})
    ensures StaysHandled(s, t) && PushedInVain(start, t, e)
  {
    SinceWidens(start, s, t, t, Push(s.PayloadOf(e).event, s.Counter(s.PayloadOf(e).event) + 1, false));
  }

  lemma KeptAndGivenBack(start: State, s: State, t: State, e: Entry)
    requires Progress(start, s, {}) && CountsKept(start, s) && GivenBack(s, t, e) && PushFailed(s, t, e) && start.Exists(e)
    ensures CountKept(start, t, e)
  {
    SinceEver(start, start, s, t);
  }

  lemma StaysHandledTransitive(s: State, t: State, u: State)
    requires StaysHandled(s, t) && StaysHandled(t, u)
    ensures StaysHandled(s, u)
  {
  }

  lemma StaysHandledAt(s: State, t: State, e: Entry)
    requires StaysHandled(s, t) && Handled(s, e)
    ensures Handled(t, e)
  {
  }

  lemma ProgressMore(s: State, t: State, h1: set<Entry>, h2: set<Entry>)
    requires Progress(s, t, h1) && h1 <= h2
    ensures Progress(s, t, h2)
  {
  }

  /** What a sweep makes of one in-flight event. */
  ghost predicate Swept(s: State, t: State, v: EventId, at: int, idle: int, whole: bool) {
    && v in s.memory.inflight
    && if at - s.memory.inflight[v].deliveredAt < idle then SameEvent(s, t, v)
       else Redelivered(s, t, v, at, whole)
  }

  /** Nothing but the one event changed. */
  ghost predicate Elsewhere(s: State, t: State, v: EventId) {
    forall u :: u != v ==>
      && t.Counter(u) == s.Counter(u) && (u in t.store.markers <==> u in s.store.markers)
      && (u in t.memory.inflight <==> u in s.memory.inflight)
      && (u in s.memory.inflight ==> t.memory.inflight[u] == s.memory.inflight[u])
  }

  lemma ItselfSame(s: State, v: EventId)
    requires v in s.memory.inflight
    ensures SameEvent(s, s, v)
  {
  }

  lemma SameItem(s: State, t: State, v: EventId)
    requires SameEvent(s, t, v)
    ensures v in s.memory.inflight && v in t.memory.inflight && t.memory.inflight[v] == s.memory.inflight[v]
  {
  }

  lemma ElsewhereKeys(s: State, t: State, v: EventId)
    requires Elsewhere(s, t, v) && v in s.memory.inflight
    ensures s.memory.inflight.Keys - {v} <= t.memory.inflight.Keys <= s.memory.inflight.Keys
  {
  }

  lemma RedeliveredSince(start: State, s: State, t: State, v: EventId, at: int, whole: bool, still: bool)
    requires SameEvent(start, s, v) && Progress(start, s, {}) && Redelivered(s, t, v, at, whole) && (still ==> whole)
    ensures Redelivered(start, t, v, at, still)
  {
    SinceEver(start, s, t, t);
  }

  lemma StaysSwept(start: State, s: State, t: State, u: EventId, v: EventId, at: int, idle: int, whole: bool, still: bool)
    requires still ==> whole
    requires u != v && Elsewhere(s, t, v) && Progress(s, t, {})
    ensures SameEvent(start, s, u) ==> SameEvent(start, t, u)
    ensures Swept(start, s, u, at, idle, whole) ==> Swept(start, t, u, at, idle, still)
  {
    SinceEver(start, start, s, t);
  }

  /** The event is where it was: same item, same counter, same marker. */
  ghost predicate SameEvent(s: State, t: State, v: EventId) {
    && v in s.memory.inflight && v in t.memory.inflight && t.memory.inflight[v] == s.memory.inflight[v]
    && t.Counter(v) == s.Counter(v) && (v in t.store.markers <==> v in s.store.markers)
  }

  /** What one redelivery of an idle event makes of it: rejected over the limit, pushed with
      the next attempt number, or, if the push failed, left with its earlier attempt. */
  ghost predicate Redelivered(s: State, t: State, v: EventId, at: int, whole: bool) {
    && v in s.memory.inflight
    && var item := s.memory.inflight[v];
       var n := s.Counter(v) + 1;
       if n > s.limit then
         && v !in t.memory.inflight && v in t.store.markers && t.Counter(v) == n && Since(s, t, Reject(v, n))
         && forall e :: e in item.entries ==> e !in t.store.pending
       else
         && v in t.memory.inflight && (v in t.store.markers <==> v in s.store.markers)
         && ((t.memory.inflight[v] == Item(n, at, item.entries) && t.Counter(v) == n && Since(s, t, Push(v, n, true)))
             || (t.memory.inflight[v] == item && n - 1 <= t.Counter(v) <= n && (whole ==> t.Counter(v) == n - 1)
                 && Since(s, t, Push(v, n, false))))
  }

  lemma ProgressOn(s: State, t: State, u: State)
    requires Progress(s, t, {}) && StaysHandled(s, t)
    requires Progress(t, u, {}) && StaysHandled(t, u)
    ensures Progress(s, u, {}) && StaysHandled(s, u)
  {
  }

  lemma RedeliverProgress(s: State, t: State, v: EventId)
    requires v in s.memory.inflight && ItemPending(s, v, s.memory.inflight[v].entries)
    requires t.limit == s.limit && t.memory.consumer == s.memory.consumer && s.history <= t.history
    requires t.store == s.store.(markers := t.store.markers, pending := t.store.pending, counters := t.store.counters)
    requires forall e :: e in t.store.pending ==> e in s.store.pending && t.store.pending[e] == s.store.pending[e]
    requires forall e :: e in s.store.pending && e !in t.store.pending ==> e in s.memory.inflight[v].entries
    requires t.store.pending == s.store.pending || t.WasMarked(v)
    requires (t.memory.inflight.Keys == s.memory.inflight.Keys
              && forall u :: u in s.memory.inflight ==> t.memory.inflight[u].entries == s.memory.inflight[u].entries)
          || (t.memory.inflight == s.memory.inflight - {v}
              && t.store.pending == s.store.pending - EntriesOf(s.memory.inflight, v))
    ensures Progress(s, t, {}) && StaysHandled(s, t)
  {
    forall e | Handled(s, e) && e in t.store.pending ensures t.Tracked(e) {
      var u :| u in s.memory.inflight && e in s.memory.inflight[u].entries;
      assert u in t.memory.inflight;
    }
  }

  ghost predicate AckedFully(s: State, t: State, v: EventId) {
    && v in s.memory.inflight && t.memory.inflight == s.memory.inflight - {v}
    && t.store == s.store.(markers := s.store.markers + {v}, pending := s.store.pending - EntriesOf(s.memory.inflight, v))
    && t.phase == Idle && t.history != [] && t.history[|t.history| - 1] == Acked(v)
  }

  lemma NothingHappened(s: State)
    ensures Progress(s, s, {}) && StaysHandled(s, s)
  {
  }

  /** All an `ack` may change: the marker, the event's own entries once it is marked, and the
      event itself once none of them is pending. */
  ghost predicate AckEffect(s: State, t: State, v: EventId) {
    && v in s.memory.inflight
    && t.limit == s.limit && t.memory.consumer == s.memory.consumer && s.history <= t.history
    && t.store == s.store.(markers := t.store.markers, pending := t.store.pending)
    && (forall e :: e in t.store.pending ==> e in s.store.pending && t.store.pending[e] == s.store.pending[e])
    && (forall e :: e in s.store.pending && e !in t.store.pending ==> e in s.memory.inflight[v].entries)
    && (t.store.pending == s.store.pending || t.WasMarked(v))
    && (t.memory.inflight == s.memory.inflight
        || (t.memory.inflight == s.memory.inflight - {v}
            && t.store.pending == s.store.pending - EntriesOf(s.memory.inflight, v)))
  }

  lemma AckEnds(s: State, marked: State, t: State, v: EventId)
    requires AckEffect(s, marked, v) && marked.memory.inflight == s.memory.inflight
    requires t.limit == s.limit && t.memory.consumer == s.memory.consumer
    requires t.store == marked.store && marked.history <= t.history
    requires t.memory.inflight == s.memory.inflight
          || (t.memory.inflight == s.memory.inflight - {v}
              && t.store.pending == s.store.pending - EntriesOf(s.memory.inflight, v))
    ensures AckEffect(s, t, v)
  {
  }

  lemma AckProgress(s: State, t: State, v: EventId)
    requires v in s.memory.inflight && ItemPending(s, v, s.memory.inflight[v].entries) && AckEffect(s, t, v)
    ensures Progress(s, t, {}) && StaysHandled(s, t) && s.history <= t.history && t.store.counters == s.store.counters
  {
    RedeliverProgress(s, t, v);
  }

  lemma CacheOnly(s: State, c: State, e: Entry, v: EventId)
    requires c == s || (Enabled(s, Uncache(v)) && c == Apply(s, Uncache(v)))
    ensures Progress(s, c, {e})
    ensures c.store == s.store && c.memory.inflight == s.memory.inflight
    ensures Deliverable(s, e) ==> Deliverable(c, e)
    ensures s.Carries(e, v) ==> c.Carries(e, v)
  {
  }

  lemma CacheIrrelevant(s: State, c: State, t: State, e: Entry, v: EventId)
    requires s.Carries(e, v) && c.Carries(e, v) && c.phase == s.phase
    requires c == s || (Enabled(s, Uncache(v)) && c == Apply(s, Uncache(v)))
    ensures HandledOnce(c, t, e) ==> HandledOnce(s, t, e)
    ensures PushFailed(c, t, e) ==> PushFailed(s, t, e)
    ensures GivenBack(c, t, e) ==> GivenBack(s, t, e)
    ensures Progress(c, t, {e}) ==> Progress(s, t, {e})
  {
  }

  lemma AtMostOneMore(m: map<EventId, Item>, n: map<EventId, Item>, v: EventId)
    requires n.Keys <= m.Keys + {v}
    ensures |n| <= |m| + 1
  {
    SubsetSize(n.Keys, m.Keys + {v});
    assert |m.Keys + {v}| <= |m.Keys| + 1;
    assert |n| == |n.Keys| && |m| == |m.Keys|;
  }

  /** The attempt of the failed push was given back: the event's count is what it was. */
  ghost predicate GivenBack(s: State, t: State, e: Entry) {
    s.Exists(e) && s.PayloadOf(e).Routed? && t.Counter(s.PayloadOf(e).event) == s.Counter(s.PayloadOf(e).event)
  }

  /** A push that failed: the entry stays pending and untracked, the attempt is given back
      unless that failed too. */
  ghost predicate PushFailed(s: State, t: State, e: Entry) {
    && s.Exists(e) && s.PayloadOf(e).Routed? && s.history <= t.history && t.phase == Idle && t.limit == s.limit
    && var v := s.PayloadOf(e).event;
       var n := s.Counter(v) + 1;
       && v !in s.memory.inflight && n <= s.limit
       && t.memory == s.memory.(recent := t.memory.recent) && t.memory.recent <= s.memory.recent
       && t.store == s.store.(counters := t.store.counters)
       && (t.store.counters == s.store.counters[v := n] || t.store.counters == s.store.counters[v := n - 1])
       && Since(s, t, Push(v, n, false))
  }

  lemma OfferProgress(s: State, t: State, e: Entry)
    requires t.limit == s.limit && t.memory.consumer == s.memory.consumer && s.history <= t.history
    requires t.store == s.store.(markers := t.store.markers, counters := t.store.counters, pending := t.store.pending)
    requires t.store.pending == s.store.pending || t.store.pending == s.store.pending - {e}
    ensures Progress(s, t, {e})
  {
  }

  lemma OfferMeans(s: State, t: State, e: Entry, v: EventId, out: Outcome, whole: bool)
    requires s.Carries(e, v) && v !in s.store.markers && v !in s.memory.recent && v !in s.memory.inflight
    requires t.limit == s.limit && s.history <= t.history && t.phase == Idle
    requires t.memory == s.memory.(inflight := t.memory.inflight)
    requires
      var n := s.Counter(v) + 1;
      match out
      case Transport => true
      case Undelivered =>
        && n <= s.limit && t.memory.inflight == s.memory.inflight && Since(s, t, Push(v, n, false))
        && t.store == s.store.(counters := t.store.counters)
        && (t.store.counters == s.store.counters[v := n] || t.store.counters == s.store.counters[v := n - 1])
        && (whole ==> t.store.counters == s.store.counters[v := n - 1])
      case Done =>
        if n > s.limit then
          && t.memory.inflight == s.memory.inflight
          && t.store == s.store.(markers := s.store.markers + {v}, counters := s.store.counters[v := n],
                                 pending := s.store.pending - {e})
        else
          && t.store == s.store.(counters := s.store.counters[v := n])
          && (exists at :: t.memory.inflight == s.memory.inflight[v := Item(n, at, [e])])
          && t.history != [] && t.history[|t.history| - 1] == Push(v, n, true)
    ensures out.Done? ==> HandledOnce(s, t, e)
    ensures out.Undelivered? ==> PushFailed(s, t, e)
    ensures out.Undelivered? && whole ==> GivenBack(s, t, e)
  {
  }

  lemma AcknowledgedMarked(s: State, t: State, handled: set<Entry>, v: EventId)
    requires s.limit == t.limit && s.memory.consumer == t.memory.consumer && s.history <= t.history
    requires t.store == s.store.(pending := t.store.pending)
    requires forall e :: e in t.store.pending ==> e in s.store.pending && t.store.pending[e] == s.store.pending[e]
    requires forall e :: e in s.store.pending && e !in t.store.pending ==> s.Carries(e, v) || e in handled
    requires s.WasMarked(v)
    ensures Progress(s, t, handled)
  {
  }

  function Without(es: seq<Entry>, e: Entry): (r: seq<Entry>)
    ensures forall x :: x in r <==> x in es && x != e
  {
    if es == [] then []
    else if es[0] == e then Without(es[1..], e)
    else [es[0]] + Without(es[1..], e)
  }
}
