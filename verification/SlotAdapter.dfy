/** The slot adapter: it registers the session, reports busy or idle, hands over one message at
    a time, and keeps the admissions it was granted. What it did is a trace; what it may do next
    is a rule over the trace. */
module SlotAdapters {

  import opened Wrappers

  /** A registration; `serial` tells one from another even if the rest were equal. */
  datatype Conn = Conn(connId: string, epoch: string, uuid: string, serial: nat)

  datatype Message = Message(id: string, attempt: string, isTask: bool)

  datatype Admission = Admission(taskId: string, attemptId: string, uuid: string, epoch: string, connId: string)

  /** What the hooks last wrote; `reported` in milliseconds. */
  datatype Hook = Hook(sessionId: string, idle: bool, reported: int)

  datatype Config = Config(heartbeatMs: int, emitHoldMs: int, initialSessionId: string)

  datatype NextAnswer = Got(m: Message, at: int) | Nothing | NextFenced | NextThrew

  datatype LostAnswer = Settled | LostFenced | LostRefused | LostThrew

  datatype Event =
    | Registered(conn: Conn)
    | RegisterRefused
    | RegisterThrew
    | EmitLost(outcome: LostAnswer)
    | Beat(busy: bool)
    | BeatRefused
    | BeatThrew
    | Next(now: int, reported: int, answer: NextAnswer)
    | Notified(m: Message)
    | NotifyFailed(m: Message)
    | Emitted(id: string)

  // ---- What a trace says ----

  /** The registration in force. */
  function Live(trace: seq<Event>): Option<Conn> {
    if trace == [] then None
    else
      match trace[|trace| - 1]
      case Registered(conn) => Some(conn)
      case RegisterRefused => None
      case BeatRefused => None
      case EmitLost(LostFenced) => None
      case Next(_, _, NextFenced) => None
      case _ => Live(trace[..|trace| - 1])
  }

  predicate Unsettles(e: Event) {
    (e.Next? && e.answer == NextThrew) || e.NotifyFailed?
  }

  predicate Settles(e: Event) {
    e.Registered? || e == EmitLost(Settled)
  }

  /** A message may have been taken that nobody will write. */
  predicate Unsettled(trace: seq<Event>) {
    trace != []
    && (Unsettles(trace[|trace| - 1])
        || (!Settles(trace[|trace| - 1]) && Unsettled(trace[..|trace| - 1])))
  }

  /** What the server was last told since the registration. */
  function LastBeat(trace: seq<Event>): Option<bool> {
    if trace == [] then None
    else
      match trace[|trace| - 1]
      case Registered(_) => None
      case Beat(busy) => Some(busy)
      case _ => LastBeat(trace[..|trace| - 1])
  }

  /** When a message was last taken since the registration. */
  function LastTaken(trace: seq<Event>): Option<int> {
    if trace == [] then None
    else
      match trace[|trace| - 1]
      case Registered(_) => None
      case Next(_, _, Got(_, at)) => Some(at)
      case _ => LastTaken(trace[..|trace| - 1])
  }

  /** The message just taken and not yet written. */
  function Taken(trace: seq<Event>): Option<Message> {
    if trace != [] && trace[|trace| - 1].Next? && trace[|trace| - 1].answer.Got?
    then Some(trace[|trace| - 1].answer.m) else None
  }

  // ---- What may follow ----

  /** The session had time to report since the last message, or the hold is over. */
  predicate Rested(cfg: Config, trace: seq<Event>, now: int, reported: int) {
    LastTaken(trace).Some? ==> reported > LastTaken(trace).value || now - LastTaken(trace).value >= cfg.emitHoldMs
  }

  predicate Lawful(cfg: Config, trace: seq<Event>, e: Event) {
    (Taken(trace).Some? ==> e == Notified(Taken(trace).value) || e == NotifyFailed(Taken(trace).value))
    && match e
       case Next(now, reported, _) =>
         Live(trace).Some? && !Unsettled(trace) && LastBeat(trace) == Some(false) && Rested(cfg, trace, now, reported)
       case Notified(m) => Taken(trace) == Some(m)
       case NotifyFailed(m) => Taken(trace) == Some(m)
       case Emitted(id) => trace != [] && trace[|trace| - 1].Notified? && trace[|trace| - 1].m.id == id
       case _ => true
  }

  ghost predicate LawfulTrace(cfg: Config, trace: seq<Event>) {
    forall j :: 0 <= j < |trace| ==> Lawful(cfg, trace[..j], trace[j])
  }

  lemma LawfulGrows(cfg: Config, trace: seq<Event>, e: Event)
    requires LawfulTrace(cfg, trace) && Lawful(cfg, trace, e)
    ensures LawfulTrace(cfg, trace + [e])
  {
    var longer := trace + [e];
    forall j | 0 <= j < |longer| ensures Lawful(cfg, longer[..j], longer[j]) {
      assert longer[..j] == trace[..j];
      if j == |trace| {
        assert trace[..j] == trace;
      }
    }
  }

  // ---- What every lawful trace shows ----

  lemma {:induction false} UnsettledUntil(trace: seq<Event>, i: nat)
    requires i < |trace| && Unsettles(trace[i])
    requires forall k :: i < k < |trace| ==> !Settles(trace[k])
    ensures Unsettled(trace)
    decreases |trace|
  {
    if i < |trace| - 1 {
      var init := trace[..|trace| - 1];
      UnsettledUntil(init, i);
    }
  }

  /** After a `next` that threw or a notification that failed, no `next` is issued before a
      lost emit was settled or a registration succeeded. */
  lemma SettledBeforeNext(cfg: Config, trace: seq<Event>, i: nat, j: nat)
    requires LawfulTrace(cfg, trace) && i < j < |trace| && Unsettles(trace[i]) && trace[j].Next?
    ensures exists k :: i < k < j && Settles(trace[k])
  {
    var before := trace[..j];
    assert Lawful(cfg, before, trace[j]);
    if forall k :: i < k < j ==> !Settles(trace[k]) {
      assert forall k :: i < k < |before| ==> before[k] == trace[k];
      UnsettledUntil(before, i);
    }
  }

  /** Each message taken is written, or failed to be, at once and once; nothing else is written,
      and a message is marked only after it was written. */
  lemma WritesWhatWasTaken(cfg: Config, trace: seq<Event>, j: nat)
    requires LawfulTrace(cfg, trace) && j < |trace|
    ensures trace[j].Next? && trace[j].answer.Got? && j + 1 < |trace| ==>
              trace[j + 1] == Notified(trace[j].answer.m) || trace[j + 1] == NotifyFailed(trace[j].answer.m)
    ensures trace[j].Notified? || trace[j].NotifyFailed? ==>
              j > 0 && trace[j - 1].Next? && trace[j - 1].answer.Got? && trace[j - 1].answer.m == trace[j].m
    ensures trace[j].Emitted? ==> j > 1 && trace[j - 1].Notified? && trace[j - 1].m.id == trace[j].id
  {
    assert Lawful(cfg, trace[..j], trace[j]);
    if j + 1 < |trace| {
      assert Lawful(cfg, trace[..j + 1], trace[j + 1]);
    }
    if j > 0 {
      assert trace[..j][j - 1] == trace[j - 1];
      assert Lawful(cfg, trace[..j - 1], trace[j - 1]);
    }
  }

  function TakenCount(trace: seq<Event>): nat {
    if trace == [] then 0
    else TakenCount(trace[..|trace| - 1]) + (if Taken(trace).Some? then 1 else 0)
  }

  function WrittenCount(trace: seq<Event>): nat {
    if trace == [] then 0
    else
      var last := trace[|trace| - 1];
      WrittenCount(trace[..|trace| - 1]) + (if last.Notified? || last.NotifyFailed? then 1 else 0)
  }

  /** One attempt to write per message taken. */
  lemma {:induction false} OneWriteEach(cfg: Config, trace: seq<Event>)
    requires LawfulTrace(cfg, trace)
    ensures TakenCount(trace) == WrittenCount(trace) + (if Taken(trace).Some? then 1 else 0)
  {
    if trace != [] {
      var init := trace[..|trace| - 1];
      assert forall j :: 0 <= j < |init| ==> init[..j] == trace[..j];
      OneWriteEach(cfg, init);
      assert Lawful(cfg, init, trace[|trace| - 1]);
    }
  }

  // ---- Admissions ----

  /** A grant that was stored: asked for on a registration, and answered while it was in force. */
  datatype Grant = Grant(task: string, attempt: string, admission: Admission, conn: Conn, at: nat)

  ghost predicate Sound(trace: seq<Event>, g: Grant) {
    g.at <= |trace| && Live(trace[..g.at]) == Some(g.conn)
    && g.admission == Admission(g.task, g.attempt, g.conn.uuid, g.conn.epoch, g.conn.connId)
  }

  ghost predicate AllSound(trace: seq<Event>, grants: seq<Grant>, admissions: map<string, Admission>) {
    (forall g :: g in grants ==> Sound(trace, g))
    && forall task :: task in admissions ==>
         exists g :: g in grants && g.task == task && g.admission == admissions[task]
  }

  lemma SoundStays(trace: seq<Event>, longer: seq<Event>, grants: seq<Grant>, admissions: map<string, Admission>)
    requires AllSound(trace, grants, admissions) && trace <= longer
    ensures AllSound(longer, grants, admissions)
  {
    forall g | g in grants ensures Sound(longer, g) {
      assert Sound(trace, g);
      assert longer[..g.at] == trace[..g.at];
    }
  }

  /** No registration on record has a higher number. */
  ghost predicate Numbered(trace: seq<Event>, serial: nat) {
    forall i :: 0 <= i < |trace| && trace[i].Registered? ==> trace[i].conn.serial <= serial
  }

  lemma NumberedGrows(trace: seq<Event>, e: Event, serial: nat, later: nat)
    requires Numbered(trace, serial) && serial <= later && (e.Registered? ==> e.conn.serial <= later)
    ensures Numbered(trace + [e], later)
  {
  }

  lemma NumberedApart(trace: seq<Event>, serial: nat, c: Conn)
    requires Numbered(trace, serial) && serial < c.serial
    ensures NeverRegistered(trace, c)
  {
  }

  ghost predicate NeverRegistered(trace: seq<Event>, c: Conn) {
    forall i :: 0 <= i < |trace| && trace[i].Registered? ==> trace[i].conn != c
  }

  lemma {:induction false} LiveRegistered(trace: seq<Event>, c: Conn)
    requires NeverRegistered(trace, c)
    ensures Live(trace) != Some(c)
  {
    if trace != [] {
      LiveRegistered(trace[..|trace| - 1], c);
    }
  }

  // ---- One pass ----

  /** What became of a call to the server. */
  datatype Answer<T> = CallThrew | Refused | Accepted(value: T)

  /** The registration asked for, as the trace has it. */
  function Registering(answer: Answer<(string, string)>, sessionId: string, serial: nat): Event {
    match answer
    case CallThrew => RegisterThrew
    case Refused => RegisterRefused
    case Accepted((connId, epoch)) => Registered(Conn(connId, epoch, sessionId, serial))
  }

  function Beating(answer: Answer<()>, busy: bool): Event {
    match answer
    case CallThrew => BeatThrew
    case Refused => BeatRefused
    case Accepted(_) => Beat(busy)
  }

  predicate IsRegistration(e: Event, sessionId: string) {
    e == RegisterThrew || e == RegisterRefused || (e.Registered? && e.conn.uuid == sessionId)
  }

  /** Nothing, or an answer after which the pass goes on. */
  predicate Passes(es: seq<Event>) {
    es == [] || (|es| == 1 && (es[0].Registered? || es[0] == EmitLost(Settled) || es[0].Beat?))
  }

  predicate Settling(unsettled: bool, es: seq<Event>) {
    if unsettled then |es| == 1 && es[0].EmitLost? else es == []
  }

  /** The flag is sent unless it was told already, and not long ago. */
  predicate Beaten(told: bool, busy: bool, es: seq<Event>) {
    if told then es == [] else |es| == 1 && es[0] in {Beat(busy), BeatRefused, BeatThrew}
  }


  /** What an emit adds to the trace: one `next`; and when that took a message, either the failure
      to write it, or the writing of it and then its mark. */
  predicate OneEmit(es: seq<Event>, now: int, reported: int) {
    && es != [] && es[0].Next? && es[0].now == now && es[0].reported == reported
    && match es[0].answer
       case Got(m, _) => es[1..] == [NotifyFailed(m)] || es[1..] == [Notified(m), Emitted(m.id)]
       case _ => |es| == 1
  }

  predicate Fits(conn: Option<Conn>, sessionId: string) {
    conn.Some? && conn.value.uuid == sessionId
  }

  /** What a registered pass adds, each part only when the answers before let it go on. */
  predicate Onward(st: Option<Hook>, now: int, unsettled: bool, told: bool, busy: bool,
                   lost: seq<Event>, beat: seq<Event>, emit: seq<Event>) {
    && Settling(unsettled, lost)
    && (if Passes(lost) then Beaten(told, busy, beat) else beat == [])
    && if Passes(lost) && Passes(beat) && !busy then st.Some? && OneEmit(emit, now, st.value.reported) else emit == []
  }

  lemma EmitAdds(was: seq<Event>, asked: Event, trace: seq<Event>)
    requires asked.Next? && was + [asked] <= trace
    requires
      match asked.answer
      case Got(m, _) => trace == was + [asked] + [NotifyFailed(m)] || trace == was + [asked] + [Notified(m), Emitted(m.id)]
      case _ => trace == was + [asked]
    ensures was < trace && OneEmit(trace[|was|..], asked.now, asked.reported)
  {
    assert trace[|was|..][0] == asked;
    assert trace[|was|..][1..] == trace[|was| + 1..];
  }

  // ---- The adapter ----

  datatype Reply = Ok | Rejected | StaleGrant | ToolError | Threw

  /** The grant is for this task and attempt under this registration. */
  predicate Grants(a: Admission, taskId: string, attemptId: string, c: Conn) {
    a == Admission(taskId, attemptId, c.uuid, c.epoch, c.connId)
  }

  class Adapter {
    const cfg: Config
    var conn: Option<Conn>
    var admissions: map<string, Admission>
    var lastBeat: int
    var lastBusy: Option<bool>
    var emittedAt: int
    var emitUnsettled: bool
    var serial: nat
    ghost var trace: seq<Event>
    ghost var grants: seq<Grant>

    constructor (cfg: Config)
      ensures this.cfg == cfg && Valid() && conn == None && admissions == map[] && trace == []
    {
      this.cfg, conn, admissions := cfg, None, map[];
      lastBeat, lastBusy, emittedAt, emitUnsettled, serial := 0, None, 0, false, 0;
      trace, grants := [], [];
    }

    ghost predicate Valid()
      reads this
    {
      Recorded() && Remembers() && Taken(trace) == None
    }

    /** The fields say what the trace says. */
    ghost predicate Remembers()
      reads this
    {
      Live(trace) == conn
      && (conn.Some? && Unsettled(trace) ==> emitUnsettled)
      && (conn.Some? && lastBusy.Some? ==> LastBeat(trace) == lastBusy)
      && (conn.Some? ==> LastTaken(trace) == (if emittedAt > 0 then Some(emittedAt) else None))
      && Numbered(trace, serial)
    }

    /** What the server is asked, and its answer, are on record. */
    ghost predicate Recorded()
      reads this
    {
      LawfulTrace(cfg, trace) && AllSound(trace, grants, admissions)
    }

    ghost method Log(e: Event)
      requires Recorded() && Lawful(cfg, trace, e)
      modifies this`trace
      ensures Recorded() && trace == old(trace) + [e]
    {
      LawfulGrows(cfg, trace, e);
      SoundStays(trace, trace + [e], grants, admissions);
      trace := trace + [e];
    }

    method AskRegister(sessionId: string) returns (answer: Answer<(string, string)>)
      requires Recorded() && Taken(trace) == None
      modifies this`trace
      ensures Recorded() && trace == old(trace) + [Registering(answer, sessionId, serial + 1)]
    {
      answer := *;
      Log(Registering(answer, sessionId, serial + 1));
    }

    method AskLost() returns (answer: LostAnswer)
      requires Recorded() && Taken(trace) == None
      modifies this`trace
      ensures Recorded() && trace == old(trace) + [EmitLost(answer)]
    {
      answer := *;
      Log(EmitLost(answer));
    }

    method AskBeat(busy: bool) returns (answer: Answer<()>)
      requires Recorded() && Taken(trace) == None
      modifies this`trace
      ensures Recorded() && trace == old(trace) + [Beating(answer, busy)]
    {
      answer := *;
      Log(Beating(answer, busy));
    }

    /** A message is taken no earlier than it is asked for. */
    method AskNext(now: int, reported: int) returns (answer: NextAnswer)
      requires Recorded() && Taken(trace) == None && Live(trace).Some? && !Unsettled(trace)
      requires LastBeat(trace) == Some(false) && Rested(cfg, trace, now, reported)
      modifies this`trace
      ensures Recorded() && trace == old(trace) + [Next(now, reported, answer)]
      ensures answer.Got? ==> answer.at >= now
    {
      answer := *;
      if answer.Got? && answer.at < now {
        answer := Got(answer.m, now);
      }
      Log(Next(now, reported, answer));
    }

    /** False when the notification failed. */
    method Notify(m: Message) returns (written: bool)
      requires Recorded() && Taken(trace) == Some(m)
      modifies this`trace
      ensures Recorded() && trace == old(trace) + [if written then Notified(m) else NotifyFailed(m)]
    {
      written := *;
      Log(if written then Notified(m) else NotifyFailed(m));
    }

    predicate Busy(st: Option<Hook>, now: int)
      reads this
    {
      st.None? || !st.value.idle
      || (emittedAt > 0 && st.value.reported <= emittedAt && now - emittedAt < cfg.emitHoldMs)
    }

    /** The flag follows what the server may be asked: busy unless the hooks say idle and the last
        message has rested. */
    lemma BusyMeans(st: Option<Hook>, now: int)
      requires Valid() && conn.Some?
      ensures Busy(st, now) <==> st.None? || !st.value.idle || !Rested(cfg, trace, now, st.value.reported)
    {
    }

    /** False when the call threw. A new registration is like none before. */
    method Register(sessionId: string) returns (ok: bool)
      requires Valid()
      modifies this`conn, this`lastBusy, this`emittedAt, this`emitUnsettled, this`serial, this`trace
      ensures Valid() && |trace| == |old(trace)| + 1 && old(trace) < trace
      ensures IsRegistration(trace[|old(trace)|], sessionId)
      ensures ok == !trace[|old(trace)|].RegisterThrew?
      ensures match trace[|old(trace)|]
              case Registered(c) =>
                conn == Some(c) && !emitUnsettled && lastBusy == None && emittedAt == 0
                && old(conn) != conn && NeverRegistered(old(trace), c)
              case RegisterRefused => conn == None
              case _ => conn == old(conn) && emitUnsettled == old(emitUnsettled) && lastBusy == old(lastBusy)
    {
      hide LawfulTrace, AllSound, Numbered, NeverRegistered, Rested;
      var answer := AskRegister(sessionId);
      ghost var e := trace[|old(trace)|];
      NumberedGrows(old(trace), e, serial, if answer.Accepted? then serial + 1 else serial);
      assert Live(trace) == if answer.CallThrew? then Live(old(trace)) else if answer.Refused? then None else Some(e.conn);
      match answer
      case CallThrew => return false;
      case Refused =>
        conn := None;
        return true;
      case Accepted((connId, epoch)) =>
        NumberedApart(old(trace), serial, e.conn);
        LiveRegistered(old(trace), e.conn);
        serial := serial + 1;
        conn := Some(Conn(connId, epoch, sessionId, serial));
        lastBusy, emittedAt, emitUnsettled := None, 0, false;
        return true;
    }

    /** A lost emit settled before anything else is emitted; true when the tick may go on. */
    method SettleLost() returns (goOn: bool)
      requires Valid() && conn.Some?
      modifies this`conn, this`emitUnsettled, this`trace
      ensures Valid() && old(trace) <= trace && Settling(old(emitUnsettled), trace[|old(trace)|..])
      ensures goOn == Passes(trace[|old(trace)|..])
      ensures goOn ==> conn == old(conn) && !emitUnsettled
      ensures !goOn ==> if trace == old(trace) + [EmitLost(LostFenced)] then conn == None && !emitUnsettled else emitUnsettled
    {
      hide LawfulTrace, AllSound;
      if !emitUnsettled {
        return true;
      }
      var answer := AskLost();
      match answer
      case Settled =>
        emitUnsettled := false;
        return true;
      case LostFenced =>
        emitUnsettled := false;
        conn := None;
        return false;
      case _ => return false;
    }

    /** The current flag sent when it changed or the last one is old; true when the tick may go
        on, and then the server was last told this flag. */
    method Heartbeat(busy: bool, now: int) returns (goOn: bool)
      requires Valid() && conn.Some?
      modifies this`conn, this`lastBeat, this`lastBusy, this`trace
      ensures Valid() && old(trace) <= trace
      ensures Beaten(old(lastBusy) == Some(busy) && now - old(lastBeat) < cfg.heartbeatMs, busy, trace[|old(trace)|..])
      ensures goOn == Passes(trace[|old(trace)|..])
      ensures goOn ==> conn == old(conn) && lastBusy == Some(busy)
      ensures lastBeat == if trace == old(trace) + [Beat(busy)] then now else old(lastBeat)
      ensures !goOn ==> conn == if trace == old(trace) + [BeatRefused] then None else old(conn)
    {
      hide LawfulTrace, AllSound;
      if lastBusy == Some(busy) && now - lastBeat < cfg.heartbeatMs {
        return true;
      }
      var answer := AskBeat(busy);
      match answer
      case CallThrew => return false;
      case Refused =>
        conn := None;
        return false;
      case Accepted(_) =>
        lastBeat, lastBusy := now, Some(busy);
        return true;
    }

    /** At most one message taken and written. */
    method Emit(st: Hook, now: int)
      requires Valid() && conn.Some? && now > 0
      requires !emitUnsettled && lastBusy == Some(false) && !Busy(Some(st), now)
      modifies this`conn, this`emittedAt, this`emitUnsettled, this`trace
      ensures Valid() && old(trace) < trace && OneEmit(trace[|old(trace)|..], now, st.reported)
      ensures conn == if trace[|old(trace)|].answer.NextFenced? then None else old(conn)
      ensures emittedAt == if trace[|old(trace)|].answer.Got? then trace[|old(trace)|].answer.at else old(emittedAt)
      ensures emitUnsettled == Unsettles(trace[|trace| - 1])
    {
      hide LawfulTrace, AllSound, OneEmit;
      var answer := AskNext(now, st.reported);
      ghost var asked := Next(now, st.reported, answer);
      match answer {
        case NextThrew => emitUnsettled := true;
        case NextFenced => conn := None;
        case Nothing =>
        case Got(m, at) =>
          emittedAt := at;
          Write(m);
      }
      EmitAdds(old(trace), asked, trace);
    }

    /** The message just taken; marked as emitted only when it was written. */
    method Write(m: Message)
      requires Recorded() && Remembers() && Taken(trace) == Some(m) && !emitUnsettled
      modifies this`emitUnsettled, this`trace
      ensures Valid()
      ensures trace == old(trace) + [NotifyFailed(m)] || trace == old(trace) + [Notified(m), Emitted(m.id)]
      ensures emitUnsettled == (trace == old(trace) + [NotifyFailed(m)])
    {
      hide LawfulTrace, AllSound;
      var written := Notify(m);
      if !written {
        emitUnsettled := true;
        return;
      }
      MarkEmitted(m);
    }

    /** The answer does not matter: the message has been written. */
    method MarkEmitted(m: Message)
      requires Valid() && trace != [] && trace[|trace| - 1] == Notified(m)
      modifies this`trace
      ensures Valid() && trace == old(trace) + [Emitted(m.id)]
    {
      hide LawfulTrace, AllSound;
      Log(Emitted(m.id));
    }

    function SessionId(st: Option<Hook>): string {
      if st.Some? && st.value.sessionId != "" then st.value.sessionId else cfg.initialSessionId
    }

    /** One pass, as far as the answers let it go: the session is registered unless it is, and
        then comes the rest. */
    method Tick(st: Option<Hook>, now: int)
      returns (ghost reg: seq<Event>, ghost lost: seq<Event>, ghost beat: seq<Event>, ghost emit: seq<Event>)
      requires Valid() && now > 0
      modifies this`conn, this`lastBeat, this`lastBusy, this`emittedAt, this`emitUnsettled, this`serial, this`trace
      ensures Valid() && trace == old(trace) + reg + lost + beat + emit
      ensures SessionId(st) == "" || Fits(old(conn), SessionId(st)) ==> reg == []
      ensures SessionId(st) != "" && !Fits(old(conn), SessionId(st)) ==>
                |reg| == 1 && IsRegistration(reg[0], SessionId(st))
      ensures SessionId(st) == "" || !Passes(reg) ==> lost == [] && beat == [] && emit == []
      ensures SessionId(st) != "" && Passes(reg) ==>
                var busy := if reg == [] then old(Busy(st, now)) else st.None? || !st.value.idle;
                var told := reg == [] && old(lastBusy) == Some(busy) && now - old(lastBeat) < cfg.heartbeatMs;
                Onward(st, now, reg == [] && old(emitUnsettled), told, busy, lost, beat, emit)
    {
      hide LawfulTrace, AllSound, Remembers, OneEmit, Onward;
      reg, lost, beat, emit := [], [], [], [];
      var sessionId := SessionId(st);
      if sessionId == "" {
        return;
      }
      if conn.None? || conn.value.uuid != sessionId {
        var ok := Register(sessionId);
        reg := trace[|old(trace)|..];
        if !ok {
          return;
        }
      }
      if conn.None? {
        return;
      }
      lost, beat, emit := GoOn(st, now);
    }

    /** A lost emit is settled; the flag is sent when it is due; and, unless busy, one message is
        asked for. */
    method GoOn(st: Option<Hook>, now: int)
      returns (ghost lost: seq<Event>, ghost beat: seq<Event>, ghost emit: seq<Event>)
      requires Valid() && now > 0 && conn.Some?
      modifies this`conn, this`lastBeat, this`lastBusy, this`emittedAt, this`emitUnsettled, this`trace
      ensures Valid() && trace == old(trace) + lost + beat + emit
      ensures var busy := old(Busy(st, now));
              var told := old(lastBusy) == Some(busy) && now - old(lastBeat) < cfg.heartbeatMs;
              Onward(st, now, old(emitUnsettled), told, busy, lost, beat, emit)
    {
      hide LawfulTrace, AllSound, Remembers, OneEmit;
      lost, beat, emit := [], [], [];
      var goOn := SettleLost();
      lost := trace[|old(trace)|..];
      if !goOn {
        return;
      }
      ghost var at := |trace|;
      var busy := Busy(st, now);
      goOn := Heartbeat(busy, now);
      beat := trace[at..];
      if !goOn || busy {
        return;
      }
      at := |trace|;
      Emit(st.value, now);
      emit := trace[at..];
    }

    /** Ticks that run while a tool call waits for its answer. */
    method Ticks()
      requires Valid()
      modifies this`conn, this`lastBeat, this`lastBusy, this`emittedAt, this`emitUnsettled, this`serial, this`trace
      ensures Valid() && old(trace) <= trace
    {
      var n: nat := *;
      while n > 0
        invariant Valid() && old(trace) <= trace
      {
        var st: Option<Hook>, now: int := *, *;
        if now > 0 {
          var _, _, _, _ := Tick(st, now);
        }
        n := n - 1;
      }
    }

    /** A grant is kept exactly when it is for this task and attempt, and the registration it was
        asked on is still the one in force when the answer arrives. */
    method AckTask(taskId: string, attemptId: string) returns (r: Reply, ghost answer: Answer<Option<Admission>>)
      requires Valid()
      modifies this
      ensures Valid() && old(trace) <= trace
      ensures r == Ok ==>
                conn.Some? && conn == old(conn)
                && admissions == old(admissions)[taskId :=
                     Admission(taskId, attemptId, conn.value.uuid, conn.value.epoch, conn.value.connId)]
      ensures r != Ok ==> admissions == old(admissions)
      ensures old(conn).None? <==> r == ToolError
      ensures old(conn).Some? ==>
                match answer
                case CallThrew => r == Threw
                case Refused => r == Rejected
                case Accepted(granted) =>
                  if granted.Some? && Grants(granted.value, taskId, attemptId, old(conn).value) && conn == old(conn)
                  then r == Ok else r == StaleGrant
    {
      if conn.None? {
        return ToolError, CallThrew;
      }
      var asked := conn;
      Ticks();
      var got: Answer<Option<Admission>> := *;
      answer := got;
      var granted;
      match got {
        case CallThrew => return Threw, answer;
        case Refused => return Rejected, answer;
        case Accepted(value) => granted := value;
      }
      if granted.None? || granted.value.taskId != taskId || granted.value.attemptId != attemptId
         || granted.value.connId != asked.value.connId || granted.value.epoch != asked.value.epoch
         || granted.value.uuid != asked.value.uuid || conn != asked {
        return StaleGrant, answer;
      }
      ghost var g := Grant(taskId, attemptId, granted.value, conn.value, |trace|);
      assert trace[..|trace|] == trace;
      grants := grants + [g];
      admissions := admissions[taskId := granted.value];
      return Ok, answer;
    }

    /** The result goes out under the stored admission, stale or not; it is dropped once the
        server has taken it. */
    method ReportResult(taskId: string) returns (r: Reply, sent: Option<Admission>, ghost answer: Answer<()>)
      requires Valid()
      modifies this
      ensures Valid() && old(trace) <= trace
      ensures sent == if taskId in old(admissions) then Some(old(admissions)[taskId]) else None
      ensures r == Ok ==> taskId in old(admissions) && admissions == old(admissions) - {taskId}
      ensures r != Ok ==> admissions == old(admissions)
      ensures r == if sent.None? then ToolError
                   else match answer
                        case CallThrew => Threw
                        case Refused => Rejected
                        case Accepted(_) => Ok
    {
      if taskId !in admissions {
        return ToolError, None, CallThrew;
      }
      sent := Some(admissions[taskId]);
      Ticks();
      var got: Answer<()> := *;
      answer := got;
      match got
      case CallThrew => return Threw, sent, answer;
      case Refused => return Rejected, sent, answer;
      case Accepted(_) =>
        admissions := admissions - {taskId};
        return Ok, sent, answer;
    }
  }

}
