/** Wakes of the orchestrator's thread: the recorded intent, the `turn/start` it carries, and
    what may be recorded about it, over every run with lost replies and crashes. */
module Wakes {

  type Id = string

  datatype Wake = Intent | Started(turn: nat) | Completed(turn: nat) | Failed | Unknown | Resolved

  /** A turn of the thread: the wakes whose messages it holds, and whether it has ended. */
  datatype Turn = Turn(carries: set<Id>, ended: bool)

  /** `sent` lists the `turn/start` requests; `pending` those the server may still act on;
      `replies` the turns it named in answers that arrived; `soles` the turns a reading of the
      history found to be the only ones holding a wake's message. */
  datatype World = World(
    wakes: map<Id, Wake>,
    sent: seq<Id>,
    pending: set<Id>,
    turns: seq<Turn>,
    replies: set<(Id, nat)>,
    soles: set<(Id, nat)>)

  const QUIET := World(map[], [], {}, [], {}, {})

  datatype Outcome = AsCompleted | AsFailed | AsUnknown

  /** What a start does to the thread: opens a turn, or joins one that is running. */
  datatype Landing = NewTurn | Joins(turn: nat)

  datatype Effect = Refused | Dropped | Held | Accepted(landing: Landing, answered: bool)

  datatype Action =
    | Begin(id: Id)
    | MarkStarted(id: Id, turn: nat)
    | Finish(id: Id, outcome: Outcome)
    | Send(id: Id, effect: Effect)
    | Look(id: Id, from: nat, turn: nat)
    // The server and the people who use the thread.
    | Deliver(id: Id, landing: Landing)
    | Manual
    | End(turn: nat)
    | Copy(id: Id, turn: nat)
    | Resolve(id: Id)

  predicate Carried(w: World, id: Id) {
    exists t :: 0 <= t < |w.turns| && id in w.turns[t].carries
  }

  /** Among the turns from `from` on, this one alone holds the wake's message. */
  predicate Sole(w: World, id: Id, from: nat, turn: nat) {
    from <= turn < |w.turns| && forall t :: from <= t < |w.turns| ==> (id in w.turns[t].carries <==> t == turn)
  }

  predicate Lands(w: World, landing: Landing) {
    landing.Joins? ==> landing.turn < |w.turns| && !w.turns[landing.turn].ended
  }

  function LandedOn(w: World, landing: Landing): nat {
    if landing.NewTurn? then |w.turns| else landing.turn
  }

  function Land(w: World, id: Id, landing: Landing): World
    requires Lands(w, landing)
  {
    match landing
    case NewTurn => w.(turns := w.turns + [Turn({id}, false)])
    case Joins(t) => w.(turns := w.turns[t := w.turns[t].(carries := w.turns[t].carries + {id})])
  }

  /** A start of this wake has not been sent and may be. */
  predicate Unsent(w: World, id: Id) {
    id in w.wakes && (w.wakes[id] == Intent || w.wakes[id] == Resolved) && id !in w.sent
  }

  /** No turn was started for this wake and none will be. */
  predicate NeverStarted(w: World, id: Id) {
    !Carried(w, id) && id !in w.pending
  }

  /** What the waker must know before each thing it records or sends; the rest of the world
      does what it can do at any time. */
  predicate Enabled(w: World, a: Action) {
    match a
    case Begin(_) => true
    case MarkStarted(id, t) => t < |w.turns| && id in w.turns[t].carries && ((id, t) in w.replies || (id, t) in w.soles)
    case Finish(id, AsCompleted) =>
      id in w.wakes && w.wakes[id].Started? ==> w.wakes[id].turn < |w.turns| && w.turns[w.wakes[id].turn].ended
    case Finish(id, AsFailed) => NeverStarted(w, id)
    case Finish(_, AsUnknown) => true
    case Send(id, effect) => Unsent(w, id) && (effect.Accepted? ==> Lands(w, effect.landing))
    case Look(id, from, t) => Sole(w, id, from, t)
    case Deliver(id, landing) => id in w.pending && Lands(w, landing)
    case Manual => true
    case End(t) => t < |w.turns|
    case Copy(id, t) => Carried(w, id) && t < |w.turns|
    case Resolve(_) => true
  }

  /** The store's own checks: what each call may move a wake from. */
  function Moved(w: World, id: Id, outcome: Outcome): World {
    if id !in w.wakes then w
    else
      match (outcome, w.wakes[id])
      case (AsCompleted, Started(t)) => w.(wakes := w.wakes[id := Completed(t)])
      case (AsFailed, Intent) => w.(wakes := w.wakes[id := Failed])
      case (AsUnknown, Intent) => w.(wakes := w.wakes[id := Unknown])
      case (AsUnknown, Started(_)) => w.(wakes := w.wakes[id := Unknown])
      case _ => w
  }

  function Next(w: World, a: Action): World
    requires Enabled(w, a)
  {
    match a
    case Begin(id) => if id in w.wakes then w else w.(wakes := w.wakes[id := Intent])
    case MarkStarted(id, t) => if id in w.wakes && w.wakes[id] == Intent then w.(wakes := w.wakes[id := Started(t)]) else w
    case Finish(id, outcome) => Moved(w, id, outcome)
    case Send(id, effect) =>
      var v := w.(sent := w.sent + [id]);
      (match effect
       case Refused => v
       case Dropped => v
       case Held => v.(pending := v.pending + {id})
       case Accepted(landing, answered) =>
         Land(v, id, landing).(replies := if answered then v.replies + {(id, LandedOn(v, landing))} else v.replies))
    case Look(id, _, t) => w.(soles := w.soles + {(id, t)})
    case Deliver(id, landing) => Land(w.(pending := w.pending - {id}), id, landing)
    case Manual => w.(turns := w.turns + [Turn({}, false)])
    case End(t) => w.(turns := w.turns[t := w.turns[t].(ended := true)])
    case Copy(id, t) => w.(turns := w.turns[t := w.turns[t].(carries := w.turns[t].carries + {id})])
    case Resolve(id) =>
      if id in w.wakes && (w.wakes[id] == Intent || w.wakes[id].Started? || w.wakes[id] == Unknown)
      then w.(wakes := w.wakes[id := Resolved]) else w
  }

  // ---- What every step keeps ----

  ghost predicate SentOnce(w: World) {
    forall i, j :: 0 <= i < j < |w.sent| ==> w.sent[i] != w.sent[j]
  }

  ghost predicate SentRecorded(w: World) {
    (forall id :: id in w.sent ==> id in w.wakes)
    && (forall id :: id in w.pending ==> id in w.sent)
    && forall t, id :: 0 <= t < |w.turns| && id in w.turns[t].carries ==> id in w.sent
  }

  /** The turn of a started or completed wake holds its message; of a completed one it ended. */
  ghost predicate TurnRight(w: World, id: Id, t: nat) {
    t < |w.turns| && id in w.turns[t].carries && ((id, t) in w.replies || (id, t) in w.soles)
  }

  ghost predicate WakeRight(w: World, id: Id) {
    id in w.wakes
    && match w.wakes[id]
       case Started(t) => TurnRight(w, id, t)
       case Completed(t) => TurnRight(w, id, t) && w.turns[t].ended
       case Failed => NeverStarted(w, id)
       case _ => true
  }

  ghost predicate Inv(w: World) {
    SentOnce(w) && SentRecorded(w) && forall id :: id in w.wakes ==> WakeRight(w, id)
  }

  /** Nothing that matters is taken back. */
  ghost predicate Later(v: World, w: World) {
    v.sent <= w.sent && v.replies <= w.replies && v.soles <= w.soles
    && |v.turns| <= |w.turns|
    && (forall t :: 0 <= t < |v.turns| ==>
          v.turns[t].carries <= w.turns[t].carries && (v.turns[t].ended ==> w.turns[t].ended))
    && (forall id :: id in v.wakes ==> id in w.wakes && Follows(v.wakes[id], w.wakes[id]))
  }

  /** How a record may change. */
  predicate Follows(a: Wake, b: Wake) {
    a == b
    || (a == Intent)
    || (a.Started? && (b == Completed(a.turn) || b == Unknown || b == Resolved))
    || (a == Unknown && b == Resolved)
  }

  lemma LaterSelf(v: World)
    ensures Later(v, v)
  {
  }

  lemma LaterAgain(u: World, v: World, w: World)
    requires Later(u, v) && Later(v, w)
    ensures Later(u, w)
  {
    forall id | id in u.wakes ensures id in w.wakes && Follows(u.wakes[id], w.wakes[id]) {
      assert Follows(u.wakes[id], v.wakes[id]) && Follows(v.wakes[id], w.wakes[id]);
    }
    forall t | 0 <= t < |u.turns|
      ensures u.turns[t].carries <= w.turns[t].carries && (u.turns[t].ended ==> w.turns[t].ended)
    {
      assert u.turns[t].carries <= v.turns[t].carries <= w.turns[t].carries;
    }
  }

  /** A change of the thread that adds no message of a failed wake keeps every record right. */
  lemma TurnsKeep(v: World, w: World)
    requires Inv(v) && w.wakes == v.wakes && Later(v, w)
    requires forall id :: id in v.wakes && v.wakes[id] == Failed ==> NeverStarted(w, id)
    ensures forall id :: id in w.wakes ==> WakeRight(w, id)
  {
    forall id | id in w.wakes ensures WakeRight(w, id) {
      assert WakeRight(v, id);
    }
  }

  lemma LandKeeps(w: World, id: Id, landing: Landing)
    requires Inv(w) && Lands(w, landing) && id in w.sent && id in w.wakes && w.wakes[id] != Failed
    ensures Inv(Land(w, id, landing)) && Later(w, Land(w, id, landing))
    ensures LandedOn(w, landing) < |Land(w, id, landing).turns| && id in Land(w, id, landing).turns[LandedOn(w, landing)].carries
  {
    var v := Land(w, id, landing);
    forall x | x in w.wakes && w.wakes[x] == Failed ensures NeverStarted(v, x) {
      assert WakeRight(w, x);
    }
    TurnsKeep(w, v);
  }

  lemma SendKeeps(w: World, id: Id, effect: Effect)
    requires Inv(w) && Enabled(w, Send(id, effect))
    ensures Inv(Next(w, Send(id, effect))) && Later(w, Next(w, Send(id, effect)))
  {
    var v := w.(sent := w.sent + [id]);
    assert w.sent <= v.sent;
    TurnsKeep(w, v) by {
      forall x | x in w.wakes && w.wakes[x] == Failed ensures NeverStarted(v, x) {
        assert WakeRight(w, x);
      }
    }
    assert Inv(v);
    match effect
    case Refused =>
    case Dropped =>
    case Held =>
      var u := v.(pending := v.pending + {id});
      TurnsKeep(v, u) by {
        forall x | x in v.wakes && v.wakes[x] == Failed ensures NeverStarted(u, x) {
          assert WakeRight(v, x);
        }
      }
    case Accepted(landing, answered) =>
      LandKeeps(v, id, landing);
      var u := Land(v, id, landing);
      LaterAgain(w, v, u);
      var x := u.(replies := u.replies + {(id, LandedOn(v, landing))});
      TurnsKeep(u, x) by {
        forall y | y in u.wakes && u.wakes[y] == Failed ensures NeverStarted(x, y) {
          assert WakeRight(u, y);
        }
      }
      LaterAgain(w, u, x);
  }

  lemma ThreadKeeps(w: World, a: Action)
    requires Inv(w) && Enabled(w, a) && (a.Look? || a.Deliver? || a.Manual? || a.End? || a.Copy?)
    ensures Inv(Next(w, a)) && Later(w, Next(w, a))
  {
    var v := Next(w, a);
    if a.Deliver? {
      var u := w.(pending := w.pending - {a.id});
      assert WakeRight(w, a.id);
      TurnsKeep(w, u) by {
        forall x | x in w.wakes && w.wakes[x] == Failed ensures NeverStarted(u, x) {
          assert WakeRight(w, x);
        }
      }
      LandKeeps(u, a.id, a.landing);
      LaterAgain(w, u, v);
    } else {
      forall x | x in w.wakes && w.wakes[x] == Failed ensures NeverStarted(v, x) {
        assert WakeRight(w, x);
      }
      TurnsKeep(w, v);
    }
  }

  lemma RecordsKeep(w: World, a: Action)
    requires Inv(w) && Enabled(w, a) && (a.Begin? || a.MarkStarted? || a.Finish? || a.Resolve?)
    ensures Inv(Next(w, a)) && Later(w, Next(w, a))
  {
    LaterSelf(w);
    if a.id in w.wakes {
      assert WakeRight(w, a.id);
    }
  }

  lemma NextKeeps(w: World, a: Action)
    requires Inv(w) && Enabled(w, a)
    ensures Inv(Next(w, a)) && Later(w, Next(w, a))
  {
    hide Inv, Later, Next, Enabled;
    match a
    case Send(id, effect) => SendKeeps(w, id, effect);
    case Begin(_) => RecordsKeep(w, a);
    case MarkStarted(_, _) => RecordsKeep(w, a);
    case Finish(_, _) => RecordsKeep(w, a);
    case Resolve(_) => RecordsKeep(w, a);
    case _ => ThreadKeeps(w, a);
  }

  // ---- Runs ----

  ghost predicate StepAt(run: seq<World>, i: nat) {
    i + 1 < |run| && exists a :: Enabled(run[i], a) && run[i + 1] == Next(run[i], a)
  }

  ghost predicate IsRun(run: seq<World>) {
    run != [] && run[0] == QUIET && forall i: nat :: i + 1 < |run| ==> StepAt(run, i)
  }

  lemma {:induction false} RunInv(run: seq<World>, i: nat)
    requires IsRun(run) && i < |run|
    ensures Inv(run[i])
  {
    if i > 0 {
      RunInv(run, i - 1);
      assert StepAt(run, i - 1);
      var a :| Enabled(run[i - 1], a) && run[i] == Next(run[i - 1], a);
      NextKeeps(run[i - 1], a);
    }
  }

  lemma {:induction false} RunLater(run: seq<World>, i: nat, j: nat)
    requires IsRun(run) && i <= j < |run|
    ensures Later(run[i], run[j])
  {
    hide Inv, Later, Next, Enabled;
    LaterSelf(run[i]);
    if i < j {
      RunLater(run, i, j - 1);
      RunInv(run, j - 1);
      assert StepAt(run, j - 1);
      var a :| Enabled(run[j - 1], a) && run[j] == Next(run[j - 1], a);
      NextKeeps(run[j - 1], a);
      LaterAgain(run[i], run[j - 1], run[j]);
    }
  }

  /** A start is sent at most once per wake, and only for a recorded wake. */
  lemma StartsOnce(run: seq<World>, i: nat)
    requires IsRun(run) && i < |run|
    ensures SentOnce(run[i]) && forall id :: id in run[i].sent ==> id in run[i].wakes
  {
    RunInv(run, i);
  }

  /** The intent was there before the start: the step that sends finds the wake recorded. */
  lemma IntentFirst(run: seq<World>, i: nat, id: Id)
    requires IsRun(run) && i + 1 < |run| && id in run[i + 1].sent && id !in run[i].sent
    ensures id in run[i].wakes && (run[i].wakes[id] == Intent || run[i].wakes[id] == Resolved)
  {
    assert StepAt(run, i);
    var a :| Enabled(run[i], a) && run[i + 1] == Next(run[i], a);
  }

  /** Once completed is recorded the turn followed for the wake has ended and holds its
      message, and the record never changes again. */
  lemma CompletedHasEnded(run: seq<World>, i: nat, j: nat, id: Id)
    requires IsRun(run) && i <= j < |run| && id in run[i].wakes && run[i].wakes[id].Completed?
    ensures id in run[j].wakes && run[j].wakes[id] == run[i].wakes[id]
    ensures var t := run[i].wakes[id].turn;
            t < |run[i].turns| && run[i].turns[t].ended && id in run[i].turns[t].carries
  {
    RunInv(run, i);
    RunLater(run, i, j);
    assert WakeRight(run[i], id);
    assert Follows(run[i].wakes[id], run[j].wakes[id]);
  }

  /** Of a failed wake no turn was started, before or after, whatever happens later. */
  lemma FailedNeverStarts(run: seq<World>, i: nat, j: nat, id: Id)
    requires IsRun(run) && i < |run| && j < |run| && id in run[i].wakes && run[i].wakes[id] == Failed
    ensures !Carried(run[j], id)
  {
    RunInv(run, i);
    assert WakeRight(run[i], id);
    if i <= j {
      RunLater(run, i, j);
      RunInv(run, j);
      assert Follows(run[i].wakes[id], run[j].wakes[id]);
      assert WakeRight(run[j], id);
    } else {
      RunLater(run, j, i);
      forall t | 0 <= t < |run[j].turns| ensures id !in run[j].turns[t].carries {
        assert run[j].turns[t].carries <= run[i].turns[t].carries;
      }
    }
  }

  /** A wake counts as started only when the server named the turn in its answer, or at some
      moment exactly one of the turns listed held the wake's message. */
  lemma {:induction false} StartedOnEvidence(run: seq<World>, j: nat, id: Id)
    requires IsRun(run) && j < |run| && id in run[j].wakes && (run[j].wakes[id].Started? || run[j].wakes[id].Completed?)
    ensures (id, run[j].wakes[id].turn) in run[j].replies
            || exists i: nat, from: nat :: i < j && Sole(run[i], id, from, run[j].wakes[id].turn)
  {
    RunInv(run, j);
    assert WakeRight(run[j], id);
    if (id, run[j].wakes[id].turn) in run[j].soles {
      SoleSeen(run, j, id, run[j].wakes[id].turn);
    }
  }

  lemma {:induction false} SoleSeen(run: seq<World>, j: nat, id: Id, t: nat)
    requires IsRun(run) && j < |run| && (id, t) in run[j].soles
    ensures exists i: nat, from: nat :: i < j && Sole(run[i], id, from, t)
  {
    assert j > 0;
    assert StepAt(run, j - 1);
    var a :| Enabled(run[j - 1], a) && run[j] == Next(run[j - 1], a);
    if (id, t) in run[j - 1].soles {
      SoleSeen(run, j - 1, id, t);
    } else {
      assert a.Look? && Sole(run[j - 1], id, a.from, t);
    }
  }
}
