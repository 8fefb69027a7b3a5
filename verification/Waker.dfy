/** The waker: it records an intent, starts a turn, follows it to its end, and settles from the
    thread's history whatever a lost reply or a crash left open. */
module Wakers {

  import opened Wrappers
  import opened Wakes

  const MAX_PAGES: nat := 50
  const TURN_PAGE: nat := 20

  datatype Fate = Arrived | LostBefore | LostAfter

  datatype BeginAnswer = Begun | Busy | NotNow | BeginLost

  datatype StartAnswer = Named(turn: nat) | NoTurnNamed | RpcError | ReplyLost

  /** A turn as the server lists it; a status that cannot be read is none. */
  datatype View = View(turn: nat, carries: set<Id>, status: Option<string>)

  /** A `turn/completed` notification, of any thread. */
  datatype Note = Note(thread: string, turn: Option<nat>, status: string)

  // ---- Reading the thread ----

  /** Only a status the server reports, other than inProgress, ends a turn. */
  predicate TurnEnded(v: View) {
    v.status.Some? && v.status.value != "" && v.status.value != "inProgress"
  }

  function TurnsForWake(vs: seq<View>, id: Id): seq<View> {
    if vs == [] then []
    else (if id in vs[0].carries then [vs[0]] else []) + TurnsForWake(vs[1..], id)
  }

  function Find(vs: seq<View>, turn: nat): Option<View> {
    if vs == [] then None else if vs[0].turn == turn then Some(vs[0]) else Find(vs[1..], turn)
  }

  /** Newest first, every turn from `from` to the newest, as it is in `w`. */
  ghost predicate Listing(w: World, vs: seq<View>, from: nat) {
    from <= |w.turns| && |vs| == |w.turns| - from
    && forall i :: 0 <= i < |vs| ==> TrueView(w, vs[i]) && vs[i].turn == |w.turns| - 1 - i
  }

  predicate TrueView(w: World, v: View) {
    v.turn < |w.turns| && v.carries == w.turns[v.turn].carries && (TurnEnded(v) ==> w.turns[v.turn].ended)
  }

  lemma {:induction false} FoundCarry(vs: seq<View>, id: Id)
    ensures forall v :: v in TurnsForWake(vs, id) <==> v in vs && id in v.carries
    ensures TurnsForWake(vs, id) == [] <==> forall i :: 0 <= i < |vs| ==> id !in vs[i].carries
  {
    if vs != [] {
      FoundCarry(vs[1..], id);
    }
  }

  /** One match in the listing is the only turn of the listing with the message. */
  lemma {:induction false} OneIsSole(vs: seq<View>, id: Id)
    requires |TurnsForWake(vs, id)| == 1
    ensures exists i :: 0 <= i < |vs| && vs[i] == TurnsForWake(vs, id)[0]
                        && forall j :: 0 <= j < |vs| ==> (id in vs[j].carries <==> j == i)
  {
    FoundCarry(vs[1..], id);
    if id in vs[0].carries {
      assert TurnsForWake(vs[1..], id) == [];
      assert forall j :: 1 <= j < |vs| ==> vs[j] == vs[1..][j - 1];
      assert vs[0] == TurnsForWake(vs, id)[0];
    } else {
      OneIsSole(vs[1..], id);
      var i :| 0 <= i < |vs[1..]| && vs[1..][i] == TurnsForWake(vs, id)[0]
               && forall j :: 0 <= j < |vs[1..]| ==> (id in vs[1..][j].carries <==> j == i);
      assert vs[i + 1] == vs[1..][i];
      forall j | 0 <= j < |vs| ensures id in vs[j].carries <==> j == i + 1 {
        if j > 0 {
          assert vs[j] == vs[1..][j - 1];
        }
      }
    }
  }

  lemma SoleListed(w: World, vs: seq<View>, from: nat, id: Id)
    requires Listing(w, vs, from) && |TurnsForWake(vs, id)| == 1
    ensures var v := TurnsForWake(vs, id)[0];
            TrueView(w, v) && Sole(w, id, from, v.turn)
  {
    OneIsSole(vs, id);
    var i :| 0 <= i < |vs| && vs[i] == TurnsForWake(vs, id)[0]
             && forall j :: 0 <= j < |vs| ==> (id in vs[j].carries <==> j == i);
    forall t | from <= t < |w.turns| ensures id in w.turns[t].carries <==> t == vs[i].turn {
      var j := |w.turns| - 1 - t;
      assert TrueView(w, vs[j]) && vs[j].turn == t;
    }
  }

  lemma {:induction false} FindsOwn(vs: seq<View>, turn: nat)
    ensures Find(vs, turn).Some? ==> Find(vs, turn).value in vs && Find(vs, turn).value.turn == turn
  {
    if vs != [] {
      FindsOwn(vs[1..], turn);
    }
  }

  // ---- What stays true while the others act ----

  /** The others send nothing for the waker, resolve records and let held starts land. */
  ghost predicate Beside(v: World, w: World) {
    w.sent == v.sent && w.pending <= v.pending && w.replies == v.replies && w.soles == v.soles
    && w.wakes.Keys == v.wakes.Keys
    && (forall id :: id in v.wakes ==> w.wakes[id] == v.wakes[id] || w.wakes[id] == Resolved)
    && (forall id :: Carried(w, id) ==> Carried(v, id) || id in v.pending)
  }

  lemma BesideSelf(w: World)
    ensures Beside(w, w)
  {
  }

  lemma BesideSent(v: World, w: World)
    requires Beside(v, w)
    ensures w.sent == v.sent
  {
  }

  lemma BesideStep(u: World, v: World, a: Action)
    requires Beside(u, v) && Enabled(v, a) && (a.Deliver? || a.Manual? || a.End? || a.Copy? || a.Resolve?)
    ensures Beside(u, Next(v, a))
  {
    var w := Next(v, a);
    forall id | Carried(w, id) ensures Carried(u, id) || id in u.pending {
      var t :| 0 <= t < |w.turns| && id in w.turns[t].carries;
      assert Carried(v, id) || (a.Deliver? && a.id == id) by {
        if t < |v.turns| && id in v.turns[t].carries {
          assert Carried(v, id);
        }
      }
    }
  }

  lemma FreshIsUnsent(w: World, id: Id)
    requires Inv(w) && id !in w.wakes
    ensures var v := Next(w, Begin(id));
            Unsent(v, id) && NeverStarted(v, id)
  {
  }

  lemma UnsentIsClean(w: World, id: Id)
    requires Inv(w) && Unsent(w, id)
    ensures NeverStarted(w, id)
  {
  }

  /** Only this wake's record was written, or begun; any other may have been resolved. */
  ghost predicate Touches(v: World, w: World, id: Id) {
    (forall x :: x in w.wakes ==> x in v.wakes || x == id)
    && forall x :: x in v.wakes && x != id ==> x in w.wakes && (w.wakes[x] == v.wakes[x] || w.wakes[x] == Resolved)
  }

  lemma TouchesAgain(u: World, v: World, w: World, id: Id)
    requires Touches(u, v, id) && Touches(v, w, id)
    ensures Touches(u, w, id)
  {
  }

  lemma BesideTouches(v: World, w: World, id: Id)
    requires Beside(v, w)
    ensures Touches(v, w, id)
    ensures NotStarted(v, id) ==> NotStarted(w, id)
  {
  }

  ghost predicate NotStarted(w: World, id: Id) {
    id in w.wakes ==> !w.wakes[id].Started?
  }

  /** The record is not left in intent or started. */
  ghost predicate Settled(w: World, id: Id) {
    id in w.wakes ==> !w.wakes[id].Intent? && !w.wakes[id].Started?
  }

  ghost predicate AllSettled(w: World) {
    forall id :: id in w.wakes ==> Settled(w, id)
  }

  lemma SettledStays(v: World, w: World, id: Id)
    requires AllSettled(v) && Touches(v, w, id) && Settled(w, id)
    ensures AllSettled(w)
  {
    forall x | x in w.wakes ensures Settled(w, x) {
      if x != id {
        assert Settled(v, x);
      }
    }
  }

  /** What a recorded outcome leaves behind. */
  ghost predicate Recorded(w: World, id: Id, outcome: Outcome) {
    id in w.wakes ==>
      match outcome
      case AsCompleted => !w.wakes[id].Started?
      case AsFailed => !w.wakes[id].Intent?
      case AsUnknown => !w.wakes[id].Intent? && !w.wakes[id].Started?
  }

  /** What a recorded outcome makes of the wake: its record moves as the store allows, or has been
      resolved meanwhile. */
  ghost predicate FinishedAs(v: World, w: World, id: Id, outcome: Outcome) {
    id in v.wakes ==>
      && id in w.wakes
      && (w.wakes[id] == Resolved
          || w.wakes[id] == match (outcome, v.wakes[id])
                            case (AsCompleted, Started(t)) => Completed(t)
                            case (AsFailed, Intent) => Failed
                            case (AsUnknown, Intent) => Unknown
                            case (AsUnknown, Started(_)) => Unknown
                            case (_, was) => was)
  }

  lemma FinishedAfter(u: World, v: World, w: World, id: Id, outcome: Outcome)
    requires Beside(u, v) && FinishedAs(v, w, id, outcome)
    ensures FinishedAs(u, w, id, outcome)
  {
  }

  // ---- What is asked for a wake, call by call ----

  datatype Call =
    | Session(ok: bool)
    | StartCall(id: Id, answer: StartAnswer)
    | MarkCall(id: Id, turn: nat, was: Option<bool>)
    | FinishCall(id: Id, outcome: Outcome, ok: bool)
    | Looked(views: Option<seq<View>>)
    | Heard(note: Note)
    | Link(closed: bool)

  /** Why the notifications are no longer listened to. */
  datatype Heed = TurnOver | LinkOver | Stopping | TimeOver

  /** The last calls of such a wait. */
  function HeedCalls(heed: Heed, note: Note): seq<Call> {
    match heed
    case TurnOver => [Heard(note)]
    case LinkOver => [Heard(note), Link(true)]
    case _ => []
  }

  predicate About(note: Note, thread: string, turn: nat) {
    note.thread == thread && note.turn == Some(turn)
  }

  /** What a look at the history says of the turn: a turn that is not listed is lost, one that ended
      is completed, and anything else says nothing yet. */
  function Judged(views: Option<seq<View>>, turn: nat): Option<Outcome> {
    if views.None? then None
    else
      match Find(views.value, turn)
      case None => Some(AsUnknown)
      case Some(v) => if TurnEnded(v) then Some(AsCompleted) else None
  }

  predicate LookBlock(cs: seq<Call>, id: Id, turn: nat, done: bool) {
    cs != [] && cs[0].Looked?
    && match Judged(cs[0].views, turn)
       case None => |cs| == 1 && !done
       case Some(outcome) => cs[1..] == [FinishCall(id, outcome, done)]
  }

  /** Looks that settled nothing. */
  predicate Looks(cs: seq<Call>, id: Id, turn: nat)
    decreases |cs|
  {
    cs == []
    || (LookBlock(cs[|cs| - 1..], id, turn, false) && Looks(cs[..|cs| - 1], id, turn))
    || (|cs| >= 2 && LookBlock(cs[|cs| - 2..], id, turn, false) && Looks(cs[..|cs| - 2], id, turn))
  }

  /** A turn followed: looked at until a look settles it, the waker stops or, after a last look, the
      time is over. */
  predicate FollowCalls(cs: seq<Call>, id: Id, turn: nat, ok: bool, stopped: bool) {
    || (ok && stopped && cs != [] && Looks(cs, id, turn))
    || (ok && |cs| >= 2 && LookBlock(cs[|cs| - 2..], id, turn, true) && Looks(cs[..|cs| - 2], id, turn))
    || (!stopped && |cs| >= 2 && cs[|cs| - 1] == FinishCall(id, AsUnknown, ok) && Looks(cs[..|cs| - 1], id, turn))
  }

  lemma NoLooks(id: Id, turn: nat)
    ensures Looks([], id, turn)
  {
  }

  lemma LooksOn(cs: seq<Call>, block: seq<Call>, id: Id, turn: nat, done: bool, stopped: bool)
    requires Looks(cs, id, turn) && LookBlock(block, id, turn, done)
    ensures cs + block != []
    ensures if done then FollowCalls(cs + block, id, turn, true, stopped) else Looks(cs + block, id, turn)
  {
    hide Judged;
    var more := cs + block;
    if |block| == 1 {
      assert more[|more| - 1..] == block && more[..|more| - 1] == cs;
    } else {
      assert more[|more| - 2..] == block && more[..|more| - 2] == cs;
    }
  }

  lemma StoppedLooking(cs: seq<Call>, id: Id, turn: nat)
    requires Looks(cs, id, turn) && cs != []
    ensures FollowCalls(cs, id, turn, true, true)
  {
  }

  lemma GivenUp(cs: seq<Call>, id: Id, turn: nat, ok: bool)
    requires Looks(cs, id, turn) && cs != []
    ensures FollowCalls(cs + [FinishCall(id, AsUnknown, ok)], id, turn, ok, false)
  {
    var more := cs + [FinishCall(id, AsUnknown, ok)];
    assert more[..|more| - 1] == cs;
  }

  lemma SaidOn(a: seq<Call>, b: seq<Call>, c: seq<Call>, said: seq<Call>)
    requires a <= b <= c && b[|a|..] + c[|b|..] == said
    ensures a <= c && c == a + said && c[|a|..] == said
  {
  }

  /** A turn that is known to have ended is completed, any other followed. */
  predicate ConcludeCalls(cs: seq<Call>, id: Id, turn: nat, ended: bool, ok: bool, stopped: bool) {
    if ended then cs == [FinishCall(id, AsCompleted, ok)] else FollowCalls(cs, id, turn, ok, stopped)
  }

  /** Notifications, none of them of this turn's end, and the connection still open after each. */
  predicate Quiet(cs: seq<Call>, thread: string, turn: nat)
    decreases |cs|
  {
    cs == []
    || (|cs| >= 2 && cs[|cs| - 2].Heard? && !About(cs[|cs| - 2].note, thread, turn) && cs[|cs| - 1] == Link(false)
        && Quiet(cs[..|cs| - 2], thread, turn))
  }

  /** A turn awaited: completed by the first notification of its end, followed when the connection
      closes, and otherwise, unless the waker stops, given up when the time is over. */
  predicate AwaitCalls(cs: seq<Call>, thread: string, id: Id, turn: nat, ok: bool, stopped: bool) {
    if cs == [] then ok && stopped
    else if cs[0].Heard? then
      if About(cs[0].note, thread, turn) then cs[1..] == [FinishCall(id, AsCompleted, ok)]
      else
        && |cs| >= 2 && cs[1].Link?
        && if cs[1].closed then FollowCalls(cs[2..], id, turn, ok, stopped)
           else AwaitCalls(cs[2..], thread, id, turn, ok, stopped)
    else !stopped && cs == [FinishCall(id, AsUnknown, ok)]
  }

  lemma AwaitsOneMore(last: seq<Call>, cs: seq<Call>, thread: string, id: Id, turn: nat, ok: bool, stopped: bool)
    requires |last| == 2 && last[0].Heard? && !About(last[0].note, thread, turn) && last[1] == Link(false)
    requires AwaitCalls(cs, thread, id, turn, ok, stopped)
    ensures AwaitCalls(last + cs, thread, id, turn, ok, stopped)
  {
    hide About, FollowCalls;
    assert (last + cs)[2..] == cs;
  }

  lemma {:induction false} AwaitsAfter(quiet: seq<Call>, cs: seq<Call>, thread: string, id: Id, turn: nat,
                                       ok: bool, stopped: bool)
    requires Quiet(quiet, thread, turn) && AwaitCalls(cs, thread, id, turn, ok, stopped)
    ensures AwaitCalls(quiet + cs, thread, id, turn, ok, stopped)
    decreases |quiet|
  {
    hide About, FollowCalls;
    if quiet == [] {
      assert quiet + cs == cs;
    } else {
      var init, last := quiet[..|quiet| - 2], quiet[|quiet| - 2..];
      AwaitsOneMore(last, cs, thread, id, turn, ok, stopped);
      hide AwaitCalls;
      AwaitsAfter(init, last + cs, thread, id, turn, ok, stopped);
      assert init + (last + cs) == quiet + cs;
    }
  }

  lemma AllQuiet(thread: string, turn: nat)
    ensures Quiet([], thread, turn)
  {
  }

  lemma QuietOn(quiet: seq<Call>, note: Note, thread: string, turn: nat)
    requires Quiet(quiet, thread, turn) && !About(note, thread, turn)
    ensures Quiet(quiet + [Heard(note), Link(false)], thread, turn)
  {
    var more := quiet + [Heard(note), Link(false)];
    assert more[..|more| - 2] == quiet;
  }

  /** The notification that ends the wait, or the one before the connection closed. */
  lemma AwaitConcluded(quiet: seq<Call>, note: Note, rest: seq<Call>, thread: string, id: Id, turn: nat,
                       ok: bool, stopped: bool)
    returns (all: seq<Call>)
    requires Quiet(quiet, thread, turn) && ConcludeCalls(rest, id, turn, About(note, thread, turn), ok, stopped)
    ensures all == quiet + HeedCalls(if About(note, thread, turn) then TurnOver else LinkOver, note) + rest
    ensures AwaitCalls(all, thread, id, turn, ok, stopped)
  {
    var closing := HeedCalls(if About(note, thread, turn) then TurnOver else LinkOver, note);
    WaitEnds(note, rest, thread, id, turn, ok, stopped);
    hide AwaitCalls, ConcludeCalls, Quiet, About;
    AwaitsAfter(quiet, closing + rest, thread, id, turn, ok, stopped);
    all := quiet + (closing + rest);
  }

  lemma WaitEnds(note: Note, rest: seq<Call>, thread: string, id: Id, turn: nat, ok: bool, stopped: bool)
    requires ConcludeCalls(rest, id, turn, About(note, thread, turn), ok, stopped)
    ensures AwaitCalls(HeedCalls(if About(note, thread, turn) then TurnOver else LinkOver, note) + rest,
                       thread, id, turn, ok, stopped)
  {
    hide FollowCalls, About;
    if About(note, thread, turn) {
      assert ([Heard(note)] + rest)[1..] == rest;
    } else {
      assert ([Heard(note), Link(true)] + rest)[2..] == rest;
    }
  }

  lemma AwaitOver(quiet: seq<Call>, thread: string, id: Id, turn: nat)
    requires Quiet(quiet, thread, turn)
    ensures AwaitCalls(quiet, thread, id, turn, true, true)
    ensures forall ok: bool :: AwaitCalls(quiet + [FinishCall(id, AsUnknown, ok)], thread, id, turn, ok, false)
  {
    AwaitsAfter(quiet, [], thread, id, turn, true, true);
    assert quiet + [] == quiet;
    forall ok: bool
      ensures AwaitCalls(quiet + [FinishCall(id, AsUnknown, ok)], thread, id, turn, ok, false)
    {
      AwaitsAfter(quiet, [FinishCall(id, AsUnknown, ok)], thread, id, turn, ok, false);
    }
  }

  /** A turn recorded as the wake's is awaited; a wake that is no longer an intent is left alone. */
  predicate StartedCalls(cs: seq<Call>, thread: string, id: Id, turn: nat, ok: bool, stopped: bool) {
    cs != [] && cs[0].MarkCall? && cs[0].id == id && cs[0].turn == turn
    && match cs[0].was
       case None => cs[1..] == [] && !ok
       case Some(intent) => if intent then AwaitCalls(cs[1..], thread, id, turn, ok, stopped) else cs[1..] == [] && ok
  }

  /** The same for a turn found in the history, which may have ended already. */
  predicate MarkedCalls(cs: seq<Call>, id: Id, turn: nat, ended: bool, ok: bool, stopped: bool) {
    cs != [] && cs[0].MarkCall? && cs[0].id == id && cs[0].turn == turn
    && match cs[0].was
       case None => cs[1..] == [] && !ok
       case Some(intent) =>
         if intent then ConcludeCalls(cs[1..], id, turn, ended, ok, stopped) else cs[1..] == [] && ok
  }

  /** A wake settled from the history: one look, and only a sole match is taken for its turn. */
  predicate SettleCalls(cs: seq<Call>, id: Id, ok: bool, stopped: bool) {
    cs != [] && cs[0].Looked?
    && var found := if cs[0].views.Some? then TurnsForWake(cs[0].views.value, id) else [];
       if |found| == 1 then MarkedCalls(cs[1..], id, found[0].turn, TurnEnded(found[0]), ok, stopped)
       else cs[1..] == [FinishCall(id, AsUnknown, ok)]
  }

  lemma SettledUnknown(views: Option<seq<View>>, id: Id, ok: bool, stopped: bool)
    requires views.None? || |TurnsForWake(views.value, id)| != 1
    ensures SettleCalls([Looked(views), FinishCall(id, AsUnknown, ok)], id, ok, stopped)
  {
    hide TurnsForWake;
  }

  lemma SettledFound(views: Option<seq<View>>, rest: seq<Call>, id: Id, ok: bool, stopped: bool)
    requires views.Some? && |TurnsForWake(views.value, id)| == 1
    requires var view := TurnsForWake(views.value, id)[0];
             MarkedCalls(rest, id, view.turn, TurnEnded(view), ok, stopped)
    ensures SettleCalls([Looked(views)] + rest, id, ok, stopped)
  {
    hide TurnsForWake, MarkedCalls;
    assert ([Looked(views)] + rest)[1..] == rest;
  }

  /** A start: sent once if there is a session, and recorded as failed only when there is none or it
      was answered with an error. */
  predicate RunCalls(cs: seq<Call>, thread: string, id: Id, ok: bool, stopped: bool) {
    cs != [] && cs[0].Session?
    && if cs[0].ok then StartCalls(cs[1..], thread, id, ok, stopped) else cs[1..] == [FinishCall(id, AsFailed, ok)]
  }

  predicate StartCalls(cs: seq<Call>, thread: string, id: Id, ok: bool, stopped: bool) {
    cs != [] && cs[0].StartCall? && cs[0].id == id
    && match cs[0].answer
       case RpcError => cs[1..] == [FinishCall(id, AsFailed, ok)]
       case Named(turn) => StartedCalls(cs[1..], thread, id, turn, ok, stopped)
       case _ => SettleCalls(cs[1..], id, ok, stopped)
  }

  /** The wake was not recorded as failed in between. */
  ghost predicate NotFailed(v: World, w: World, id: Id) {
    id in w.wakes && w.wakes[id].Failed? ==> id in v.wakes && v.wakes[id].Failed?
  }

  lemma BesideNotFailed(v: World, w: World)
    requires Beside(v, w)
    ensures forall id :: NotFailed(v, w, id)
  {
  }

  lemma OnAgain(u: World, v: World, w: World, id: Id)
    requires Later(u, v) && Touches(u, v, id) && NotFailed(u, v, id)
    requires Later(v, w) && Touches(v, w, id) && NotFailed(v, w, id)
    ensures Later(u, w) && Touches(u, w, id) && NotFailed(u, w, id)
  {
    LaterAgain(u, v, w);
    TouchesAgain(u, v, w, id);
  }

  lemma NotFailedSelf(w: World, id: Id)
    ensures NotFailed(w, w, id)
  {
  }

  lemma NotFailedAgain(u: World, v: World, w: World, id: Id)
    requires NotFailed(u, v, id) && NotFailed(v, w, id)
    ensures NotFailed(u, w, id)
  {
  }

  /** A wake recorded as completed has a turn, and the turn has ended. */
  ghost predicate EndedIfCompleted(w: World, id: Id) {
    id in w.wakes && w.wakes[id].Completed? ==>
      w.wakes[id].turn < |w.turns| && w.turns[w.wakes[id].turn].ended && id in w.turns[w.wakes[id].turn].carries
  }

  lemma InvEnds(w: World, id: Id)
    requires Inv(w)
    ensures EndedIfCompleted(w, id)
  {
    if id in w.wakes { assert WakeRight(w, id); }
  }

  lemma FinishRecords(w: World, id: Id, outcome: Outcome)
    requires Enabled(w, Finish(id, outcome))
    ensures Recorded(Next(w, Finish(id, outcome)), id, outcome)
    ensures FinishedAs(w, Next(w, Finish(id, outcome)), id, outcome)
    ensures NotStarted(w, id) ==> NotStarted(Next(w, Finish(id, outcome)), id)
  {
  }

  ghost predicate Evidence(w: World, id: Id, turn: nat) {
    Enabled(w, MarkStarted(id, turn))
  }

  lemma EvidenceStays(v: World, w: World, id: Id, turn: nat)
    requires Later(v, w) && Evidence(v, id, turn)
    ensures Evidence(w, id, turn)
  {
    assert v.turns[turn].carries <= w.turns[turn].carries;
  }

  /** What must be known before an outcome is recorded. */
  ghost predicate Finishable(w: World, id: Id, outcome: Outcome) {
    Enabled(w, Finish(id, outcome))
  }

  lemma FinishableStays(v: World, w: World, id: Id, outcome: Outcome)
    requires Later(v, w) && Beside(v, w) && Finishable(v, id, outcome)
    ensures Finishable(w, id, outcome)
  {
  }

  /** The wake was recorded as started in this turn, whatever became of it since. */
  ghost predicate StartedAs(w: World, id: Id, turn: nat) {
    id in w.wakes && Follows(Started(turn), w.wakes[id])
  }

  lemma StartedStays(v: World, w: World, id: Id, turn: nat)
    requires Later(v, w) && StartedAs(v, id, turn)
    ensures StartedAs(w, id, turn)
  {
    assert Follows(v.wakes[id], w.wakes[id]);
  }

  lemma Extends(run: seq<World>, a: Action)
    requires IsRun(run) && Enabled(run[|run| - 1], a)
    ensures IsRun(run + [Next(run[|run| - 1], a)])
  {
    var longer := run + [Next(run[|run| - 1], a)];
    forall i: nat | i + 1 < |longer| ensures StepAt(longer, i) {
      if i + 1 < |run| {
        assert StepAt(run, i);
        var b :| Enabled(run[i], b) && run[i + 1] == Next(run[i], b);
        assert longer[i] == run[i] && longer[i + 1] == run[i + 1];
      } else {
        assert longer[i] == run[i];
      }
    }
  }

  // ---- The store and the server ----

  class Plane {
    const thread: string
    /** When each turn started; a later turn did not start before an earlier one. */
    const startedAt: nat -> int
    var world: World
    ghost var run: seq<World>
    ghost var looks: nat  // how often the history was asked for
    ghost var calls: seq<Call>  // what was asked for a wake, and the answers
    ghost var pages: nat  // how many pages of the history were asked for
    ghost var unread: nat  // how many of them could not be read
    ghost var asked: seq<(Id, BeginAnswer)>  // the wakes asked for, and what came of each
    ghost var lost: nat   // how many calls of the store have had no answer

    constructor (thread: string, startedAt: nat -> int)
      requires forall i: nat, j: nat :: i <= j ==> startedAt(i) <= startedAt(j)
      ensures this.thread == thread && this.startedAt == startedAt && world == QUIET && Valid()
    {
      this.thread, this.startedAt, world, run := thread, startedAt, QUIET, [QUIET];
      looks, asked, lost, calls, pages, unread := 0, [], 0, [], 0, 0;
    }

    ghost predicate Valid()
      reads this
    {
      IsRun(run) && run[|run| - 1] == world && Inv(world)
      && forall i: nat, j: nat :: i <= j ==> startedAt(i) <= startedAt(j)
    }

    method Do(a: Action)
      requires Valid() && Enabled(world, a)
      modifies this
      ensures Valid() && world == Next(old(world), a) && old(run) <= run && Later(old(world), world)
      ensures looks == old(looks)
      ensures lost == old(lost) && asked == old(asked)
      ensures calls == old(calls) && pages == old(pages) && unread == old(unread)
    {
      NextKeeps(world, a);
      Extends(run, a);
      hide IsRun, Inv, Later;
      world := Next(world, a);
      run := run + [world];
    }

    /** The server, the people who use the thread and the operator. */
    method Others()
      requires Valid()
      modifies this
      ensures Valid() && old(run) <= run && Later(old(world), world)
      ensures Beside(old(world), world)
      ensures looks == old(looks)
      ensures lost == old(lost) && asked == old(asked)
      ensures calls == old(calls) && pages == old(pages) && unread == old(unread)
    {
      hide IsRun, Inv, Later, Enabled, Next, Beside;
      var n: nat := *;
      LaterSelf(world);
      BesideSelf(world);
      while n > 0
        invariant Valid() && old(run) <= run && Later(old(world), world) && Beside(old(world), world)
        invariant calls == old(calls) && pages == old(pages) && unread == old(unread)
        invariant looks == old(looks) && lost == old(lost) && asked == old(asked)
      {
        var a: Action := *;
        if Enabled(world, a) && (a.Deliver? || a.Manual? || a.End? || a.Copy? || a.Resolve?) {
          ghost var before := world;
          Do(a);
          LaterAgain(old(world), before, world);
          BesideStep(old(world), before, a);
        }
        n := n - 1;
      }
    }

    method WakeBegin(id: Id) returns (answer: BeginAnswer)
      requires Valid()
      modifies this
      ensures Valid() && old(run) <= run && Later(old(world), world)
      ensures Touches(old(world), world, id)
      ensures answer == Begun ==> Unsent(world, id) && NeverStarted(world, id) && id !in old(world).wakes
      ensures answer == Busy || answer == NotNow ==> world.wakes.Keys == old(world).wakes.Keys
      ensures world.sent == old(world).sent && looks == old(looks)
      ensures asked == old(asked) + [(id, answer)] && lost == old(lost) + (if answer == BeginLost then 1 else 0)
      ensures calls == old(calls)
    {
      hide IsRun, Inv, Later, Touches;
      Others();
      BesideTouches(old(world), world, id);
      var fate: Fate, refusal: BeginAnswer := *, *;
      ghost var before := world;
      LaterSelf(before);
      TouchesSelf(before, id);
      if fate == LostBefore {
        answer := BeginLost;
      } else if id in world.wakes || refusal == Busy || refusal == NotNow {
        answer := if refusal == Busy then Busy else NotNow;
      } else {
        FreshIsUnsent(world, id);
        Do(Begin(id));
        answer := if fate == Arrived then Begun else BeginLost;
      }
      LaterAgain(old(world), before, world);
      TouchesAgain(old(world), before, world, id);
      asked := asked + [(id, answer)];
      if answer == BeginLost { lost := lost + 1; }
    }

    /** None when the call failed; otherwise whether the wake was still an intent. */
    method WakeStarted(id: Id, turn: nat) returns (answer: Option<bool>)
      requires Valid() && Evidence(world, id, turn)
      modifies this
      ensures Valid() && old(run) <= run && Later(old(world), world)
      ensures answer == Some(true) ==> id in world.wakes && world.wakes[id] == Started(turn)
      ensures answer == Some(false) ==> id in world.wakes ==> !world.wakes[id].Intent?
      ensures answer == Some(false) && NotStarted(old(world), id) ==> NotStarted(world, id)
      ensures Touches(old(world), world, id)
      ensures world.sent == old(world).sent && looks == old(looks)
      ensures asked == old(asked) && lost == old(lost) + (if answer.None? then 1 else 0)
      ensures calls == old(calls) + [MarkCall(id, turn, answer)]
      ensures NotFailed(old(world), world, id)
    {
      hide IsRun, Inv, Later, Touches;
      Others();
      BesideTouches(old(world), world, id);
      EvidenceStays(old(world), world, id, turn);
      var fate: Fate := *;
      if fate != Arrived { lost := lost + 1; }
      if fate == LostBefore {
        calls := calls + [MarkCall(id, turn, None)];
        return None;
      }
      ghost var before := world;
      var ok := id in world.wakes && world.wakes[id] == Intent;
      Do(MarkStarted(id, turn));
      LaterAgain(old(world), before, world);
      TouchesAgain(old(world), before, world, id);
      answer := if fate == Arrived then Some(ok) else None;
      calls := calls + [MarkCall(id, turn, answer)];
    }

    /** False when the call failed: it may have taken effect. */
    method WakeFinish(id: Id, outcome: Outcome) returns (ok: bool)
      requires Valid() && Finishable(world, id, outcome)
      modifies this
      ensures Valid() && old(run) <= run && Later(old(world), world)
      ensures Finishable(world, id, outcome)
      ensures Touches(old(world), world, id)
      ensures ok ==> Recorded(world, id, outcome)
      ensures NotStarted(old(world), id) ==> NotStarted(world, id)
      ensures world.sent == old(world).sent && looks == old(looks)
      ensures ok ==> FinishedAs(old(world), world, id, outcome)
      ensures asked == old(asked) && lost == old(lost) + (if ok then 0 else 1)
      ensures calls == old(calls) + [FinishCall(id, outcome, ok)]
      ensures outcome != AsFailed ==> NotFailed(old(world), world, id)
    {
      hide IsRun, Inv, Later, Touches, Recorded, NotStarted, FinishedAs;
      Others();
      BesideTouches(old(world), world, id);
      FinishableStays(old(world), world, id, outcome);
      var fate: Fate := *;
      if fate != Arrived { lost := lost + 1; }
      if fate == LostBefore {
        calls := calls + [FinishCall(id, outcome, false)];
        return false;
      }
      ghost var before := world;
      FinishRecords(world, id, outcome);
      Do(Finish(id, outcome));
      LaterAgain(old(world), before, world);
      TouchesAgain(old(world), before, world, id);
      FinishedAfter(old(world), before, world, id, outcome);
      ok := fate == Arrived;
      calls := calls + [FinishCall(id, outcome, ok)];
    }

    /** A session for a start, or none. */
    method Connect() returns (ok: bool)
      requires Valid()
      modifies this`calls
      ensures Valid() && calls == old(calls) + [Session(ok)]
    {
      hide IsRun, Inv;
      ok := *;
      calls := calls + [Session(ok)];
    }

    method TurnStart(id: Id) returns (answer: StartAnswer)
      requires Valid() && Unsent(world, id)
      modifies this
      ensures Valid() && old(run) <= run && Later(old(world), world)
      ensures answer.Named? ==> Evidence(world, id, answer.turn)
      ensures answer.RpcError? ==> NeverStarted(world, id)
      ensures Touches(old(world), world, id) && id in world.wakes && NotStarted(world, id)
      ensures world.sent == old(world).sent + [id] && looks == old(looks)
      ensures lost == old(lost) && asked == old(asked)
      ensures calls == old(calls) + [StartCall(id, answer)]
      ensures NotFailed(old(world), world, id)
    {
      hide IsRun, Inv, Later, Touches;
      Others();
      BesideTouches(old(world), world, id);
      UnsentIsClean(world, id);
      var effect: Effect, named: bool := *, *;
      if effect.Accepted? && !Lands(world, effect.landing) {
        effect := Dropped;
      }
      var before := world;
      Do(Send(id, effect));
      LaterAgain(old(world), before, world);
      TouchesAgain(old(world), before, world, id);
      answer := match effect
                case Refused => RpcError
                case Accepted(landing, answered) =>
                  if answered then Named(LandedOn(before, landing)) else if named then NoTurnNamed else ReplyLost
                case _ => if named then NoTurnNamed else ReplyLost;
      calls := calls + [StartCall(id, answer)];
    }

    /** A notification; of this thread only turns that ended are reported as completed. */
    method NextNote() returns (note: Note)
      requires Valid()
      modifies this
      ensures Valid() && old(run) <= run && Later(old(world), world)
      ensures note.thread == thread && note.turn.Some? ==>
                note.turn.value < |world.turns| && world.turns[note.turn.value].ended
      ensures forall id :: Touches(old(world), world, id)
      ensures world.sent == old(world).sent && looks == old(looks)
      ensures lost == old(lost) && asked == old(asked)
      ensures calls == old(calls) + [Heard(note)]
      ensures forall id :: NotFailed(old(world), world, id)
    {
      hide IsRun, Inv, Later, Touches;
      Others();
      forall id ensures Touches(old(world), world, id) {
        BesideTouches(old(world), world, id);
      }
      var name: string, turn: nat, named: bool, status: string := *, *, *, *;
      var about := named && (name != thread || (turn < |world.turns| && world.turns[turn].ended));
      note := Note(name, if about then Some(turn) else None, status);
      calls := calls + [Heard(note)];
    }

    method ViewOf(turn: nat) returns (v: View)
      requires turn < |world.turns|
      ensures v.turn == turn && TrueView(world, v)
    {
      var status: Option<string> := *;
      v := View(turn, world.turns[turn].carries, status);
      if TurnEnded(v) && !world.turns[turn].ended {
        v := v.(status := None);
      }
    }

    /** The connection of a start is found closed, or is not. */
    method IsClosed() returns (closed: bool)
      requires Valid()
      modifies this`calls
      ensures Valid() && calls == old(calls) + [Link(closed)]
    {
      hide IsRun, Inv;
      closed := *;
      calls := calls + [Link(closed)];
    }

    /** The next page of the listing, newest first; none when it cannot be read. */
    method ListPage(next: nat) returns (page: Option<seq<View>>)
      requires Valid() && next <= |world.turns|
      modifies this`pages, this`unread
      ensures Valid() && pages == old(pages) + 1 && unread == old(unread) + (if page.None? then 1 else 0)
      ensures page.Some? ==>
                |page.value| <= next && |page.value| <= TURN_PAGE
                && forall i :: 0 <= i < |page.value| ==> TrueView(world, page.value[i]) && page.value[i].turn == next - 1 - i
    {
      hide IsRun, Inv;
      pages := pages + 1;
      var count: nat, readable: bool := *, *;
      if !readable {
        unread := unread + 1;
        return None;
      }
      var out: seq<View> := [];
      while |out| < count && |out| < next && |out| < TURN_PAGE
        invariant |out| <= next && |out| <= TURN_PAGE && Valid()
        invariant pages == old(pages) + 1 && unread == old(unread)
        invariant forall i :: 0 <= i < |out| ==> TrueView(world, out[i]) && out[i].turn == next - 1 - i
      {
        var v := ViewOf(next - 1 - |out|);
        out := out + [v];
      }
      return Some(out);
    }

    /** The turns that started since then, newest first, page by page; none when a page cannot
        be read or there are too many. What is not listed started earlier. */
    method ReadTurns(since: int) returns (views: Option<seq<View>>, ghost from: nat)
      requires Valid()
      modifies this
      ensures Valid() && old(run) <= run && Later(old(world), world)
      ensures views.Some? ==> Listing(world, views.value, from)
      ensures views.Some? ==> forall t :: 0 <= t < from ==> startedAt(t) < since
      ensures views.None? && unread == old(unread) ==>
                pages == old(pages) + MAX_PAGES && from > 0 && NoneReachesBack(since, from)
      ensures forall id :: Touches(old(world), world, id) && (NotStarted(old(world), id) ==> NotStarted(world, id))
      ensures Beside(old(world), world) && world.sent == old(world).sent && looks == old(looks) + 1
      ensures lost == old(lost) && asked == old(asked) && calls == old(calls) + [Looked(views)]
      ensures forall id :: NotFailed(old(world), world, id)
    {
      hide IsRun, Inv, Later, Touches, NotStarted, Beside, NotFailed;
      looks := looks + 1;
      Others();
      BesideSent(old(world), world);
      BesideNotFailed(old(world), world);
      forall id ensures Touches(old(world), world, id) && (NotStarted(old(world), id) ==> NotStarted(world, id)) {
        BesideTouches(old(world), world, id);
      }
      from := |world.turns|;
      views, from := ReadPages(since);
      calls := calls + [Looked(views)];
    }

    /** Every turn from this one on started in the window. */
    ghost predicate NoneReachesBack(since: int, from: nat)
      reads this
    {
      from <= |world.turns| && forall t :: from <= t < |world.turns| ==> startedAt(t) >= since
    }

    /** Page after page until one reaches back far enough. */
    method ReadPages(since: int) returns (views: Option<seq<View>>, ghost from: nat)
      requires Valid()
      modifies this`pages, this`unread
      ensures Valid()
      ensures views.Some? ==> Listing(world, views.value, from)
      ensures views.Some? ==> forall t :: 0 <= t < from ==> startedAt(t) < since
      ensures views.None? && unread == old(unread) ==>
                pages == old(pages) + MAX_PAGES && from > 0 && NoneReachesBack(since, from)
    {
      hide IsRun, Inv;
      var next := |world.turns|;
      var out: seq<View> := [];
      var page := 0;
      while page < MAX_PAGES
        invariant 0 <= page <= MAX_PAGES && 0 <= next <= |world.turns| && Valid()
        invariant pages == old(pages) + page && unread == old(unread)
        invariant Listing(world, out, next) && NoneReachesBack(since, next) && (page > 0 ==> next > 0)
      {
        var read := ListPage(next);
        if read.None? {
          return None, 0;
        }
        var older, i := false, 0;
        while i < |read.value|
          invariant 0 <= i <= |read.value| && Listing(world, out, next - i)
          invariant if older then i > 0 && startedAt(next - i) < since else NoneReachesBack(since, next - i)
        {
          out := out + [read.value[i]];
          i := i + 1;
          if startedAt(next - i) < since {
            older := true;
          }
        }
        next := next - |read.value|;
        if older || next == 0 {
          return Some(out), next;
        }
        page := page + 1;
      }
      return None, next;
    }

    /** The records of all wakes, or none when the call failed. */
    method OpenWakes() returns (answer: Option<map<Id, Wake>>)
      requires Valid()
      modifies this`lost
      ensures Valid() && lost == old(lost) + (if answer.None? then 1 else 0)
      ensures answer.Some? ==> answer.value == world.wakes
    {
      hide IsRun, Inv;
      var fate: Fate := *;
      if fate != Arrived {
        lost := lost + 1;
        return None;
      }
      return Some(world.wakes);
    }

    /** A reading of the history found the one turn that holds the wake's message. */
    method Look(id: Id, ghost from: nat, turn: nat)
      requires Valid() && Sole(world, id, from, turn)
      modifies this
      ensures Valid() && old(run) <= run && Later(old(world), world)
      ensures Evidence(world, id, turn) && world.turns == old(world).turns && world.wakes == old(world).wakes
      ensures world.sent == old(world).sent && looks == old(looks)
      ensures (id, turn) in world.soles
      ensures lost == old(lost) && asked == old(asked)
      ensures calls == old(calls)
    {
      hide IsRun, Inv, Later;
      ghost var a := Action.Look(id, from, turn);
      NextKeeps(world, a);
      Extends(run, a);
      var soles := world.soles + {(id, turn)};
      world := world.(soles := soles);
      run := run + [world];
    }
  }

  // ---- The waker ----

  class Waker {
    const plane: Plane
    var recovered: bool
    var stopped: bool

    constructor (plane: Plane)
      requires plane.Valid()
      ensures this.plane == plane && !recovered && !stopped
    {
      this.plane, recovered, stopped := plane, false, false;
    }

    /** Once recovered, a waker that is not stopping leaves no wake in intent or started. */
    ghost predicate Valid()
      reads this, plane
    {
      plane.Valid() && (recovered && !stopped ==> AllSettled(plane.world))
    }

    /** A signal to stop may arrive at any time. */
    method CheckStop() returns (stop: bool)
      modifies this`stopped
      ensures stop == stopped && (old(stopped) ==> stopped)
    {
      if * {
        stopped := true;
      }
      return stopped;
    }

    /** A started turn seen through the history: always at least one look, then again until it
        ended, the waker stops or the time is over. */
    method Follow(id: Id, turn: nat, since: int) returns (ok: bool)
      requires plane.Valid() && StartedAs(plane.world, id, turn)
      modifies plane, this`stopped
      ensures plane.Valid() && old(plane.run) <= plane.run && Later(old(plane.world), plane.world)
      ensures Touches(old(plane.world), plane.world, id) && (old(stopped) ==> stopped)
      ensures ok && !stopped ==> Settled(plane.world, id)
      ensures plane.world.sent == old(plane.world).sent && plane.looks > old(plane.looks)
      ensures EndedIfCompleted(plane.world, id)
      ensures plane.lost >= old(plane.lost) + (if ok then 0 else 1)
      ensures plane.asked == old(plane.asked)
      ensures old(plane.calls) <= plane.calls
      ensures FollowCalls(plane.calls[|old(plane.calls)|..], id, turn, ok, stopped)
      ensures NotFailed(old(plane.world), plane.world, id)
    {
      hide IsRun, Inv, Later, Looks, FollowCalls, StartedAs, Touches, Settled, FinishedAs, EndedIfCompleted;
      ghost var said;
      ok, said := LookUntil(id, turn, since);
      InvEnds(plane.world, id);
      if ok {
        return;
      }
      ghost var before := plane.world;
      ok := GiveUp(id);
      GivenUp(said, id, turn, ok);
      SaidOn(old(plane.calls), old(plane.calls) + said, plane.calls, said + [FinishCall(id, AsUnknown, ok)]);
      InvEnds(plane.world, id);
      LaterAgain(old(plane.world), before, plane.world);
      TouchesAgain(old(plane.world), before, plane.world, id);
      NotFailedAgain(old(plane.world), before, plane.world, id);
    }

    /** True when a look settled it or the waker stops, false when the time is over. */
    method LookUntil(id: Id, turn: nat, since: int) returns (over: bool, ghost said: seq<Call>)
      requires plane.Valid() && StartedAs(plane.world, id, turn)
      modifies plane, this`stopped
      ensures plane.Valid() && old(plane.run) <= plane.run && Later(old(plane.world), plane.world)
      ensures Touches(old(plane.world), plane.world, id) && (old(stopped) ==> stopped)
      ensures over && !stopped ==> Settled(plane.world, id)
      ensures plane.world.sent == old(plane.world).sent && plane.looks > old(plane.looks)
      ensures plane.lost >= old(plane.lost) && plane.asked == old(plane.asked)
      ensures plane.calls == old(plane.calls) + said
      ensures if over then FollowCalls(said, id, turn, true, stopped) else Looks(said, id, turn) && said != [] && !stopped
      ensures NotFailed(old(plane.world), plane.world, id)
    {
      hide IsRun, Inv, Later, Looks, LookBlock, FollowCalls, StartedAs, Touches, Settled;
      LaterSelf(plane.world);
      TouchesSelf(plane.world, id);
      var again := true;
      var polls: nat := *;
      said := [];
      NoLooks(id, turn);
      while again
        invariant plane.Valid() && old(plane.run) <= plane.run && Later(old(plane.world), plane.world)
        invariant StartedAs(plane.world, id, turn) && Touches(old(plane.world), plane.world, id)
        invariant (old(stopped) ==> stopped) && (!again ==> !stopped)
        invariant plane.world.sent == old(plane.world).sent && plane.asked == old(plane.asked)
        invariant plane.lost >= old(plane.lost)
        invariant plane.calls == old(plane.calls) + said && Looks(said, id, turn) && (again || said != [])
        invariant NotFailed(old(plane.world), plane.world, id)
        invariant plane.looks >= old(plane.looks) && (!again ==> plane.looks > old(plane.looks))
        decreases polls, again
      {
        ghost var before, all := plane.world, plane.calls;
        var done := LookOnce(id, turn, since);
        ghost var block := plane.calls[|all|..];
        LooksOn(said, block, id, turn, done, stopped);
        said := said + block;
        SaidOn(old(plane.calls), all, plane.calls, said);
        LaterAgain(old(plane.world), before, plane.world);
        TouchesAgain(old(plane.world), before, plane.world, id);
        NotFailedAgain(old(plane.world), before, plane.world, id);
        if done {
          return true, said;
        }
        var stop := CheckStop();
        if stop {
          StoppedLooking(said, id, turn);
          return true, said;
        }
        again := polls > 0;
        polls := if again then polls - 1 else 0;
      }
      return false, said;
    }

    /** The outcome is not known. */
    method GiveUp(id: Id) returns (ok: bool)
      requires plane.Valid()
      modifies plane
      ensures plane.Valid() && old(plane.run) <= plane.run && Later(old(plane.world), plane.world)
      ensures Touches(old(plane.world), plane.world, id)
      ensures ok ==> Settled(plane.world, id)
      ensures plane.world.sent == old(plane.world).sent && plane.looks >= old(plane.looks)
      ensures ok ==> FinishedAs(old(plane.world), plane.world, id, AsUnknown)
      ensures plane.lost >= old(plane.lost) + (if ok then 0 else 1)
      ensures plane.asked == old(plane.asked)
      ensures plane.calls == old(plane.calls) + [FinishCall(id, AsUnknown, ok)]
      ensures NotFailed(old(plane.world), plane.world, id)
    {
      hide IsRun, Inv, Later, Touches;
      ok := plane.WakeFinish(id, AsUnknown);
    }

    /** One look at the history; a failure of any kind means look again. */
    method LookOnce(id: Id, turn: nat, since: int) returns (done: bool)
      requires plane.Valid() && StartedAs(plane.world, id, turn)
      modifies plane
      ensures plane.Valid() && old(plane.run) <= plane.run && Later(old(plane.world), plane.world)
      ensures StartedAs(plane.world, id, turn) && Touches(old(plane.world), plane.world, id)
      ensures done ==> Settled(plane.world, id)
      ensures plane.world.sent == old(plane.world).sent && plane.looks > old(plane.looks)
      ensures plane.lost >= old(plane.lost)
      ensures plane.asked == old(plane.asked)
      ensures old(plane.calls) <= plane.calls
      ensures LookBlock(plane.calls[|old(plane.calls)|..], id, turn, done)
      ensures NotFailed(old(plane.world), plane.world, id)
    {
      hide IsRun, Inv, Later, Finishable, StartedAs, Touches;
      var views, from := plane.ReadTurns(since);
      StartedStays(old(plane.world), plane.world, id, turn);
      if views.None? {
        return false;
      }
      ghost var seen := plane.world;
      var view := Find(views.value, turn);
      FindsOwn(views.value, turn);
      if view.None? {
        done := GiveUp(id);
      } else if TurnEnded(view.value) {
        done := Complete(id, turn);
      } else {
        return false;
      }
      LaterAgain(old(plane.world), seen, plane.world);
      TouchesAgain(old(plane.world), seen, plane.world, id);
      StartedStays(seen, plane.world, id, turn);
    }

    /** The turn followed has ended. */
    method Complete(id: Id, turn: nat) returns (ok: bool)
      requires plane.Valid() && StartedAs(plane.world, id, turn)
      requires turn < |plane.world.turns| && plane.world.turns[turn].ended
      modifies plane
      ensures plane.Valid() && old(plane.run) <= plane.run && Later(old(plane.world), plane.world)
      ensures Touches(old(plane.world), plane.world, id)
      ensures ok ==> Settled(plane.world, id)
      ensures plane.world.sent == old(plane.world).sent && plane.looks >= old(plane.looks)
      ensures ok ==> FinishedAs(old(plane.world), plane.world, id, AsCompleted)
      ensures plane.lost >= old(plane.lost) + (if ok then 0 else 1)
      ensures plane.asked == old(plane.asked)
      ensures plane.calls == old(plane.calls) + [FinishCall(id, AsCompleted, ok)]
      ensures NotFailed(old(plane.world), plane.world, id)
    {
      hide IsRun, Inv, Later, Touches;
      ok := plane.WakeFinish(id, AsCompleted);
      StartedStays(old(plane.world), plane.world, id, turn);
    }

    /** The reply to a start was lost: only exactly one turn with the wake's message means that
        it started; everything else is recorded as unknown. */
    method SettleFromHistory(id: Id, since: int)
      returns (ok: bool, ghost views: Option<seq<View>>, ghost seen: World, ghost from: nat)
      requires plane.Valid() && NotStarted(plane.world, id)
      modifies plane, this`stopped
      ensures plane.Valid() && old(plane.run) <= plane.run && Later(old(plane.world), plane.world)
      ensures Touches(old(plane.world), plane.world, id) && (old(stopped) ==> stopped)
      ensures ok && !stopped ==> Settled(plane.world, id)
      ensures plane.world.sent == old(plane.world).sent && plane.looks > old(plane.looks)
      ensures Later(old(plane.world), seen) && Later(seen, plane.world)
      ensures views.Some? ==> Listing(seen, views.value, from)
      ensures var found := if views.Some? then TurnsForWake(views.value, id) else [];
              ok ==> if |found| == 1 then (id, found[0].turn) in plane.world.soles
                     else FinishedAs(old(plane.world), plane.world, id, AsUnknown)
      ensures plane.lost >= old(plane.lost) + (if ok then 0 else 1)
      ensures plane.asked == old(plane.asked)
      ensures old(plane.calls) <= plane.calls
      ensures plane.calls != old(plane.calls) && plane.calls[|old(plane.calls)|] == Looked(views)
      ensures SettleCalls(plane.calls[|old(plane.calls)|..], id, ok, stopped)
      ensures NotFailed(old(plane.world), plane.world, id)
    {
      hide IsRun, Inv, Later, Finishable, StartedAs, Evidence, Listing, Sole, Touches, Beside, FinishedAs, NotFailed;
      hide SettleCalls, MarkedCalls, TurnsForWake, Settled;
      var read;
      read, from := plane.ReadTurns(since);
      views, seen := read, plane.world;
      LaterSelf(seen);
      ghost var all := plane.calls;
      var found := if read.Some? then TurnsForWake(read.value, id) else [];
      assert NotFailed(old(plane.world), seen, id) && Touches(old(plane.world), seen, id);
      if read.None? || |found| != 1 {
        ok := GiveUp(id);
        SettledUnknown(read, id, ok, stopped);
        SaidOn(old(plane.calls), all, plane.calls, [Looked(read), FinishCall(id, AsUnknown, ok)]);
        OnAgain(old(plane.world), seen, plane.world, id);
        if ok { FinishedAfter(old(plane.world), seen, plane.world, id, AsUnknown); }
        return;
      }
      SoleListed(plane.world, read.value, from, id);
      var view := found[0];
      plane.Look(id, from, view.turn);
      ghost var looked := plane.world;
      SameWakes(seen, looked, id);
      ok := MarkAndFollow(id, view.turn, since, TurnEnded(view));
      SettledFound(read, plane.calls[|all|..], id, ok, stopped);
      SaidOn(old(plane.calls), all, plane.calls, [Looked(read)] + plane.calls[|all|..]);
      SolesStay(looked, plane.world, id, view.turn);
      OnAgain(seen, looked, plane.world, id);
      OnAgain(old(plane.world), seen, plane.world, id);
    }

    method SettleLost(id: Id, since: int) returns (ok: bool)
      requires plane.Valid() && NotStarted(plane.world, id)
      modifies plane, this`stopped
      ensures plane.Valid() && old(plane.run) <= plane.run && Later(old(plane.world), plane.world)
      ensures Touches(old(plane.world), plane.world, id) && (old(stopped) ==> stopped)
      ensures ok && !stopped ==> Settled(plane.world, id)
      ensures plane.world.sent == old(plane.world).sent && plane.looks > old(plane.looks)
      ensures plane.lost >= old(plane.lost) + (if ok then 0 else 1)
      ensures plane.asked == old(plane.asked)
      ensures old(plane.calls) <= plane.calls
      ensures SettleCalls(plane.calls[|old(plane.calls)|..], id, ok, stopped)
      ensures NotFailed(old(plane.world), plane.world, id)
    {
      hide *;
      ghost var views, seen, from;
      ok, views, seen, from := SettleFromHistory(id, since);
    }

    /** The turn is recorded as the wake's, and followed unless it has ended already. */
    method MarkAndFollow(id: Id, turn: nat, since: int, ended: bool) returns (ok: bool)
      requires plane.Valid() && NotStarted(plane.world, id) && Evidence(plane.world, id, turn)
      requires ended ==> turn < |plane.world.turns| && plane.world.turns[turn].ended
      modifies plane, this`stopped
      ensures plane.Valid() && old(plane.run) <= plane.run && Later(old(plane.world), plane.world)
      ensures Touches(old(plane.world), plane.world, id) && (old(stopped) ==> stopped)
      ensures ok && !stopped ==> Settled(plane.world, id)
      ensures plane.world.sent == old(plane.world).sent && plane.looks >= old(plane.looks)
      ensures plane.lost >= old(plane.lost) + (if ok then 0 else 1)
      ensures plane.asked == old(plane.asked)
      ensures old(plane.calls) <= plane.calls
      ensures MarkedCalls(plane.calls[|old(plane.calls)|..], id, turn, ended, ok, stopped)
      ensures NotFailed(old(plane.world), plane.world, id)
    {
      hide IsRun, Inv, Later, ConcludeCalls, Finishable, Evidence, Touches;
      var st := plane.WakeStarted(id, turn);
      if st.None? {
        return false;
      } else if !st.value {
        assert st == Some(false);
        return true;
      }
      assert st == Some(true);
      ghost var started := plane.world;
      if ended { EndedStays(old(plane.world), plane.world, turn); }
      ok := Conclude(id, turn, since, ended);
      LaterAgain(old(plane.world), started, plane.world);
      TouchesAgain(old(plane.world), started, plane.world, id);
    }

    method Conclude(id: Id, turn: nat, since: int, ended: bool) returns (ok: bool)
      requires plane.Valid() && StartedAs(plane.world, id, turn)
      requires ended ==> turn < |plane.world.turns| && plane.world.turns[turn].ended
      modifies plane, this`stopped
      ensures plane.Valid() && old(plane.run) <= plane.run && Later(old(plane.world), plane.world)
      ensures Touches(old(plane.world), plane.world, id) && (old(stopped) ==> stopped)
      ensures ok && !stopped ==> Settled(plane.world, id)
      ensures plane.world.sent == old(plane.world).sent && plane.looks >= old(plane.looks)
      ensures plane.lost >= old(plane.lost) + (if ok then 0 else 1)
      ensures plane.asked == old(plane.asked)
      ensures old(plane.calls) <= plane.calls
      ensures ConcludeCalls(plane.calls[|old(plane.calls)|..], id, turn, ended, ok, stopped)
      ensures NotFailed(old(plane.world), plane.world, id)
    {
      hide IsRun, Inv, Later, FollowCalls, StartedAs, Touches, Settled, FinishedAs, EndedIfCompleted;
      if ended {
        ok := Complete(id, turn);
      } else {
        ok := Follow(id, turn, since);
      }
    }

    /** The start of a recorded intent, sent once, and its turn followed. */
    method Run(id: Id, since: int) returns (ok: bool)
      requires plane.Valid() && Unsent(plane.world, id)
      modifies plane, this`stopped
      ensures plane.Valid() && old(plane.run) <= plane.run && Later(old(plane.world), plane.world)
      ensures Touches(old(plane.world), plane.world, id) && (old(stopped) ==> stopped)
      ensures ok && !stopped ==> Settled(plane.world, id)
      ensures plane.world.sent == old(plane.world).sent || plane.world.sent == old(plane.world).sent + [id]
      ensures ok && plane.world.sent == old(plane.world).sent ==>
                FinishedAs(old(plane.world), plane.world, id, AsFailed)
      ensures old(plane.calls) <= plane.calls
      ensures RunCalls(plane.calls[|old(plane.calls)|..], plane.thread, id, ok, stopped)
      ensures plane.world.sent == old(plane.world).sent ==>
                plane.calls == old(plane.calls) + [Session(false), FinishCall(id, AsFailed, ok)]
      ensures NotFailed(old(plane.world), plane.world, id)
           || plane.calls == old(plane.calls) + [Session(false), FinishCall(id, AsFailed, ok)]
           || plane.calls == old(plane.calls) + [Session(true), StartCall(id, RpcError), FinishCall(id, AsFailed, ok)]
      ensures plane.lost >= old(plane.lost) + (if ok then 0 else 1)
      ensures plane.asked == old(plane.asked)
    {
      hide IsRun, Inv, Later, StartedCalls, SettleCalls, Finishable, StartedAs, Evidence, NeverStarted, Touches, FinishedAs;
      UnsentIsClean(plane.world, id);
      var connected := plane.Connect();
      if !connected {
        ok := Fail(id);
        assert plane.calls[|old(plane.calls)|..] == [Session(false), FinishCall(id, AsFailed, ok)];
        return;
      }
      hide Unsent;
      var answer := plane.TurnStart(id);
      ghost var sent, all := plane.world, plane.calls;
      match answer {
        case RpcError => ok := Fail(id);
        case ReplyLost => ok := SettleLost(id, since);
        case NoTurnNamed => ok := SettleLost(id, since);
        case Named(turn) => ok := AwaitStarted(id, turn, since);
      }
      ghost var said := [StartCall(id, answer)] + plane.calls[|all|..];
      assert said[1..] == plane.calls[|all|..] && ([Session(true)] + said)[1..] == said;
      SaidOn(old(plane.calls), all, plane.calls, [Session(true)] + said);
      LaterAgain(old(plane.world), sent, plane.world);
      TouchesAgain(old(plane.world), sent, plane.world, id);
      if !answer.RpcError? { NotFailedAgain(old(plane.world), sent, plane.world, id); }
    }

    /** No turn was started, and none will be. */
    method Fail(id: Id) returns (ok: bool)
      requires plane.Valid() && NeverStarted(plane.world, id) && NotStarted(plane.world, id)
      modifies plane
      ensures plane.Valid() && old(plane.run) <= plane.run && Later(old(plane.world), plane.world)
      ensures Touches(old(plane.world), plane.world, id)
      ensures ok ==> Settled(plane.world, id)
      ensures plane.world.sent == old(plane.world).sent && plane.looks >= old(plane.looks)
      ensures ok ==> FinishedAs(old(plane.world), plane.world, id, AsFailed)
      ensures plane.lost >= old(plane.lost) + (if ok then 0 else 1)
      ensures plane.asked == old(plane.asked)
      ensures plane.calls == old(plane.calls) + [FinishCall(id, AsFailed, ok)]
    {
      hide IsRun, Inv, Later, Touches, NeverStarted;
      ok := plane.WakeFinish(id, AsFailed);
    }

    method AwaitStarted(id: Id, turn: nat, since: int) returns (ok: bool)
      requires plane.Valid() && NotStarted(plane.world, id) && Evidence(plane.world, id, turn)
      modifies plane, this`stopped
      ensures plane.Valid() && old(plane.run) <= plane.run && Later(old(plane.world), plane.world)
      ensures Touches(old(plane.world), plane.world, id) && (old(stopped) ==> stopped)
      ensures ok && !stopped ==> Settled(plane.world, id)
      ensures plane.world.sent == old(plane.world).sent && plane.looks >= old(plane.looks)
      ensures plane.lost >= old(plane.lost) + (if ok then 0 else 1)
      ensures plane.asked == old(plane.asked)
      ensures old(plane.calls) <= plane.calls
      ensures StartedCalls(plane.calls[|old(plane.calls)|..], plane.thread, id, turn, ok, stopped)
      ensures NotFailed(old(plane.world), plane.world, id)
    {
      hide IsRun, Inv, Later, Finishable, Evidence, Touches;
      var st := plane.WakeStarted(id, turn);
      if st.None? {
        return false;
      } else if !st.value {
        assert st == Some(false);
        return true;
      }
      assert st == Some(true);
      ghost var started := plane.world;
      ok := AwaitEnd(id, turn, since);
      LaterAgain(old(plane.world), started, plane.world);
      TouchesAgain(old(plane.world), started, plane.world, id);
    }

    /** The next notification; an end of a turn of this thread is kept. */
    method Hear(id: Id, turn: nat, ended: map<nat, string>) returns (later: map<nat, string>, ghost note: Note)
      requires plane.Valid() && StartedAs(plane.world, id, turn) && AllEnded(plane.world, ended.Keys)
      modifies plane
      ensures plane.Valid() && old(plane.run) <= plane.run && Later(old(plane.world), plane.world)
      ensures StartedAs(plane.world, id, turn) && AllEnded(plane.world, later.Keys)
      ensures Touches(old(plane.world), plane.world, id) && NotFailed(old(plane.world), plane.world, id)
      ensures plane.world.sent == old(plane.world).sent && plane.looks == old(plane.looks)
      ensures plane.lost == old(plane.lost) && plane.asked == old(plane.asked)
      ensures plane.calls == old(plane.calls) + [Heard(note)]
      ensures turn in later <==> turn in ended || About(note, plane.thread, turn)
    {
      hide IsRun, Inv, Later, StartedAs, Touches;
      var heard := plane.NextNote();
      note, later := heard, ended;
      StartedStays(old(plane.world), plane.world, id, turn);
      AllEndedStays(old(plane.world), plane.world, ended.Keys);
      if heard.thread == plane.thread && heard.turn.Some? {
        later := ended[heard.turn.value := heard.status];
      }
    }

    /** Notifications, one after the other, until one is of this turn's end, the connection closes,
        the waker stops or the time is over. */
    method Listen(id: Id, turn: nat) returns (heed: Heed, ghost said: seq<Call>, ghost note: Note)
      requires plane.Valid() && StartedAs(plane.world, id, turn)
      modifies plane, this`stopped
      ensures plane.Valid() && old(plane.run) <= plane.run && Later(old(plane.world), plane.world)
      ensures StartedAs(plane.world, id, turn) && Touches(old(plane.world), plane.world, id)
      ensures NotFailed(old(plane.world), plane.world, id) && (old(stopped) ==> stopped)
      ensures plane.world.sent == old(plane.world).sent && plane.looks == old(plane.looks)
      ensures plane.lost == old(plane.lost) && plane.asked == old(plane.asked)
      ensures Quiet(said, plane.thread, turn) && plane.calls == old(plane.calls) + said + HeedCalls(heed, note)
      ensures heed == TurnOver ==> turn < |plane.world.turns| && plane.world.turns[turn].ended
      ensures heed == TurnOver || heed == LinkOver ==> (heed == TurnOver <==> About(note, plane.thread, turn))
      ensures heed == Stopping ==> stopped
      ensures heed == TimeOver ==> !stopped
    {
      hide IsRun, Inv, Later, Quiet, About, StartedAs, Touches, NotFailed;
      LaterSelf(plane.world);
      TouchesSelf(plane.world, id);
      NotFailedSelf(plane.world, id);
      AllQuiet(plane.thread, turn);
      var ended: map<nat, string> := map[];
      var polls: nat, stop := *, stopped;
      said, note := [], Note("", None, "");
      while polls > 0 && !stop
        invariant plane.Valid() && old(plane.run) <= plane.run && Later(old(plane.world), plane.world)
        invariant StartedAs(plane.world, id, turn) && Touches(old(plane.world), plane.world, id)
        invariant NotFailed(old(plane.world), plane.world, id)
        invariant AllEnded(plane.world, ended.Keys)
        invariant stop == stopped && (old(stopped) ==> stopped)
        invariant plane.world.sent == old(plane.world).sent
        invariant plane.calls == old(plane.calls) + said && Quiet(said, plane.thread, turn) && turn !in ended
        invariant plane.looks == old(plane.looks) && plane.lost == old(plane.lost) && plane.asked == old(plane.asked)
      {
        ghost var before := plane.world;
        ended, note := Hear(id, turn, ended);
        LaterAgain(old(plane.world), before, plane.world);
        TouchesAgain(old(plane.world), before, plane.world, id);
        NotFailedAgain(old(plane.world), before, plane.world, id);
        if turn in ended {
          return TurnOver, said, note;
        }
        var closed := plane.IsClosed();
        if closed {
          return LinkOver, said, note;
        }
        QuietOn(said, note, plane.thread, turn);
        said := said + [Heard(note), Link(false)];
        polls := polls - 1;
        stop := CheckStop();
      }
      return if stop then Stopping else TimeOver, said, note;
    }

    /** Notifications are matched on the thread and the turn. */
    method AwaitEnd(id: Id, turn: nat, since: int) returns (ok: bool)
      requires plane.Valid() && StartedAs(plane.world, id, turn)
      modifies plane, this`stopped
      ensures plane.Valid() && old(plane.run) <= plane.run && Later(old(plane.world), plane.world)
      ensures Touches(old(plane.world), plane.world, id) && (old(stopped) ==> stopped)
      ensures ok && !stopped ==> Settled(plane.world, id)
      ensures plane.world.sent == old(plane.world).sent && plane.looks >= old(plane.looks)
      ensures EndedIfCompleted(plane.world, id)
      ensures plane.lost >= old(plane.lost) + (if ok then 0 else 1)
      ensures plane.asked == old(plane.asked)
      ensures old(plane.calls) <= plane.calls
      ensures AwaitCalls(plane.calls[|old(plane.calls)|..], plane.thread, id, turn, ok, stopped)
      ensures NotFailed(old(plane.world), plane.world, id)
    {
      hide IsRun, Inv, Later, Quiet, About, AwaitCalls, ConcludeCalls, StartedAs, Touches, NotFailed, Settled;
      hide EndedIfCompleted;
      ghost var said, note;
      var heed;
      heed, said, note := Listen(id, turn);
      AwaitOver(said, plane.thread, id, turn);
      InvEnds(plane.world, id);
      if heed == Stopping {
        SaidOn(old(plane.calls), old(plane.calls), plane.calls, said);
        return true;
      }
      ghost var before, all := plane.world, plane.calls;
      if heed == TimeOver {
        ok := GiveUp(id);
        said := said + [FinishCall(id, AsUnknown, ok)];
      } else {
        ok := Conclude(id, turn, since, heed == TurnOver);
        said := AwaitConcluded(said, note, plane.calls[|all|..], plane.thread, id, turn, ok, stopped);
      }
      SaidOn(old(plane.calls), all, plane.calls, said);
      InvEnds(plane.world, id);
      OnAgain(old(plane.world), before, plane.world, id);
    }

    /** One pass over the questions that wait: at most one wake, and it is settled. */
    method Tick(ids: seq<Id>, idle: bool) returns (ok: bool, woken: Option<Id>)
      requires plane.Valid()
      modifies plane, this`stopped
      ensures plane.Valid() && old(plane.run) <= plane.run && Later(old(plane.world), plane.world)
      ensures old(stopped) ==> stopped
      ensures ok && !stopped && AllSettled(old(plane.world)) ==> AllSettled(plane.world)
      ensures woken.Some? ==> ok && woken.value in ids && woken.value !in old(plane.world).wakes
      ensures plane.world.sent == old(plane.world).sent
           || exists id :: id in ids && id !in old(plane.world).wakes && plane.world.sent == old(plane.world).sent + [id]
      ensures OneMore(old(plane.world), plane.world, ids)
      ensures plane.lost >= old(plane.lost) + (if ok then 0 else 1)
      ensures ok && idle && ids != [] ==> Asked(old(plane.asked), plane.asked, ids, woken)
    {
      hide IsRun, Inv, Later, Unsent, NeverStarted, Touches, Settled, Asked, AllRefused;
      LaterSelf(plane.world);
      if ids == [] || !idle {
        return true, None;
      }
      var k := 0;
      NothingAsked(plane.asked, ids);
      while k < |ids|
        invariant 0 <= k <= |ids|
        invariant plane.Valid() && old(plane.run) <= plane.run && Later(old(plane.world), plane.world)
        invariant AllSettled(old(plane.world)) ==> AllSettled(plane.world)
        invariant plane.world.sent == old(plane.world).sent && plane.lost == old(plane.lost)
        invariant AllRefused(old(plane.asked), plane.asked, ids[..k])
        invariant k == |ids| ==> Asked(old(plane.asked), plane.asked, ids, None)
        invariant stopped == old(stopped) && plane.world.wakes.Keys == old(plane.world).wakes.Keys
      {
        ghost var before := plane.world;
        var answer := plane.WakeBegin(ids[k]);
        LaterAgain(old(plane.world), before, plane.world);
        NewWakes(before, plane.world, ids, ids[k]);
        AsksOn(old(plane.asked), plane.asked, ids, k);
        if answer == BeginLost {
          return false, None;
        } else if answer == Begun {
          ghost var begun := plane.world;
          var since: int := *;
          ok := Run(ids[k], since);
          LaterAgain(old(plane.world), begun, plane.world);
          TouchesAgain(before, begun, plane.world, ids[k]);
          NewWakes(before, plane.world, ids, ids[k]);
          if ok && !stopped && AllSettled(before) {
            SettledStays(before, plane.world, ids[k]);
          }
          return ok, if ok then Some(ids[k]) else None;
        }
        RefusedSettled(before, plane.world, ids[k]);
        if answer == Busy {
          return true, None;
        }
        k := k + 1;
      }
      return true, None;
    }

    /** What a previous waker left in intent or started is settled; each wake carries the time it
        was recorded. */
    method Recover() returns (ok: bool)
      requires plane.Valid()
      modifies plane, this`stopped
      ensures plane.Valid() && old(plane.run) <= plane.run && Later(old(plane.world), plane.world)
      ensures old(stopped) ==> stopped
      ensures ok && !stopped ==> AllSettled(plane.world)
      ensures plane.lost >= old(plane.lost) + (if ok then 0 else 1)
    {
      hide IsRun, Inv, Later, StartedAs, Touches, Settled;
      LaterSelf(plane.world);
      var answer := plane.OpenWakes();
      if answer.None? {
        return false;
      }
      var listed := answer.value;
      var left := listed.Keys;
      while left != {}
        invariant left <= listed.Keys && listed == old(plane.world).wakes
        invariant plane.Valid() && old(plane.run) <= plane.run && Later(old(plane.world), plane.world)
        invariant (old(stopped) ==> stopped) && plane.lost >= old(plane.lost)
        invariant LeftOpen(listed, plane.world, left, stopped)
      {
        var id :| id in left;
        ghost var before := plane.world;
        ok := SettleListed(id, listed[id], left, listed);
        LaterAgain(old(plane.world), before, plane.world);
        if !ok {
          return;
        }
        left := left - {id};
      }
      return true;
    }

    method SettleListed(id: Id, record: Wake, ghost left: set<Id>, ghost listed: map<Id, Wake>) returns (ok: bool)
      requires plane.Valid() && id in left && left <= listed.Keys && record == listed[id]
      requires LeftOpen(listed, plane.world, left, stopped)
      modifies plane, this`stopped
      ensures plane.Valid() && old(plane.run) <= plane.run && Later(old(plane.world), plane.world)
      ensures old(stopped) ==> stopped
      ensures ok ==> LeftOpen(listed, plane.world, left - {id}, stopped)
      ensures plane.lost >= old(plane.lost) + (if ok then 0 else 1)
      ensures old(plane.calls) <= plane.calls
      ensures match record
              case Intent => SettleCalls(plane.calls[|old(plane.calls)|..], id, ok, stopped)
              case Started(turn) => FollowCalls(plane.calls[|old(plane.calls)|..], id, turn, ok, stopped)
              case _ => ok && plane.calls == old(plane.calls)
    {
      var since: int := *;
      LeftIs(listed, plane.world, left, stopped, id);
      ghost var was := stopped;
      hide IsRun, Inv, Later, FollowCalls, SettleCalls, NotFailed, StartedAs, Touches, Settled, LeftOpen;
      if record == Intent {
        ok := SettleLost(id, since);
      } else if record.Started? {
        ok := Follow(id, record.turn, since);
      } else {
        ok := true;
        LaterSelf(plane.world);
        TouchesSelf(plane.world, id);
      }
      if ok { LeftSettled(listed, old(plane.world), plane.world, left, was, stopped, id); }
    }

    /** One pass: recovery first, and again after any pass that failed. */
    method Step(ids: seq<Id>, idle: bool) returns (ok: bool)
      requires Valid()
      modifies this`recovered, this`stopped, plane
      ensures Valid() && old(plane.run) <= plane.run && Later(old(plane.world), plane.world)
      ensures recovered == ok
      ensures plane.lost >= old(plane.lost) + (if ok then 0 else 1)
    {
      hide IsRun, Inv, Later, AllSettled;
      LaterSelf(plane.world);
      if !recovered {
        ok := Recover();
        if !ok {
          recovered := false;
          return;
        }
        recovered := true;
      }
      ghost var before := plane.world;
      var woken: Option<Id>;
      ok, woken := Tick(ids, idle);
      LaterAgain(old(plane.world), before, plane.world);
      if !ok {
        recovered := false;
      }
    }
  }

  /** At most one wake was begun, for one of these questions. */
  ghost predicate OneMore(v: World, w: World, ids: seq<Id>) {
    w.wakes.Keys <= v.wakes.Keys || exists id :: id in ids && w.wakes.Keys <= v.wakes.Keys + {id}
  }

  lemma NewWakes(v: World, w: World, ids: seq<Id>, id: Id)
    requires Touches(v, w, id) && id in ids
    ensures OneMore(v, w, ids)
  {
  }

  /** Every question but the last one asked about was refused by itself; the last is the one woken
      for, or the thread or the budget is taken, or there is none left. */
  ghost predicate Asked(before: seq<(Id, BeginAnswer)>, after: seq<(Id, BeginAnswer)>, ids: seq<Id>, woken: Option<Id>) {
    exists k: nat ::
      && k < |ids| && |after| == |before| + k + 1 && AllRefused(before, after[..|before| + k], ids[..k])
      && after[|before| + k].0 == ids[k]
      && match after[|before| + k].1
         case Begun => woken == Some(ids[k])
         case Busy => woken == None
         case NotNow => woken == None && k + 1 == |ids|
         case BeginLost => false
  }

  ghost predicate AllRefused(before: seq<(Id, BeginAnswer)>, after: seq<(Id, BeginAnswer)>, ids: seq<Id>) {
    && before <= after && |after| == |before| + |ids|
    && forall i :: 0 <= i < |ids| ==> after[|before| + i] == (ids[i], NotNow)
  }

  lemma NothingAsked(asked: seq<(Id, BeginAnswer)>, ids: seq<Id>)
    ensures AllRefused(asked, asked, ids[..0])
  {
  }

  lemma AsksOn(before: seq<(Id, BeginAnswer)>, after: seq<(Id, BeginAnswer)>, ids: seq<Id>, k: nat)
    requires k < |ids| && after != [] && AllRefused(before, after[..|after| - 1], ids[..k])
    requires after[|after| - 1].0 == ids[k]
    ensures
      match after[|after| - 1].1
      case Begun => Asked(before, after, ids, Some(ids[k]))
      case Busy => Asked(before, after, ids, None)
      case NotNow =>
        AllRefused(before, after, ids[..k + 1]) && (k + 1 == |ids| ==> Asked(before, after, ids, None))
      case BeginLost => true
  {
    assert ids[..k + 1] == ids[..k] + [ids[k]];
    assert after[..|before| + k] == after[..|after| - 1];
  }

  lemma SolesStay(v: World, w: World, id: Id, turn: nat)
    requires Later(v, w)
    ensures (id, turn) in v.soles ==> (id, turn) in w.soles
  {
  }

  lemma TouchesSelf(w: World, id: Id)
    ensures Touches(w, w, id)
  {
  }

  lemma SameWakes(u: World, w: World, id: Id)
    requires w.wakes == u.wakes
    ensures Touches(u, w, id) && NotFailed(u, w, id)
  {
  }

  lemma RefusedSettled(v: World, w: World, id: Id)
    requires Touches(v, w, id) && w.wakes.Keys == v.wakes.Keys && Later(v, w)
    ensures AllSettled(v) ==> AllSettled(w)
  {
    if AllSettled(v) {
      forall x | x in w.wakes ensures Settled(w, x) {
        assert Settled(v, x) && Follows(v.wakes[x], w.wakes[x]);
      }
    }
  }

  /** Of the listed wakes only those in `left` may still be open, and they are as listed or
      resolved; nothing was begun since. */
  ghost predicate LeftOpen(listed: map<Id, Wake>, w: World, left: set<Id>, stopped: bool) {
    (forall id :: id in w.wakes ==> id in listed)
    && (forall id :: id in left && id in listed ==> id in w.wakes && (w.wakes[id] == listed[id] || w.wakes[id] == Resolved))
    && (!stopped ==> forall id :: id in w.wakes && id !in left ==> Settled(w, id))
  }

  lemma LeftIs(listed: map<Id, Wake>, w: World, left: set<Id>, stopped: bool, id: Id)
    requires LeftOpen(listed, w, left, stopped) && id in left && id in listed
    ensures listed[id] == Intent ==> NotStarted(w, id)
    ensures listed[id].Started? ==> StartedAs(w, id, listed[id].turn)
    ensures listed[id] != Intent && !listed[id].Started? ==> Settled(w, id)
  {
  }

  /** A wake left open is one less when it was settled, or the waker was told to stop. */
  lemma LeftSettled(listed: map<Id, Wake>, v: World, w: World, left: set<Id>, was: bool, stopped: bool, id: Id)
    requires LeftOpen(listed, v, left, was) && Touches(v, w, id) && Later(v, w) && id in left && left <= listed.Keys
    requires (was ==> stopped) && (!stopped ==> Settled(w, id))
    ensures LeftOpen(listed, w, left - {id}, stopped)
  {
    if !stopped {
      forall x | x in w.wakes && x !in left - {id} ensures Settled(w, x) {
        if x != id { assert Settled(v, x) && Follows(v.wakes[x], w.wakes[x]); }
      }
    }
  }

  lemma EndedStays(v: World, w: World, turn: nat)
    requires Later(v, w) && turn < |v.turns|
    ensures turn < |w.turns| && (v.turns[turn].ended ==> w.turns[turn].ended)
  {
  }

  ghost predicate AllEnded(w: World, turns: set<nat>) {
    forall t :: t in turns ==> t < |w.turns| && w.turns[t].ended
  }

  lemma AllEndedStays(v: World, w: World, turns: set<nat>)
    requires Later(v, w) && AllEnded(v, turns)
    ensures AllEnded(w, turns)
  {
  }

}
