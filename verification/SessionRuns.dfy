/** Runs of the lock of a bus: any interleaving of the atomic blocks of its tasks. */
module SessionRuns {
  import opened Common
  import opened SessionLocks

  /** The task which owns the lock: handed to a waiter which did not run yet, or running with it. */
  datatype Owner = Nobody | Handed(id: nat) | Running(id: nat)

  datatype Bus = Bus(lock: Lock, owner: Owner)

  const IDLE := Bus(FREE, Nobody)

  datatype Event =
    | Enter(u: int)                                               // a change of the unit opens its session
    | Exit(u: int)
    | Request(id: nat, unit: Option<int>, context: Option<int>)   // acquire() is called
    | Callback                                                    // a scheduled _wake() runs
    | Resume(id: nat)                                             // a handed task goes on
    | CancelHanded(id: nat)                                       // a handed task is cancelled instead
    | CancelWaiting(id: nat)                                      // the future of a waiter is cancelled
    | CleanUp(id: nat)                                            // the task of a cancelled waiter runs
    | Free(id: nat)                                               // the owner releases the lock

  /** What the callers and the event loop do: the sessions of a unit do not nest (the lock of the unit), only
      the owner releases, a request has its own identity. */
  predicate Enabled(b: Bus, e: Event) {
    match e
    case Enter(u) => u !in b.lock.sessions
    case Exit(u) => u in b.lock.sessions && b.lock.sessions[u] > 0
    case Request(id, _, _) => Place(b.lock.waiters, id).None? && b.owner != Handed(id) && b.owner != Running(id)
    case Callback => b.lock.scheduled > 0
    case Resume(id) => b.owner == Handed(id)
    case CancelHanded(id) => b.owner == Handed(id) && b.lock.locked
    case CancelWaiting(id) =>
      var i := Place(b.lock.waiters, id);
      i.Some? && !b.lock.waiters[i.value].cancelled
    case CleanUp(id) =>
      var i := Place(b.lock.waiters, id);
      i.Some? && b.lock.waiters[i.value].cancelled
    case Free(id) => b.owner == Running(id) && b.lock.locked
  }

  function Unscheduled(l: Lock): Lock {
    l.(scheduled := if l.scheduled > 0 then l.scheduled - 1 else 0)
  }

  /** The waiter which gets the lock by the event. */
  function Grant(b: Bus, e: Event): Option<Waiter> {
    match e
    case Request(id, unit, context) => AcquireGrant(b.lock, id, unit, context)
    case Callback => WakeGrant(Unscheduled(b.lock))
    case _ => None
  }

  function Step(b: Bus, e: Event): Bus
    requires Enabled(b, e)
  {
    match e
    case Enter(u) => b.(lock := EnterSession(b.lock, u))
    case Exit(u) => b.(lock := ExitSession(b.lock, u))
    case Request(id, unit, context) =>
      var g := Grant(b, e);
      Bus(Acquire(b.lock, id, unit, context),
          if g.None? then b.owner else if g.value.id == id then Running(id) else Handed(g.value.id))
    case Callback =>
      var g := Grant(b, e);
      Bus(Wake(Unscheduled(b.lock)), if g.None? then b.owner else Handed(g.value.id))
    case Resume(id) => Bus(Leave(b.lock, id), Running(id))
    case CancelHanded(id) => Bus(Leave(Release(b.lock), id), Nobody)
    case CancelWaiting(id) => b.(lock := CancelWaiter(b.lock, id))
    case CleanUp(id) => b.(lock := Leave(b.lock, id))
    case Free(id) => Bus(Release(b.lock), Nobody)
  }

  predicate Run(b: Bus, es: seq<Event>)
    decreases |es|
  {
    es == [] || (Enabled(b, es[0]) && Run(Step(b, es[0]), es[1..]))
  }

  function After(b: Bus, es: seq<Event>): Bus
    requires Run(b, es)
    decreases |es|
  {
    if es == [] then b else After(Step(b, es[0]), es[1..])
  }

  // ---- what every step keeps ----

  predicate AwaitsTurn(w: Waiter, u: int) {
    !w.inSession && w.unit == Some(u)
  }

  predicate TurnsBacked(l: Lock) {
    forall u :: u in l.turns ==> exists w :: w in l.waiters && AwaitsTurn(w, u)
  }

  predicate DistinctIds(ws: seq<Waiter>) {
    forall i, j :: 0 <= i < j < |ws| ==> ws[i].id != ws[j].id
  }

  /** A live request which waits for nobody but the owner: it is of a session or of the whole bus, or no session of its
      unit is open, or its unit has a turn. */
  predicate MayGo(l: Lock, w: Waiter) {
    !w.cancelled &&
    (w.inSession || w.unit.None? || w.unit.value !in l.sessions || w.unit.value in l.turns)
  }

  /** A live request which _wake() could grant. */
  predicate Grantable(l: Lock) {
    exists w :: w in l.waiters && Matches(l, w, Unblocked)
  }

  ghost predicate Inv(b: Bus) {
    && (b.owner == Nobody <==> !b.lock.locked)
    && (b.owner != Nobody ==> Place(b.lock.waiters, b.owner.id).None?)
    && DistinctIds(b.lock.waiters)
    && TurnsBacked(b.lock)
    && (forall u :: u in b.lock.sessions ==> b.lock.sessions[u] == 1)
    && (!b.lock.locked && Grantable(b.lock) ==> b.lock.scheduled > 0)
  }

  lemma RemovedIds(ws: seq<Waiter>, i: nat)
    requires i < |ws| && DistinctIds(ws)
    ensures DistinctIds(RemoveAt(ws, i))
    ensures Place(RemoveAt(ws, i), ws[i].id).None?
    ensures forall w :: w in ws && w.id != ws[i].id ==> w in RemoveAt(ws, i)
  {
    var r := RemoveAt(ws, i);
    assert forall k :: 0 <= k < |r| ==> r[k] == ws[if k < i then k else k + 1];
  }

  lemma PruneKeeps(l: Lock)
    ensures TurnsBacked(Prune(l))
    ensures Grantable(Prune(l)) ==> Grantable(l)
  {
    var p := Prune(l);
    forall u | u in p.turns ensures exists w :: w in p.waiters && AwaitsTurn(w, u) {
      assert Some(u) in Others(l.waiters);
      var w :| w in l.waiters && !w.cancelled && !w.inSession && w.unit == Some(u);
      assert AwaitsTurn(w, u);
    }
    if Grantable(p) {
      var w :| w in p.waiters && Matches(p, w, Unblocked);
      assert Matches(l, w, Unblocked);
    }
  }

  /** _wake() of a free lock grants a request, or no request can be granted. */
  lemma WakeLeavesNoneWaiting(l: Lock)
    requires !l.locked
    ensures WakeGrant(l).None? <==> !Grantable(l)
    ensures WakeGrant(l).Some? <==> Wake(l).locked
    ensures WakeGrant(l).Some? ==> WakeGrant(l).value in l.waiters && Matches(l, WakeGrant(l).value, Unblocked)
  {
    var t := First(l, l.waiters, TurnHolder);
    var s := First(l, l.waiters, OfSession);
    assert t.Some? ==> Matches(l, l.waiters[t.value], Unblocked);
    assert s.Some? ==> Matches(l, l.waiters[s.value], Unblocked);
    if Chosen(l).Some? {
      assert l.waiters[Chosen(l).value] in l.waiters;
    }
  }

  lemma WakeKeeps(l: Lock)
    requires DistinctIds(l.waiters) && TurnsBacked(l) && !l.locked
    ensures DistinctIds(Wake(l).waiters) && TurnsBacked(Wake(l))
    ensures WakeGrant(l).Some? ==> Place(Wake(l).waiters, WakeGrant(l).value.id).None?
  {
    if Chosen(l).Some? {
      var i := Chosen(l).value;
      RemovedIds(l.waiters, i);
      var r := Wake(l);
      forall u | u in r.turns ensures exists w :: w in r.waiters && AwaitsTurn(w, u) {
        var w :| w in l.waiters && AwaitsTurn(w, u);
        assert w != l.waiters[i];
      }
    }
  }

  lemma LeaveKeeps(l: Lock, id: nat)
    requires DistinctIds(l.waiters)
    ensures DistinctIds(Leave(l, id).waiters) && TurnsBacked(Leave(l, id))
    ensures Place(Leave(l, id).waiters, id).None?
    ensures forall w :: w in Leave(l, id).waiters ==> w in l.waiters
    ensures Grantable(Leave(l, id)) ==> Grantable(l)
  {
    match Place(l.waiters, id)
    case None => PruneKeeps(l);
    case Some(i) =>
      var rest := l.(waiters := RemoveAt(l.waiters, i));
      RemovedIds(l.waiters, i);
      PruneKeeps(rest);
      if Grantable(rest) {
        var w :| w in rest.waiters && Matches(rest, w, Unblocked);
        assert w in l.waiters && Matches(l, w, Unblocked);
      }
  }

  lemma QueuedKeeps(b: Bus, w: Waiter)
    requires Inv(b) && Place(b.lock.waiters, w.id).None?
    ensures DistinctIds(Queued(b.lock, w).waiters) && TurnsBacked(Queued(b.lock, w))
  {
    var q := Queued(b.lock, w);
    assert forall i :: 0 <= i < |b.lock.waiters| ==> b.lock.waiters[i] in b.lock.waiters && q.waiters[i].id != w.id;
    forall u | u in q.turns ensures exists x :: x in q.waiters && AwaitsTurn(x, u) {
      var x :| x in b.lock.waiters && AwaitsTurn(x, u);
    }
  }

  lemma PlaceStays(ws: seq<Waiter>, vs: seq<Waiter>, id: nat)
    requires forall w :: w in vs ==> w in ws
    requires Place(ws, id).None?
    ensures Place(vs, id).None?
  {
  }

  lemma RequestKeeps(b: Bus, e: Event)
    requires Inv(b) && Enabled(b, e) && e.Request?
    ensures Inv(Step(b, e))
  {
    var w := Waiter(e.id, e.unit, RunsInSession(b.lock, e.unit, e.context), false);
    if !TakesAtOnce(b.lock, e.unit, w.inSession) {
      var q := Queued(b.lock, w);
      QueuedKeeps(b, w);
      if b.lock.locked {
        assert Place(q.waiters, b.owner.id).None?;
      } else {
        WakeLeavesNoneWaiting(q);
        WakeKeeps(q);
        PruneKeeps(Wake(q));
      }
    }
  }

  lemma CancelKeeps(b: Bus, id: nat)
    requires Inv(b) && Enabled(b, CancelWaiting(id))
    ensures Inv(Step(b, CancelWaiting(id)))
  {
    var i := Place(b.lock.waiters, id).value;
    var l, c := b.lock, CancelWaiter(b.lock, id);
    forall u | u in c.turns ensures exists w :: w in c.waiters && AwaitsTurn(w, u) {
      var w :| w in l.waiters && AwaitsTurn(w, u);
      var k :| 0 <= k < |l.waiters| && l.waiters[k] == w;
      assert AwaitsTurn(c.waiters[k], u);
    }
    if Grantable(c) {
      var w :| w in c.waiters && Matches(c, w, Unblocked);
      assert w in l.waiters && Matches(l, w, Unblocked);
    }
    assert forall k :: 0 <= k < |l.waiters| ==> c.waiters[k].id == l.waiters[k].id;
  }

  lemma SessionKeeps(b: Bus, e: Event)
    requires Inv(b) && Enabled(b, e) && (e.Enter? || e.Exit?)
    ensures Inv(Step(b, e))
  {
    var l, r := b.lock, Step(b, e).lock;
    forall u | u in r.turns ensures exists w :: w in r.waiters && AwaitsTurn(w, u) {
      if u in l.turns {
        var w :| w in l.waiters && AwaitsTurn(w, u);
      } else {
        var w :| w in l.waiters && !w.cancelled && !w.inSession && w.unit == Some(u);
        assert AwaitsTurn(w, u);
      }
    }
    if e.Enter? && Grantable(r) {
      var w :| w in r.waiters && Matches(r, w, Unblocked);
      assert Matches(l, w, Unblocked);
    }
  }

  /** Mutual exclusion, the owner counted from the moment the lock is handed to it, and no lost wake-up:
      a free lock with a request it could grant has a scheduled _wake(). */
  lemma StepKeeps(b: Bus, e: Event)
    requires Inv(b) && Enabled(b, e)
    ensures Inv(Step(b, e))
  {
    match e
    case Enter(_) => SessionKeeps(b, e);
    case Exit(_) => SessionKeeps(b, e);
    case Request(_, _, _) => RequestKeeps(b, e);
    case Callback =>
      var l := Unscheduled(b.lock);
      if !l.locked {
        assert forall w :: Matches(l, w, Unblocked) == Matches(b.lock, w, Unblocked);
        WakeLeavesNoneWaiting(l);
        WakeKeeps(l);
      }
    case Resume(id) => LeaveKeeps(b.lock, id);
    case CancelHanded(id) => LeaveKeeps(Release(b.lock), id);
    case CancelWaiting(id) => CancelKeeps(b, id);
    case CleanUp(id) =>
      LeaveKeeps(b.lock, id);
      if b.owner != Nobody {
        PlaceStays(b.lock.waiters, Leave(b.lock, id).waiters, b.owner.id);
      }
    case Free(id) =>
  }

  lemma {:induction false} RunKeeps(b: Bus, es: seq<Event>)
    requires Inv(b) && Run(b, es)
    ensures Inv(After(b, es))
    decreases |es|
  {
    if es != [] {
      StepKeeps(b, es[0]);
      RunKeeps(Step(b, es[0]), es[1..]);
    }
  }

  /** The lock is granted only when nobody owns it. */
  lemma MutualExclusion(es: seq<Event>, e: Event)
    requires Run(IDLE, es) && Enabled(After(IDLE, es), e) && Grant(After(IDLE, es), e).Some?
    ensures After(IDLE, es).owner == Nobody
    ensures Step(After(IDLE, es), e).owner in {Handed(Grant(After(IDLE, es), e).value.id),
                                               Running(Grant(After(IDLE, es), e).value.id)}
  {
    RunKeeps(IDLE, es);
  }

  /** A free lock with a live request that is not blocked has a scheduled _wake(), and that call grants. */
  lemma NoLostWakeUp(es: seq<Event>)
    requires Run(IDLE, es) && After(IDLE, es).owner == Nobody
    requires exists w :: w in After(IDLE, es).lock.waiters && MayGo(After(IDLE, es).lock, w)
    ensures Enabled(After(IDLE, es), Callback) && Grant(After(IDLE, es), Callback).Some?
  {
    var b := After(IDLE, es);
    RunKeeps(IDLE, es);
    var l := Unscheduled(b.lock);
    var w :| w in b.lock.waiters && MayGo(b.lock, w);
    assert Matches(b.lock, w, Unblocked) && Matches(l, w, Unblocked);
    WakeLeavesNoneWaiting(l);
  }

  /** An idle bus grants a request at once. */
  lemma IdleBusGrants(es: seq<Event>, e: Event)
    requires Run(IDLE, es) && Enabled(After(IDLE, es), e) && e.Request?
    requires After(IDLE, es).owner == Nobody && (forall w :: w in After(IDLE, es).lock.waiters ==> w.cancelled)
    requires e.unit.None? || e.unit.value !in After(IDLE, es).lock.sessions || e.context == e.unit
    ensures Step(After(IDLE, es), e).owner == Running(e.id)
  {
    RunKeeps(IDLE, es);
  }

  /** The request of the event, granted or queued. */
  predicate IsRequestOf(b: Bus, e: Event, w: Waiter)
    requires Enabled(b, e) && e.Request?
  {
    w.id == e.id && (Grant(b, e) == Some(w) || w in Step(b, e).lock.waiters)
  }

  /** A request is one of a session exactly if its task runs in the context of its unit while a session of the unit is
      open; a task which outlives the session makes ordinary requests. */
  lemma KindOfRequest(b: Bus, e: Event, w: Waiter)
    requires Enabled(b, e) && e.Request? && IsRequestOf(b, e, w)
    ensures w.unit == e.unit && !w.cancelled
    ensures w.inSession <==> e.unit.Some? && e.context == e.unit && e.unit.value in b.lock.sessions
  {
    var x := Waiter(e.id, e.unit, RunsInSession(b.lock, e.unit, e.context), false);
    assert forall v :: v in Queued(b.lock, x).waiters ==> v in b.lock.waiters || v == x;
    if !b.lock.locked {
      WakeLeavesNoneWaiting(Queued(b.lock, x));
    }
  }

  /** The end of acquire(): its task goes on with the lock, or gives up. */
  predicate EndsAcquire(b: Bus, e: Event)
    requires Enabled(b, e)
  {
    e.Resume? || e.CancelHanded? || e.CleanUp? ||
    (e.Request? && HasPending(b.lock) && Step(b, e).owner == Running(e.id))
  }

  /** Turns are left by the requests which leave: then each turn, and the other turn, has a live request. */
  lemma TurnsAreOfLive(b: Bus, e: Event, u: int)
    requires Inv(b) && Enabled(b, e) && EndsAcquire(b, e)
    ensures u in Step(b, e).lock.turns ==>
              exists w :: w in Step(b, e).lock.waiters && AwaitsTurn(w, u) && !w.cancelled
    ensures Step(b, e).lock.otherTurn ==> exists w :: w in Step(b, e).lock.waiters && !w.inSession && !w.cancelled
  {
    var l := Step(b, e).lock;
    if u in l.turns {
      assert Some(u) in Others(l.waiters);
    }
    if l.otherTurn {
      var o :| o in Others(l.waiters);
    }
  }

  /** A lock released, or a session ended, schedules one _wake() if a live request waits, else none. */
  lemma WakesExactly(b: Bus, e: Event)
    requires Enabled(b, e) && (e.Free? || e.Exit? || e.CancelHanded?)
    ensures Step(b, e).lock.scheduled ==
            b.lock.scheduled + if exists w :: w in b.lock.waiters && !w.cancelled then 1 else 0
  {
  }

  /** The end of a session undoes its start, also inside another one of the unit. */
  lemma ExitUndoesEnter(l: Lock, u: int)
    requires forall v :: v in l.sessions ==> l.sessions[v] > 0
    ensures u in EnterSession(l, u).sessions && EnterSession(l, u).sessions[u] > 0
    ensures ExitSession(EnterSession(l, u), u).sessions == l.sessions
  {
  }

  // ---- the isolation of a session ----

  /** A request of the unit outside its session is granted. */
  predicate GrantsOther(b: Bus, e: Event, u: int) {
    Grant(b, e).Some? && AwaitsTurn(Grant(b, e).value, u)
  }

  /** A request of the running session of the unit is granted. */
  predicate GrantsSession(b: Bus, e: Event, u: int) {
    u in b.lock.sessions && Grant(b, e).Some? && Grant(b, e).value.inSession && Grant(b, e).value.unit == Some(u)
  }

  /** Some step of the run, before the session of the unit ends, grants a request of the unit outside it. */
  predicate Intrudes(b: Bus, es: seq<Event>, u: int)
    requires Run(b, es)
    decreases |es|
  {
    es != [] && es[0] != Exit(u) && (GrantsOther(b, es[0], u) || Intrudes(Step(b, es[0]), es[1..], u))
  }

  /** A request of the unit outside its session arrives. */
  predicate ArrivesOutside(b: Bus, e: Event, u: int) {
    e.Request? && e.unit == Some(u) && !RunsInSession(b.lock, e.unit, e.context)
  }

  predicate HasCancelled(l: Lock, u: int) {
    exists w :: w in l.waiters && AwaitsTurn(w, u) && w.cancelled
  }

  /** No request of the unit outside its session arrives between the cancellation of another one and the run of its
      task, which removes it. */
  predicate Prompt(b: Bus, es: seq<Event>, u: int)
    requires Run(b, es)
    decreases |es|
  {
    es != [] ==>
      && !(ArrivesOutside(b, es[0], u) && HasCancelled(b.lock, u))
      && Prompt(Step(b, es[0]), es[1..], u)
  }

  /** Inside its session a unit is granted another request only by a turn left by an earlier session, which is used up,
      unless the request takes a free lock while a cancelled one of the unit is still in the deque. */
  lemma OtherGrantIsTurn(b: Bus, e: Event, u: int)
    requires Inv(b) && Enabled(b, e) && u in b.lock.sessions && GrantsOther(b, e, u)
    ensures u in b.lock.turns
    ensures u !in Step(b, e).lock.turns || (ArrivesOutside(b, e, u) && HasCancelled(b.lock, u))
  {
    if e.Request? {
      var w := Waiter(e.id, e.unit, RunsInSession(b.lock, e.unit, e.context), false);
      if TakesAtOnce(b.lock, e.unit, w.inSession) {
        TurnOfCancelled(b.lock, u);
      } else {
        WakeLeavesNoneWaiting(Queued(b.lock, w));
      }
    } else {
      WakeLeavesNoneWaiting(Unscheduled(b.lock));
    }
  }

  /** Without a live request of the unit its turn is the one of a cancelled request. */
  lemma TurnOfCancelled(l: Lock, u: int)
    requires TurnsBacked(l) && u in l.turns && forall w :: w in l.waiters && AwaitsTurn(w, u) ==> w.cancelled
    ensures HasCancelled(l, u)
  {
    var w :| w in l.waiters && AwaitsTurn(w, u);
  }

  /** A turn goes before every session: no request of a session is granted while a live request has a turn. */
  lemma TurnsGoFirst(b: Bus, e: Event)
    requires Inv(b) && Enabled(b, e) && Grant(b, e).Some?
    requires exists w :: w in b.lock.waiters && Matches(b.lock, w, TurnHolder)
    ensures !Grant(b, e).value.inSession && HasTurn(b.lock, Grant(b, e).value.unit)
  {
    var w :| w in b.lock.waiters && Matches(b.lock, w, TurnHolder);
    if e.Request? {
      var x := Waiter(e.id, e.unit, RunsInSession(b.lock, e.unit, e.context), false);
      var q := Queued(b.lock, x);
      assert w in q.waiters && Matches(q, w, TurnHolder);
    } else {
      assert Matches(Unscheduled(b.lock), w, TurnHolder);
    }
  }

  /** Without turns a waiting request of a session goes before all others, however late it came. */
  lemma SessionsGoBeforeOthers(b: Bus, e: Event)
    requires Inv(b) && Enabled(b, e) && Grant(b, e).Some?
    requires b.lock.turns == {} && !b.lock.otherTurn
    requires exists w :: w in b.lock.waiters && Matches(b.lock, w, OfSession)
    ensures Grant(b, e).value.inSession
  {
    var w :| w in b.lock.waiters && Matches(b.lock, w, OfSession);
    if e.Request? {
      var x := Waiter(e.id, e.unit, RunsInSession(b.lock, e.unit, e.context), false);
      var q := Queued(b.lock, x);
      assert w in q.waiters && Matches(q, w, OfSession);
    } else {
      assert Matches(Unscheduled(b.lock), w, OfSession);
    }
  }

  /** No live request could use the turn of the unit. */
  predicate Closed(b: Bus, u: int) {
    u in b.lock.sessions && (u in b.lock.turns ==> forall w :: w in b.lock.waiters && AwaitsTurn(w, u) ==> w.cancelled)
  }

  lemma ShrinkingStaysClosed(b: Bus, c: Bus, u: int)
    requires Closed(b, u)
    requires u in c.lock.sessions && (u in c.lock.turns ==> u in b.lock.turns)
    requires forall w :: w in c.lock.waiters ==> w.cancelled || w in b.lock.waiters
    ensures Closed(c, u)
  {
  }

  lemma StaysClosed(b: Bus, e: Event, u: int)
    requires Inv(b) && Enabled(b, e) && Closed(b, u) && e != Exit(u)
    requires ArrivesOutside(b, e, u) ==> u !in b.lock.turns
    ensures Closed(Step(b, e), u) && !GrantsOther(b, e, u)
    ensures u !in b.lock.turns ==> u !in Step(b, e).lock.turns
  {
    if e.Request? {
      RequestStaysClosed(b, e, u);
    } else {
      if GrantsOther(b, e, u) {
        OtherGrantIsTurn(b, e, u);
        WakeLeavesNoneWaiting(Unscheduled(b.lock));
      }
      ShrinksByStep(b, e, u);
      ShrinkingStaysClosed(b, Step(b, e), u);
    }
  }

  lemma SessionStays(b: Bus, e: Event, u: int)
    requires Enabled(b, e) && u in b.lock.sessions && e != Exit(u)
    ensures u in Step(b, e).lock.sessions
  {
  }

  lemma TurnsOfWake(l: Lock, u: int)
    ensures u in Wake(l).turns ==> u in l.turns
  {
  }

  lemma TurnsOfAcquire(l: Lock, id: nat, unit: Option<int>, context: Option<int>, u: int)
    ensures u in Acquire(l, id, unit, context).turns ==> u in l.turns
  {
    TurnsOfWake(Queued(l, Waiter(id, unit, RunsInSession(l, unit, context), false)), u);
  }

  lemma TurnsOfLeave(l: Lock, id: nat, u: int)
    ensures u in Leave(l, id).turns ==> u in l.turns
  {
  }

  lemma TurnsShrink(b: Bus, e: Event, u: int)
    requires Enabled(b, e) && e != Exit(u) && u in Step(b, e).lock.turns
    ensures u in b.lock.turns
  {
    match e
    case Request(id, unit, context) => TurnsOfAcquire(b.lock, id, unit, context, u);
    case Callback => TurnsOfWake(Unscheduled(b.lock), u);
    case Resume(id) => TurnsOfLeave(b.lock, id, u);
    case CancelHanded(id) => TurnsOfLeave(Release(b.lock), id, u);
    case CleanUp(id) => TurnsOfLeave(b.lock, id, u);
    case _ =>
  }

  lemma LiveWaitersStay(b: Bus, e: Event, w: Waiter)
    requires Enabled(b, e) && w in Step(b, e).lock.waiters && !w.cancelled && !(e.Request? && w.id == e.id)
    ensures w in b.lock.waiters
  {
  }

  lemma RequestGrantsNoOther(b: Bus, e: Event, u: int)
    requires Enabled(b, e) && Closed(b, u) && e.Request?
    requires ArrivesOutside(b, e, u) ==> u !in b.lock.turns
    ensures !GrantsOther(b, e, u)
  {
    var w := Waiter(e.id, e.unit, RunsInSession(b.lock, e.unit, e.context), false);
    if !b.lock.locked {
      WakeLeavesNoneWaiting(Queued(b.lock, w));
    }
  }

  lemma WaitersOfRequest(b: Bus, e: Event)
    requires Enabled(b, e) && e.Request?
    ensures forall x :: x in Step(b, e).lock.waiters ==>
              x in b.lock.waiters || x == Waiter(e.id, e.unit, RunsInSession(b.lock, e.unit, e.context), false)
  {
    var w := Waiter(e.id, e.unit, RunsInSession(b.lock, e.unit, e.context), false);
    assert forall x :: x in Queued(b.lock, w).waiters ==> x in b.lock.waiters || x == w;
  }

  lemma RequestStaysClosed(b: Bus, e: Event, u: int)
    requires Enabled(b, e) && Closed(b, u) && e.Request?
    requires ArrivesOutside(b, e, u) ==> u !in b.lock.turns
    ensures Closed(Step(b, e), u) && !GrantsOther(b, e, u)
    ensures u !in b.lock.turns ==> u !in Step(b, e).lock.turns
  {
    SessionStays(b, e, u);
    RequestGrantsNoOther(b, e, u);
    WaitersOfRequest(b, e);
    if u in Step(b, e).lock.turns {
      TurnsShrink(b, e, u);
    }
  }

  lemma ShrinksByStep(b: Bus, e: Event, u: int)
    requires Inv(b) && Enabled(b, e) && !e.Request? && e != Exit(u) && u in b.lock.sessions
    ensures u in Step(b, e).lock.sessions
    ensures u in Step(b, e).lock.turns ==> u in b.lock.turns
    ensures forall w :: w in Step(b, e).lock.waiters ==> w.cancelled || w in b.lock.waiters
  {
    SessionStays(b, e, u);
    if u in Step(b, e).lock.turns {
      TurnsShrink(b, e, u);
    }
    forall w | w in Step(b, e).lock.waiters
      ensures w.cancelled || w in b.lock.waiters
    {
      if !w.cancelled {
        LiveWaitersStay(b, e, w);
      }
    }
  }

  /** Once a request of the session was granted, nothing live can use a turn of its unit. */
  lemma SessionGrantCloses(b: Bus, e: Event, u: int)
    requires Inv(b) && Enabled(b, e) && GrantsSession(b, e, u)
    ensures Closed(Step(b, e), u)
  {
    var c := Step(b, e);
    forall w | w in c.lock.waiters && AwaitsTurn(w, u) && u in c.lock.turns ensures w.cancelled {
      if e.Request? {
        var x := Waiter(e.id, e.unit, RunsInSession(b.lock, e.unit, e.context), false);
        var q := Queued(b.lock, x);
        if !TakesAtOnce(b.lock, e.unit, x.inSession) {
          assert w in q.waiters && !Matches(q, w, TurnHolder);
        }
      } else {
        assert !Matches(Unscheduled(b.lock), w, TurnHolder);
      }
    }
  }

  lemma {:induction false} ClosedRun(b: Bus, es: seq<Event>, u: int)
    requires Inv(b) && Run(b, es) && Closed(b, u)
    requires Prompt(b, es, u) || u !in b.lock.turns
    ensures !Intrudes(b, es, u)
    decreases |es|
  {
    if es != [] && es[0] != Exit(u) {
      if u in b.lock.turns {
        TurnOfCancelled(b.lock, u);
      }
      StepKeeps(b, es[0]);
      StaysClosed(b, es[0], u);
      ClosedRun(Step(b, es[0]), es[1..], u);
    }
  }

  /** Session isolation: after the first granted request of a session no other request of its unit is granted
      until the session ends, in every run in which a cancelled request of the unit is removed before the next one. */
  lemma SessionIsolation(past: seq<Event>, e: Event, es: seq<Event>, u: int)
    requires Run(IDLE, past) && Enabled(After(IDLE, past), e) && GrantsSession(After(IDLE, past), e, u)
    requires Run(Step(After(IDLE, past), e), es) && Prompt(Step(After(IDLE, past), e), es, u)
    ensures !Intrudes(Step(After(IDLE, past), e), es, u)
  {
    var b := After(IDLE, past);
    RunKeeps(IDLE, past);
    StepKeeps(b, e);
    SessionGrantCloses(b, e, u);
    ClosedRun(Step(b, e), es, u);
  }

  /** The grants of other requests of the unit before its session ends. */
  function OtherGrants(b: Bus, es: seq<Event>, u: int): nat
    requires Run(b, es)
    decreases |es|
  {
    if es == [] || es[0] == Exit(u) then 0
    else (if GrantsOther(b, es[0], u) then 1 else 0) + OtherGrants(Step(b, es[0]), es[1..], u)
  }

  lemma {:induction false} NoneWithoutTurn(b: Bus, es: seq<Event>, u: int)
    requires Inv(b) && Run(b, es) && u in b.lock.sessions && u !in b.lock.turns
    ensures OtherGrants(b, es, u) == 0
    decreases |es|
  {
    if es != [] && es[0] != Exit(u) {
      StepKeeps(b, es[0]);
      StaysClosed(b, es[0], u);
      NoneWithoutTurn(Step(b, es[0]), es[1..], u);
    }
  }

  /** Inside one session at most one other request of its unit is granted, if a turn is left; by SessionIsolation that
      is before every request of the session. */
  lemma {:induction false} OneTurnPerSession(b: Bus, es: seq<Event>, u: int)
    requires Inv(b) && Run(b, es) && Prompt(b, es, u) && u in b.lock.sessions
    ensures OtherGrants(b, es, u) <= if u in b.lock.turns then 1 else 0
    decreases |es|
  {
    if u !in b.lock.turns {
      NoneWithoutTurn(b, es, u);
    } else if es != [] && es[0] != Exit(u) {
      StepKeeps(b, es[0]);
      SessionStays(b, es[0], u);
      if GrantsOther(b, es[0], u) {
        OtherGrantIsTurn(b, es[0], u);
        NoneWithoutTurn(Step(b, es[0]), es[1..], u);
      } else {
        OneTurnPerSession(Step(b, es[0]), es[1..], u);
      }
    }
  }

  /** From its start to its end. */
  lemma SessionHasOneTurn(past: seq<Event>, es: seq<Event>, u: int)
    requires Run(IDLE, past) && Enabled(After(IDLE, past), Enter(u))
    requires Run(Step(After(IDLE, past), Enter(u)), es) && Prompt(Step(After(IDLE, past), Enter(u)), es, u)
    ensures OtherGrants(Step(After(IDLE, past), Enter(u)), es, u) <= if u in After(IDLE, past).lock.turns then 1 else 0
  {
    RunKeeps(IDLE, past);
    StepKeeps(After(IDLE, past), Enter(u));
    OneTurnPerSession(Step(After(IDLE, past), Enter(u)), es, u);
  }

  // ---- without that assumption: exactly when a session is isolated ----

  lemma TurnStays(b: Bus, e: Event, w: Waiter, u: int)
    requires Inv(b) && Enabled(b, e)
    requires u in b.lock.turns && w in b.lock.waiters && AwaitsTurn(w, u) && !w.cancelled
    requires e.Resume? || e.Free? || (e.Callback? && Grant(b, e).Some? && !AwaitsTurn(Grant(b, e).value, u))
    ensures u in Step(b, e).lock.turns && w in Step(b, e).lock.waiters
    ensures Step(b, e).lock.sessions == b.lock.sessions
  {
    if e.Callback? {
      WakeLeavesNoneWaiting(Unscheduled(b.lock));
    } else if e.Resume? {
      assert Some(u) in Others(b.lock.waiters);
    }
  }

  lemma {:induction false} TurnIsReached(b: Bus, w: Waiter, u: int) returns (es: seq<Event>)
    requires Inv(b) && b.owner == Nobody && u in b.lock.turns && w in b.lock.waiters && AwaitsTurn(w, u) && !w.cancelled
    ensures Run(b, es) && Intrudes(b, es, u)
    decreases |b.lock.waiters|, 0
  {
    assert Matches(b.lock, w, Unblocked) && Matches(Unscheduled(b.lock), w, Unblocked);
    WakeLeavesNoneWaiting(Unscheduled(b.lock));
    StepKeeps(b, Callback);
    var c := Step(b, Callback);
    if GrantsOther(b, Callback, u) {
      es := [Callback];
    } else {
      TurnStays(b, Callback, w, u);
      var rest := OwnerLeaves(c, w, u);
      es := [Callback] + rest;
    }
  }

  lemma {:induction false} OwnerLeaves(b: Bus, w: Waiter, u: int) returns (es: seq<Event>)
    requires Inv(b) && b.owner != Nobody
    requires u in b.lock.turns && w in b.lock.waiters && AwaitsTurn(w, u) && !w.cancelled
    ensures Run(b, es) && Intrudes(b, es, u)
    decreases |b.lock.waiters|, if b.owner.Handed? then 2 else 1
  {
    var e := if b.owner.Handed? then Resume(b.owner.id) else Free(b.owner.id);
    StepKeeps(b, e);
    TurnStays(b, e, w, u);
    var rest;
    if e.Resume? {
      rest := OwnerLeaves(Step(b, e), w, u);
    } else {
      rest := TurnIsReached(Step(b, e), w, u);
    }
    es := [e] + rest;
  }

  function FreshId(ws: seq<Waiter>, than: nat): (id: nat)
    ensures id > than && Place(ws, id).None?
    ensures forall w :: w in ws ==> w.id < id
  {
    if ws == [] then than + 1
    else
      var rest := FreshId(ws[1..], than);
      if ws[0].id < rest then rest else ws[0].id + 1
  }

  /** From a state in which the unit has a turn some run breaks into its session. */
  lemma TurnIntrudes(b: Bus, u: int) returns (es: seq<Event>)
    requires Inv(b) && u in b.lock.sessions && u in b.lock.turns
    ensures Run(b, es) && Intrudes(b, es, u)
  {
    var id := FreshId(b.lock.waiters, if b.owner == Nobody then 0 else b.owner.id);
    var e := Request(id, Some(u), None);
    var w := Waiter(id, Some(u), false, false);
    var q := Queued(b.lock, w);
    StepKeeps(b, e);
    assert q.waiters[|b.lock.waiters|] == w;
    assert Matches(q, w, Unblocked) && Matches(q, w, TurnHolder);
    if !b.lock.locked {
      WakeLeavesNoneWaiting(q);
    }
    if GrantsOther(b, e, u) {
      es := [e];
    } else {
      var rest := OwnerLeaves(Step(b, e), w, u);
      es := [e] + rest;
    }
  }

  /** No run from here lets another request of the unit into its session. */
  ghost predicate Isolated(b: Bus, u: int) {
    forall es :: Run(b, es) ==> !Intrudes(b, es, u)
  }

  /** Exactly when a session is isolated from now on, whatever happens: its unit has no turn. */
  lemma IsolatedExactlyWithoutTurn(past: seq<Event>, u: int)
    requires Run(IDLE, past) && u in After(IDLE, past).lock.sessions
    ensures Isolated(After(IDLE, past), u) <==> u !in After(IDLE, past).lock.turns
  {
    var b := After(IDLE, past);
    RunKeeps(IDLE, past);
    if u in b.lock.turns {
      var es := TurnIntrudes(b, u);
      assert !Isolated(b, u);
    } else {
      forall es | Run(b, es) ensures !Intrudes(b, es, u) {
        ClosedRun(b, es, u);
      }
    }
  }

  /** A change, a scan waiting behind it, the end of the change, the scan cancelled, the next change. */
  const CANCELLED_SCAN: seq<Event> :=
    [Enter(1), Request(10, Some(1), Some(1)), Request(20, Some(1), None), Free(10), Exit(1), CancelWaiting(20),
     Enter(1)]

  const SCAN := Waiter(20, Some(1), false, false)

  /** The states of the bus before and after each of these events. */
  const CANCELLED_SCAN_STATES: seq<Bus> := [
    IDLE,
    Bus(Lock(false, [], map[1 := 1], {}, false, 0), Nobody),
    Bus(Lock(true, [], map[1 := 1], {}, false, 0), Running(10)),
    Bus(Lock(true, [SCAN], map[1 := 1], {}, false, 0), Running(10)),
    Bus(Lock(false, [SCAN], map[1 := 1], {}, false, 1), Nobody),
    Bus(Lock(false, [SCAN], map[], {1}, false, 2), Nobody),
    Bus(Lock(false, [SCAN.(cancelled := true)], map[], {1}, false, 2), Nobody),
    Bus(Lock(false, [SCAN.(cancelled := true)], map[1 := 1], {1}, false, 2), Nobody)]

  lemma CancelledScanSteps(i: nat)
    requires i < |CANCELLED_SCAN|
    ensures Enabled(CANCELLED_SCAN_STATES[i], CANCELLED_SCAN[i])
    ensures Step(CANCELLED_SCAN_STATES[i], CANCELLED_SCAN[i]) == CANCELLED_SCAN_STATES[i + 1]
  {
    assert SCAN in [SCAN];
    assert Others([SCAN]) == {Some(1)};
    assert Waiter(20, Some(1), false, false) == SCAN;
    if i == 4 {
      assert map[1 := 1] - {1} == map[];
    }
  }

  /** The assumption of SessionIsolation is needed by the lock: the turn of a cancelled scan outlives it until its task
      runs, the first request of the next change is granted meanwhile and a second other request of the unit breaks into
      its session. */
  lemma CancelledScanLeavesTurn()
    ensures Run(IDLE, CANCELLED_SCAN)
    ensures var b := After(IDLE, CANCELLED_SCAN);
            var e := Request(11, Some(1), Some(1));
            Enabled(b, e) && GrantsSession(b, e, 1) && !Isolated(Step(b, e), 1)
  {
    forall i | 0 <= i < |CANCELLED_SCAN| {
      CancelledScanSteps(i);
    }
    UnfoldRun(CANCELLED_SCAN, CANCELLED_SCAN_STATES);
    RunKeeps(IDLE, CANCELLED_SCAN);
    CancelledScanEnd();
  }

  lemma CancelledScanEnd()
    requires Inv(CANCELLED_SCAN_STATES[7])
    ensures var b := CANCELLED_SCAN_STATES[7];
            var e := Request(11, Some(1), Some(1));
            Enabled(b, e) && GrantsSession(b, e, 1) && !Isolated(Step(b, e), 1)
  {
    var b := CANCELLED_SCAN_STATES[7];
    var e := Request(11, Some(1), Some(1));
    StepKeeps(b, e);
    var rest := TurnIntrudes(Step(b, e), 1);
    assert !Isolated(Step(b, e), 1);
  }

  lemma {:induction false} UnfoldRun(es: seq<Event>, bs: seq<Bus>)
    requires |bs| == |es| + 1
    requires forall i :: 0 <= i < |es| ==> Enabled(bs[i], es[i]) && Step(bs[i], es[i]) == bs[i + 1]
    ensures Run(bs[0], es) && After(bs[0], es) == bs[|es|]
    decreases |es|
  {
    if es != [] {
      UnfoldRun(es[1..], bs[1..]);
    }
  }

  // ---- no overtaking ----

  /** The live requests before the request in the deque. */
  function Ahead(ws: seq<Waiter>, id: nat): nat {
    if ws == [] || ws[0].id == id then 0
    else (if ws[0].cancelled then 0 else 1) + Ahead(ws[1..], id)
  }

  /** A request waits and could be granted at once by a free lock. */
  predicate Waits(l: Lock, id: nat) {
    var i := Place(l.waiters, id);
    i.Some? && MayGo(l, l.waiters[i.value])
  }

  predicate GrantsOutOfTurn(b: Bus, e: Event) {
    Grant(b, e).Some? && (Grant(b, e).value.inSession || !HasTurn(b.lock, Grant(b, e).value.unit))
  }

  /** A grant in the order after a session: `otherTurn` is set, and it is not a turn. */
  predicate GrantsInOrder(b: Bus, e: Event) {
    b.lock.otherTurn && GrantsOutOfTurn(b, e)
  }

  function InOrder(b: Bus, es: seq<Event>): nat
    requires Run(b, es)
    decreases |es|
  {
    if es == [] then 0 else (if GrantsInOrder(b, es[0]) then 1 else 0) + InOrder(Step(b, es[0]), es[1..])
  }

  /** The request waits in the whole run, not blocked by a session of its unit. */
  predicate StaysWaiting(b: Bus, es: seq<Event>, id: nat)
    requires Run(b, es)
    decreases |es|
  {
    Waits(b.lock, id) && (es != [] ==> StaysWaiting(Step(b, es[0]), es[1..], id))
  }

  lemma {:induction false} AheadOfRest(ws: seq<Waiter>, id: nat, i: nat)
    requires i < |ws| && Place(ws, id).Some? && i != Place(ws, id).value
    ensures Ahead(RemoveAt(ws, i), id) ==
            Ahead(ws, id) - (if i < Place(ws, id).value && !ws[i].cancelled then 1 else 0)
    ensures Place(RemoveAt(ws, i), id).Some?
    ensures RemoveAt(ws, i)[Place(RemoveAt(ws, i), id).value] == ws[Place(ws, id).value]
  {
    var r := RemoveAt(ws, i);
    if ws[0].id == id {
      assert r[0] == ws[0];
    } else if i == 0 {
      assert r == ws[1..];
    } else {
      assert r == [ws[0]] + RemoveAt(ws[1..], i - 1);
      AheadOfRest(ws[1..], id, i - 1);
    }
  }

  lemma {:induction false} AheadOfQueued(ws: seq<Waiter>, id: nat, w: Waiter)
    requires Place(ws, id).Some?
    ensures Ahead(ws + [w], id) == Ahead(ws, id) && Place(ws + [w], id) == Place(ws, id)
  {
    if ws[0].id != id {
      assert (ws + [w])[1..] == ws[1..] + [w];
      AheadOfQueued(ws[1..], id, w);
    }
  }

  lemma {:induction false} AheadOfCancelled(ws: seq<Waiter>, id: nat, i: nat)
    requires i < |ws|
    ensures Ahead(ws[i := ws[i].(cancelled := true)], id) <= Ahead(ws, id)
  {
    var c := ws[i := ws[i].(cancelled := true)];
    if ws[0].id != id {
      if i == 0 {
        assert c[1..] == ws[1..];
      } else {
        assert c[1..] == ws[1..][i - 1 := ws[i].(cancelled := true)];
        AheadOfCancelled(ws[1..], id, i - 1);
      }
    }
  }

  predicate OutOfTurn(l: Lock) {
    WakeGrant(l).Some? && (WakeGrant(l).value.inSession || !HasTurn(l, WakeGrant(l).value.unit))
  }

  /** While another request goes first, _wake() serves the turns and then the order of arrival. */
  lemma WakeInOrder(l: Lock, id: nat)
    requires DistinctIds(l.waiters) && !l.locked && Waits(l, id)
    requires Place(Wake(l).waiters, id).Some?
    ensures Ahead(Wake(l).waiters, id) <= Ahead(l.waiters, id) - (if l.otherTurn && OutOfTurn(l) then 1 else 0)
  {
    var p := Place(l.waiters, id).value;
    assert l.waiters[p] in l.waiters;
    var i := Chosen(l).value;
    if i == p {
      RemovedIds(l.waiters, i);
      assert false;
    }
    AheadOfRest(l.waiters, id, i);
  }

  lemma RequestAhead(b: Bus, e: Event, id: nat)
    requires Inv(b) && Enabled(b, e) && e.Request? && Waits(b.lock, id) && Waits(Step(b, e).lock, id)
    ensures Ahead(Step(b, e).lock.waiters, id) + (if GrantsInOrder(b, e) then 1 else 0) <= Ahead(b.lock.waiters, id)
  {
    var l, w := b.lock, Waiter(e.id, e.unit, RunsInSession(b.lock, e.unit, e.context), false);
    assert l.waiters[Place(l.waiters, id).value] in l.waiters;
    AheadOfQueued(l.waiters, id, w);
    if !l.locked {
      QueuedKeeps(b, w);
      WakeInOrder(Queued(l, w), id);
    }
  }

  lemma CallbackAhead(b: Bus, id: nat)
    requires Inv(b) && Enabled(b, Callback) && Waits(b.lock, id) && Waits(Step(b, Callback).lock, id)
    ensures Ahead(Step(b, Callback).lock.waiters, id) + (if GrantsInOrder(b, Callback) then 1 else 0) <=
            Ahead(b.lock.waiters, id)
  {
    if !b.lock.locked {
      WakeInOrder(Unscheduled(b.lock), id);
    }
  }

  lemma LeaveAhead(l: Lock, x: nat, id: nat)
    requires DistinctIds(l.waiters) && Place(l.waiters, id).Some? && Place(Leave(l, x).waiters, id).Some?
    ensures Ahead(Leave(l, x).waiters, id) <= Ahead(l.waiters, id)
  {
    LeaveKeeps(l, x);
    if Place(l.waiters, x).Some? && x != id {
      AheadOfRest(l.waiters, id, Place(l.waiters, x).value);
    }
  }

  /** No request comes before a waiting one, and each grant in the order is of one before it. */
  lemma AheadByStep(b: Bus, e: Event, id: nat)
    requires Inv(b) && Enabled(b, e) && Waits(b.lock, id) && Waits(Step(b, e).lock, id)
    ensures Ahead(Step(b, e).lock.waiters, id) + (if GrantsInOrder(b, e) then 1 else 0) <= Ahead(b.lock.waiters, id)
  {
    match e
    case Request(_, _, _) => RequestAhead(b, e, id);
    case Callback => CallbackAhead(b, id);
    case Resume(x) => LeaveAhead(b.lock, x, id);
    case CancelHanded(x) => LeaveAhead(Release(b.lock), x, id);
    case CancelWaiting(x) => AheadOfCancelled(b.lock.waiters, id, Place(b.lock.waiters, x).value);
    case CleanUp(x) => LeaveAhead(b.lock, x, id);
    case _ =>
  }

  lemma {:induction false} NoOvertakingFrom(b: Bus, es: seq<Event>, id: nat)
    requires Inv(b) && Run(b, es) && StaysWaiting(b, es, id)
    ensures InOrder(b, es) + Ahead(After(b, es).lock.waiters, id) <= Ahead(b.lock.waiters, id)
    decreases |es|
  {
    if es != [] {
      AheadByStep(b, es[0], id);
      StepKeeps(b, es[0]);
      NoOvertakingFrom(Step(b, es[0]), es[1..], id);
    }
  }

  /** A stream of changes does not stop a scan: while a request with k live requests before it waits, not blocked, at
      most k grants which are not turns are made while `otherTurn` is set. */
  lemma NoOvertaking(past: seq<Event>, es: seq<Event>, id: nat)
    requires Run(IDLE, past) && Run(After(IDLE, past), es) && StaysWaiting(After(IDLE, past), es, id)
    ensures InOrder(After(IDLE, past), es) + Ahead(After(After(IDLE, past), es).lock.waiters, id) <=
            Ahead(After(IDLE, past).lock.waiters, id)
  {
    RunKeeps(IDLE, past);
    NoOvertakingFrom(After(IDLE, past), es, id);
  }

  /** `otherTurn` is cleared only by a grant outside the sessions and the turns, or when no such request waits. */
  lemma OtherTurnEndsByGrant(b: Bus, e: Event)
    requires Inv(b) && Enabled(b, e) && b.lock.otherTurn && !Step(b, e).lock.otherTurn
    ensures (GrantsOutOfTurn(b, e) && !Grant(b, e).value.inSession) || Others(Step(b, e).lock.waiters) == {}
  {
  }

  /** The unit of a waiting request outside the sessions. */
  predicate WaitsOutside(l: Lock, id: nat, unit: Option<int>) {
    Waits(l, id) && !l.waiters[Place(l.waiters, id).value].inSession &&
    l.waiters[Place(l.waiters, id).value].unit == unit
  }

  /** A session of another unit ends. */
  predicate EndsOther(e: Event, unit: Option<int>) {
    e.Exit? && unit != Some(e.u)
  }

  /** The ended sessions of other units, each followed by a grant which is not a turn; `ended` is whether one has ended
      since the last such grant. */
  function Rounds(b: Bus, es: seq<Event>, unit: Option<int>, ended: bool): nat
    requires Run(b, es)
    decreases |es|
  {
    if es == [] then 0
    else
      var grants := GrantsOutOfTurn(b, es[0]);
      (if ended && grants then 1 else 0) +
      Rounds(Step(b, es[0]), es[1..], unit, EndsOther(es[0], unit) || (ended && !grants))
  }

  lemma EndedLeavesOtherTurn(b: Bus, e: Event, id: nat, unit: Option<int>, ended: bool)
    requires Inv(b) && Enabled(b, e) && WaitsOutside(b.lock, id, unit) && Waits(Step(b, e).lock, id)
    requires WaitsOutside(Step(b, e).lock, id, unit)
    requires ended ==> b.lock.otherTurn
    ensures EndsOther(e, unit) || (ended && !GrantsOutOfTurn(b, e)) ==> Step(b, e).lock.otherTurn
  {
    var w := b.lock.waiters[Place(b.lock.waiters, id).value];
    var x := Step(b, e).lock.waiters[Place(Step(b, e).lock.waiters, id).value];
    assert w.unit in Others(b.lock.waiters) && x.unit in Others(Step(b, e).lock.waiters);
    if b.lock.otherTurn && !Step(b, e).lock.otherTurn {
      OtherTurnEndsByGrant(b, e);
    }
  }

  lemma SameId(ws: seq<Waiter>, w: Waiter, id: nat)
    requires DistinctIds(ws) && w in ws && w.id == id && Place(ws, id).Some?
    ensures ws[Place(ws, id).value] == w
  {
  }

  /** The waiter stays the same one. */
  lemma WaitsAsTheSame(b: Bus, e: Event, id: nat, unit: Option<int>)
    requires DistinctIds(b.lock.waiters) && Enabled(b, e) && WaitsOutside(b.lock, id, unit) &&
             Waits(Step(b, e).lock, id)
    ensures WaitsOutside(Step(b, e).lock, id, unit)
  {
    var w := Step(b, e).lock.waiters[Place(Step(b, e).lock.waiters, id).value];
    LiveWaitersStay(b, e, w);
    SameId(b.lock.waiters, w, id);
  }

  lemma {:induction false} RoundsAreBounded(b: Bus, es: seq<Event>, id: nat, unit: Option<int>, ended: bool)
    requires Inv(b) && Run(b, es) && StaysWaiting(b, es, id) && WaitsOutside(b.lock, id, unit)
    requires ended ==> b.lock.otherTurn
    ensures Rounds(b, es, unit, ended) <= InOrder(b, es)
    decreases |es|
  {
    if es != [] {
      StepKeeps(b, es[0]);
      WaitsAsTheSame(b, es[0], id, unit);
      EndedLeavesOtherTurn(b, es[0], id, unit, ended);
      RoundsAreBounded(Step(b, es[0]), es[1..], id, unit,
                       EndsOther(es[0], unit) || (ended && !GrantsOutOfTurn(b, es[0])));
    }
  }

  /** A scan with k live requests before it sees at most k ended sessions of other units, each with a grant after it
      which is not a turn, before its own grant, however many changes come. */
  lemma SessionsBeforeGrant(past: seq<Event>, es: seq<Event>, id: nat, unit: Option<int>)
    requires Run(IDLE, past) && Run(After(IDLE, past), es) && StaysWaiting(After(IDLE, past), es, id)
    requires WaitsOutside(After(IDLE, past).lock, id, unit)
    ensures Rounds(After(IDLE, past), es, unit, false) <= Ahead(After(IDLE, past).lock.waiters, id)
  {
    RunKeeps(IDLE, past);
    RoundsAreBounded(After(IDLE, past), es, id, unit, false);
    NoOvertaking(past, es, id);
  }

  // ---- the changes are not overtaken either ----

  predicate SessionWaits(l: Lock) {
    exists w :: w in l.waiters && Matches(l, w, OfSession)
  }

  /** The lock is granted neither to a session nor by a turn. */
  predicate GrantsOutside(b: Bus, e: Event) {
    GrantsOutOfTurn(b, e) && !Grant(b, e).value.inSession
  }

  function CountOutside(b: Bus, es: seq<Event>): nat
    requires Run(b, es)
    decreases |es|
  {
    if es == [] then 0 else (if GrantsOutside(b, es[0]) then 1 else 0) + CountOutside(Step(b, es[0]), es[1..])
  }

  function CountExits(es: seq<Event>): nat {
    if es == [] then 0 else (if es[0].Exit? then 1 else 0) + CountExits(es[1..])
  }

  /** A live request of a session waits before every event of the run. */
  predicate SessionStaysWaiting(b: Bus, es: seq<Event>)
    requires Run(b, es)
    decreases |es|
  {
    es != [] ==> SessionWaits(b.lock) && SessionStaysWaiting(Step(b, es[0]), es[1..])
  }

  lemma WakeUsesOtherTurn(l: Lock)
    requires !l.locked && SessionWaits(l) && WakeGrant(l).Some?
    requires !WakeGrant(l).value.inSession && !HasTurn(l, WakeGrant(l).value.unit)
    ensures l.otherTurn && !Wake(l).otherTurn
  {
  }

  /** A request before the waiting sessions uses up the other turn, which only the end of a session sets again. */
  lemma OutsideUsesOtherTurn(b: Bus, e: Event)
    requires Enabled(b, e) && SessionWaits(b.lock)
    ensures GrantsOutside(b, e) ==> b.lock.otherTurn && !Step(b, e).lock.otherTurn
    ensures Step(b, e).lock.otherTurn ==> b.lock.otherTurn || e.Exit?
  {
    if GrantsOutside(b, e) {
      var s :| s in b.lock.waiters && Matches(b.lock, s, OfSession);
      if e.Request? {
        var q := Queued(b.lock, Waiter(e.id, e.unit, RunsInSession(b.lock, e.unit, e.context), false));
        assert s in q.waiters && Matches(q, s, OfSession);
        WakeUsesOtherTurn(q);
      } else {
        var l := Unscheduled(b.lock);
        assert s in l.waiters && Matches(l, s, OfSession);
        WakeUsesOtherTurn(l);
      }
    }
  }

  lemma {:induction false} OutsideIsBounded(b: Bus, es: seq<Event>)
    requires Run(b, es) && SessionStaysWaiting(b, es)
    ensures CountOutside(b, es) <= CountExits(es) + if b.lock.otherTurn then 1 else 0
    decreases |es|
  {
    if es != [] {
      OutsideUsesOtherTurn(b, es[0]);
      OutsideIsBounded(Step(b, es[0]), es[1..]);
    }
  }

  /** A stream of scans does not stop a change: while a request of a session waits, at most one request which is of no
      session and has no turn is granted for each session which ends, and one more if the other turn was set before. */
  lemma ChangesGoBeforeScans(past: seq<Event>, es: seq<Event>)
    requires Run(IDLE, past) && Run(After(IDLE, past), es) && SessionStaysWaiting(After(IDLE, past), es)
    ensures CountOutside(After(IDLE, past), es) <=
            CountExits(es) + if After(IDLE, past).lock.otherTurn then 1 else 0
  {
    OutsideIsBounded(After(IDLE, past), es);
  }

  // ---- the order of arrival ----

  predicate IsTurn(l: Lock, w: Waiter) {
    !w.inSession && HasTurn(l, w.unit)
  }

  /** Why w may be served before v, which came earlier and is not blocked: it has a turn, or it is of a session and no
      request outside the sessions is due; and v has no turn. */
  predicate Passes(l: Lock, w: Waiter, v: Waiter) {
    !IsTurn(l, v) && (IsTurn(l, w) || (w.inSession && !v.inSession && !l.otherTurn))
  }

  /** The request of _wake() is the first of its kind, and no other kind goes before it. */
  lemma ServedInOrder(l: Lock, j: nat)
    requires !l.locked && j < |l.waiters| && Matches(l, l.waiters[j], Unblocked)
    ensures Chosen(l).Some? && Matches(l, l.waiters[Chosen(l).value], Unblocked)
    ensures j < Chosen(l).value ==> Passes(l, l.waiters[Chosen(l).value], l.waiters[j])
    ensures Chosen(l).value < j ==> !Passes(l, l.waiters[j], l.waiters[Chosen(l).value])
  {
    assert l.waiters[j] in l.waiters;
    WakeLeavesNoneWaiting(l);
    assert Grantable(l);
  }

  /** x came before y. */
  predicate Before(ws: seq<Waiter>, x: nat, y: nat) {
    exists i, j :: 0 <= i < j < |ws| && ws[i].id == x && ws[j].id == y
  }

  lemma BeforeIsOfPlaces(ws: seq<Waiter>, x: nat, y: nat)
    requires DistinctIds(ws)
    ensures Before(ws, x, y) <==>
            Place(ws, x).Some? && Place(ws, y).Some? && Place(ws, x).value < Place(ws, y).value
  {
  }

  lemma RemovedStaysBefore(ws: seq<Waiter>, k: nat, x: nat, y: nat)
    requires k < |ws| && Before(ws, x, y) && ws[k].id != x && ws[k].id != y
    ensures Before(RemoveAt(ws, k), x, y)
  {
    var i, j :| 0 <= i < j < |ws| && ws[i].id == x && ws[j].id == y;
    var r := RemoveAt(ws, k);
    var m, n := if k < i then i - 1 else i, if k < j then j - 1 else j;
    assert r[m] == ws[i] && r[n] == ws[j];
  }

  lemma QueuedStaysBefore(ws: seq<Waiter>, w: Waiter, x: nat, y: nat)
    requires Before(ws, x, y)
    ensures Before(ws + [w], x, y)
  {
    var i, j :| 0 <= i < j < |ws| && ws[i].id == x && ws[j].id == y;
    assert (ws + [w])[i] == ws[i] && (ws + [w])[j] == ws[j];
  }

  lemma CancelledStaysBefore(ws: seq<Waiter>, k: nat, x: nat, y: nat)
    requires k < |ws| && Before(ws, x, y)
    ensures Before(ws[k := ws[k].(cancelled := true)], x, y)
  {
    var i, j :| 0 <= i < j < |ws| && ws[i].id == x && ws[j].id == y;
    var c := ws[k := ws[k].(cancelled := true)];
    assert c[i].id == x && c[j].id == y;
  }

  predicate InDeque(ws: seq<Waiter>, x: nat, y: nat) {
    Place(ws, x).Some? && Place(ws, y).Some?
  }

  lemma WakeStaysBefore(l: Lock, x: nat, y: nat)
    requires DistinctIds(l.waiters) && Before(l.waiters, x, y) && InDeque(Wake(l).waiters, x, y)
    ensures Before(Wake(l).waiters, x, y)
  {
    if !l.locked && Chosen(l).Some? {
      RemovedIds(l.waiters, Chosen(l).value);
      RemovedStaysBefore(l.waiters, Chosen(l).value, x, y);
    }
  }

  lemma LeaveStaysBefore(l: Lock, id: nat, x: nat, y: nat)
    requires DistinctIds(l.waiters) && Before(l.waiters, x, y) && InDeque(Leave(l, id).waiters, x, y)
    ensures Before(Leave(l, id).waiters, x, y)
  {
    LeaveKeeps(l, id);
    if Place(l.waiters, id).Some? {
      RemovedStaysBefore(l.waiters, Place(l.waiters, id).value, x, y);
    }
  }

  lemma StepStaysBefore(b: Bus, e: Event, x: nat, y: nat)
    requires Inv(b) && Enabled(b, e) && Before(b.lock.waiters, x, y) && InDeque(Step(b, e).lock.waiters, x, y)
    ensures Before(Step(b, e).lock.waiters, x, y)
  {
    match e
    case Request(id, unit, context) =>
      var w := Waiter(id, unit, RunsInSession(b.lock, unit, context), false);
      QueuedStaysBefore(b.lock.waiters, w, x, y);
      QueuedKeeps(b, w);
      if !TakesAtOnce(b.lock, unit, w.inSession) {
        WakeStaysBefore(Queued(b.lock, w), x, y);
      }
    case Callback => WakeStaysBefore(Unscheduled(b.lock), x, y);
    case Resume(id) => LeaveStaysBefore(b.lock, id, x, y);
    case CancelHanded(id) => LeaveStaysBefore(Release(b.lock), id, x, y);
    case CancelWaiting(id) => CancelledStaysBefore(b.lock.waiters, Place(b.lock.waiters, id).value, x, y);
    case CleanUp(id) => LeaveStaysBefore(b.lock, id, x, y);
    case _ =>
  }

  /** The grant of y, if the event is one, is for a reason to pass x. */
  predicate GrantPasses(b: Bus, e: Event, x: nat, y: nat)
    requires Place(b.lock.waiters, x).Some?
  {
    Grant(b, e).Some? && Grant(b, e).value.id == y ==>
      Passes(b.lock, Grant(b, e).value, b.lock.waiters[Place(b.lock.waiters, x).value])
  }

  lemma WakePasses(l: Lock, x: nat, y: nat)
    requires DistinctIds(l.waiters) && Waits(l, x) && Before(l.waiters, x, y)
    requires WakeGrant(l).Some? && WakeGrant(l).value.id == y
    ensures Passes(l, WakeGrant(l).value, l.waiters[Place(l.waiters, x).value])
  {
    BeforeIsOfPlaces(l.waiters, x, y);
    ServedInOrder(l, Place(l.waiters, x).value);
  }

  lemma StepPasses(b: Bus, e: Event, x: nat, y: nat)
    requires Inv(b) && Enabled(b, e) && Waits(b.lock, x) && Before(b.lock.waiters, x, y)
    ensures GrantPasses(b, e, x, y)
  {
    if Grant(b, e).Some? && Grant(b, e).value.id == y {
      BeforeIsOfPlaces(b.lock.waiters, x, y);
      if e.Request? {
        var w := Waiter(e.id, e.unit, RunsInSession(b.lock, e.unit, e.context), false);
        QueuedStaysBefore(b.lock.waiters, w, x, y);
        QueuedKeeps(b, w);
        AheadOfQueued(b.lock.waiters, x, w);
        WakePasses(Queued(b.lock, w), x, y);
      } else {
        WakePasses(Unscheduled(b.lock), x, y);
      }
    }
  }

  /** While both wait, every grant of y passes x for a reason. */
  predicate PassesOnly(b: Bus, es: seq<Event>, x: nat, y: nat)
    requires Run(b, es)
    decreases |es|
  {
    InDeque(b.lock.waiters, x, y) && es != [] ==>
      GrantPasses(b, es[0], x, y) && PassesOnly(Step(b, es[0]), es[1..], x, y)
  }

  lemma {:induction false} PassesOnlyFrom(b: Bus, es: seq<Event>, x: nat, y: nat)
    requires Inv(b) && Run(b, es) && StaysWaiting(b, es, x) && Before(b.lock.waiters, x, y)
    ensures PassesOnly(b, es, x, y)
    decreases |es|
  {
    if es != [] {
      StepPasses(b, es[0], x, y);
      if InDeque(Step(b, es[0]).lock.waiters, x, y) {
        StepStaysBefore(b, es[0], x, y);
        StepKeeps(b, es[0]);
        PassesOnlyFrom(Step(b, es[0]), es[1..], x, y);
      }
    }
  }

  /** The order of arrival: a request which came later is granted before one which waits, not blocked, only by a turn,
      or for a session before a request outside the sessions. */
  lemma ArrivalOrder(past: seq<Event>, es: seq<Event>, x: nat, y: nat)
    requires Run(IDLE, past) && Run(After(IDLE, past), es) && StaysWaiting(After(IDLE, past), es, x)
    requires Before(After(IDLE, past).lock.waiters, x, y)
    ensures PassesOnly(After(IDLE, past), es, x, y)
  {
    RunKeeps(IDLE, past);
    PassesOnlyFrom(After(IDLE, past), es, x, y);
  }

  predicate LiveOther(w: Waiter) {
    !w.cancelled && !w.inSession
  }

  /** The end of a session gives a turn to its unit, and the other turn, exactly if such a request waits. */
  lemma ExitSetsTurns(b: Bus, u: int, v: int)
    requires Enabled(b, Exit(u))
    ensures v in Step(b, Exit(u)).lock.turns <==>
            v in b.lock.turns || (v == u && exists w :: w in b.lock.waiters && LiveOther(w) && w.unit == Some(u))
    ensures Step(b, Exit(u)).lock.otherTurn <==>
            b.lock.otherTurn || exists w :: w in b.lock.waiters && LiveOther(w) && w.unit != Some(u)
  {
    var others := Others(b.lock.waiters);
    assert forall w :: w in b.lock.waiters && LiveOther(w) ==> w.unit in others;
    if o :| o in others && o != Some(u) {
      var w :| w in b.lock.waiters && LiveOther(w) && w.unit == o;
    }
    if Some(u) in others {
      var w :| w in b.lock.waiters && LiveOther(w) && w.unit == Some(u);
    }
  }
}
