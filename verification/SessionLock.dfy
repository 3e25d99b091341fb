/** The lock of a bus with the sessions of its units, src/evok/modbus/transport.py.

    `Lock` is the abstract value of the lock and the functions on it say what one atomic block of the
    source (the code between two awaits) does to it. `SessionLock` is the object with the fields of
    the source; each of its methods is proved against one of the functions. */
module SessionLocks {
  import opened Common

  /** A request in the deque of the waiters: the unit of the request (None for a holder of the whole bus)
      and whether it runs in the session of its unit. `cancelled`: its future is cancelled, but its task
      has not run since, so it is still in the deque. */
  datatype Waiter = Waiter(id: nat, unit: Option<int>, inSession: bool, cancelled: bool)

  datatype Lock = Lock(
    locked: bool,
    waiters: seq<Waiter>,
    sessions: map<int, nat>,
    turns: set<int>,
    otherTurn: bool,
    scheduled: nat)  // the calls of _wake() queued in the event loop

  const FREE := Lock(false, [], map[], {}, false, 0)

  predicate HasPending(l: Lock) {
    exists w :: w in l.waiters && !w.cancelled
  }

  /** The units of the live requests outside a session. */
  function Others(ws: seq<Waiter>): set<Option<int>> {
    set w | w in ws && !w.cancelled && !w.inSession :: w.unit
  }

  predicate HasTurn(l: Lock, unit: Option<int>) {
    unit.Some? && unit.value in l.turns
  }

  predicate Blocked(l: Lock, unit: Option<int>, inSession: bool) {
    !inSession && unit.Some? && unit.value in l.sessions && unit.value !in l.turns
  }

  /** The three searches of _wake() over the pending requests. */
  datatype Search = TurnHolder | Unblocked | OfSession

  predicate Matches(l: Lock, w: Waiter, search: Search) {
    !w.cancelled &&
    match search
    case TurnHolder => !w.inSession && HasTurn(l, w.unit)
    case Unblocked => !Blocked(l, w.unit, w.inSession)
    case OfSession => w.inSession
  }

  /** The first match in the order of arrival. */
  function First(l: Lock, ws: seq<Waiter>, search: Search): (r: Option<nat>)
    ensures r.None? ==> forall w :: w in ws ==> !Matches(l, w, search)
    ensures r.Some? ==> r.value < |ws| && Matches(l, ws[r.value], search)
    ensures r.Some? ==> forall i :: 0 <= i < r.value ==> !Matches(l, ws[i], search)
  {
    if ws == [] then None
    else if Matches(l, ws[0], search) then Some(0)
    else match First(l, ws[1..], search) case None => None case Some(i) => Some(i + 1)
  }

  function OrElse<T>(a: Option<T>, b: Option<T>): Option<T> {
    if a.Some? then a else b
  }

  /** The place of the next owner: a turn left by a session, after a session the first request which is not
      blocked, a request of a session, and last the first request which is not blocked. */
  function Chosen(l: Lock): Option<nat> {
    OrElse(First(l, l.waiters, TurnHolder),
           OrElse(if l.otherTurn then First(l, l.waiters, Unblocked) else None,
                  OrElse(First(l, l.waiters, OfSession), First(l, l.waiters, Unblocked))))
  }

  function RemoveAt(ws: seq<Waiter>, i: nat): (r: seq<Waiter>)
    requires i < |ws|
    ensures |r| == |ws| - 1
    ensures forall w :: w in r ==> w in ws
    ensures forall w :: w in ws ==> w == ws[i] || w in r
  {
    assert ws == ws[..i] + [ws[i]] + ws[i + 1..];
    ws[..i] + ws[i + 1..]
  }

  /** The waiter the lock is handed to by _wake(). */
  function WakeGrant(l: Lock): Option<Waiter> {
    if l.locked then None
    else match Chosen(l) case None => None case Some(i) => Some(l.waiters[i])
  }

  function Wake(l: Lock): Lock {
    if l.locked || Chosen(l).None? then l
    else
      var i := Chosen(l).value;
      var w := l.waiters[i];
      var turn := !w.inSession && HasTurn(l, w.unit);
      l.(locked := true,
      waiters := RemoveAt(l.waiters, i),
      turns := if turn then l.turns - {w.unit.value} else l.turns,
      otherTurn := l.otherTurn && (w.inSession || turn))
  }

  function Schedule(l: Lock): Lock {
    if HasPending(l) then l.(scheduled := l.scheduled + 1) else l
  }

  /** A turn is kept only with a live request of its unit. */
  function Prune(l: Lock): Lock {
    var others := Others(l.waiters);
    l.(turns := (set u | u in l.turns && Some(u) in others),
    otherTurn := l.otherTurn && others != {})
  }

  function Release(l: Lock): Lock
    requires l.locked
  {
    Schedule(l.(locked := false))
  }

  function EnterSession(l: Lock, u: int): Lock {
    l.(sessions := l.sessions[u := (if u in l.sessions then l.sessions[u] else 0) + 1])
  }

  function ExitSession(l: Lock, u: int): Lock
    requires u in l.sessions && l.sessions[u] > 0
  {
    var others := Others(l.waiters);
    Schedule(l.(sessions := if l.sessions[u] == 1 then l.sessions - {u} else l.sessions[u := l.sessions[u] - 1],
    turns := if Some(u) in others then l.turns + {u} else l.turns,
    otherTurn := l.otherTurn || exists o :: o in others && o != Some(u)))
  }

  /** Whether a request with the given context is one of a session, decided when it arrives. */
  predicate RunsInSession(l: Lock, unit: Option<int>, context: Option<int>) {
    unit.Some? && context == unit && unit.value in l.sessions
  }

  predicate TakesAtOnce(l: Lock, unit: Option<int>, inSession: bool) {
    !l.locked && !HasPending(l) && !Blocked(l, unit, inSession)
  }

  function Queued(l: Lock, w: Waiter): Lock {
    l.(waiters := l.waiters + [w])
  }

  /** The waiter granted inside acquire(), before it waits for its future. */
  function AcquireGrant(l: Lock, id: nat, unit: Option<int>, context: Option<int>): Option<Waiter> {
    var w := Waiter(id, unit, RunsInSession(l, unit, context), false);
    if TakesAtOnce(l, unit, w.inSession) then Some(w) else WakeGrant(Queued(l, w))
  }

  function Acquire(l: Lock, id: nat, unit: Option<int>, context: Option<int>): Lock {
    var w := Waiter(id, unit, RunsInSession(l, unit, context), false);
    if TakesAtOnce(l, unit, w.inSession) then l.(locked := true)
    else
      var woken := Wake(Queued(l, w));
      // handed to itself: its future is done, acquire() goes on to its end
      if WakeGrant(Queued(l, w)) == Some(w) then Prune(woken) else woken
  }

  function Place(ws: seq<Waiter>, id: nat): (r: Option<nat>)
    ensures r.None? ==> forall w :: w in ws ==> w.id != id
    ensures r.Some? ==> r.value < |ws| && ws[r.value].id == id
    ensures r.Some? ==> forall i :: 0 <= i < r.value ==> ws[i].id != id
  {
    if ws == [] then None
    else if ws[0].id == id then Some(0)
    else match Place(ws[1..], id) case None => None case Some(i) => Some(i + 1)
  }

  /** The future of a waiting request is cancelled. */
  function CancelWaiter(l: Lock, id: nat): Lock
    requires Place(l.waiters, id).Some?
  {
    var i := Place(l.waiters, id).value;
    l.(waiters := l.waiters[i := l.waiters[i].(cancelled := true)])
  }

  /** The end of acquire(): the waiter leaves the deque if it is in it, the turns without a request are dropped. */
  function Leave(l: Lock, id: nat): Lock {
    match Place(l.waiters, id)
    case None => Prune(l)
    case Some(i) => Prune(l.(waiters := RemoveAt(l.waiters, i)))
  }

  class SessionLock {
    var locked: bool
    var waiters: seq<Waiter>
    var sessions: map<int, nat>
    var turns: set<int>
    var otherTurn: bool
    ghost var scheduled: nat

    ghost function View(): Lock
      reads this
    {
      Lock(locked, waiters, sessions, turns, otherTurn, scheduled)
    }

    constructor ()
      ensures View() == FREE
    {
      locked, waiters, sessions, turns, otherTurn := false, [], map[], {}, false;
      scheduled := 0;
    }

    method IsBlocked(unit: Option<int>, inSession: bool) returns (r: bool)
      ensures r == Blocked(View(), unit, inSession)
    {
      r := !inSession && unit.Some? && unit.value in sessions && unit.value !in turns;
    }

    method Pending() returns (r: bool)
      ensures r == HasPending(View())
    {
      for i := 0 to |waiters|
        invariant forall k :: 0 <= k < i ==> waiters[k].cancelled
      {
        if !waiters[i].cancelled {
          assert waiters[i] in View().waiters;
          return true;
        }
      }
      return false;
    }

    method IsMatch(w: Waiter, search: Search) returns (r: bool)
      ensures r == Matches(View(), w, search)
    {
      var blocked := IsBlocked(w.unit, w.inSession);
      var turn := w.unit.Some? && w.unit.value in turns;
      r := !w.cancelled && match search
        case TurnHolder => !w.inSession && turn
        case Unblocked => !blocked
        case OfSession => w.inSession;
    }

    method FindFirst(search: Search) returns (r: Option<nat>)
      ensures r == First(View(), waiters, search)
    {
      for i := 0 to |waiters|
        invariant forall k :: 0 <= k < i ==> !Matches(View(), waiters[k], search)
      {
        var found := IsMatch(waiters[i], search);
        if found {
          assert waiters[i] in waiters;
          return Some(i);
        }
      }
      return None;
    }

    /** The searches of _wake(). */
    method FindChosen() returns (i: Option<nat>)
      ensures i == Chosen(View())
    {
      i := FindFirst(TurnHolder);
      if i.None? && otherTurn {
        i := FindFirst(Unblocked);
      }
      if i.None? {
        i := FindFirst(OfSession);
      }
      if i.None? {
        i := FindFirst(Unblocked);
      }
    }

    /** _wake(): returns the waiter whose future is set. */
    method DoWake() returns (granted: Option<Waiter>)
      modifies this
      ensures View() == Wake(old(View()))
      ensures granted == WakeGrant(old(View()))
    {
      if locked {
        return None;
      }
      var i := FindChosen();
      if i.None? {
        return None;
      }
      var w := waiters[i.value];
      if !w.inSession {
        if w.unit.Some? && w.unit.value in turns {
          turns := turns - {w.unit.value};
        } else {
          otherTurn := false;
        }
      }
      waiters := waiters[..i.value] + waiters[i.value + 1..];
      locked := true;
      return Some(w);
    }

    method ScheduleWake()
      modifies this`scheduled
      ensures View() == Schedule(old(View()))
    {
      var pending := Pending();
      if pending {
        scheduled := scheduled + 1;
      }
    }

    method OtherUnits() returns (others: set<Option<int>>)
      ensures others == Others(waiters)
    {
      others := {};
      for i := 0 to |waiters|
        invariant others == Others(waiters[..i])
      {
        assert waiters[..i + 1] == waiters[..i] + [waiters[i]];
        if !waiters[i].cancelled && !waiters[i].inSession {
          others := others + {waiters[i].unit};
        }
      }
      assert waiters[..|waiters|] == waiters;
    }

    method PruneTurns()
      modifies this`turns, this`otherTurn
      ensures View() == Prune(old(View()))
    {
      var others := OtherUnits();
      turns := set u | u in turns && Some(u) in others;
      if others == {} {
        otherTurn := false;
      }
    }

    /** False is the RuntimeError of a lock which is not acquired. */
    method DoRelease() returns (ok: bool)
      modifies this
      ensures ok == old(locked)
      ensures View() == if ok then Release(old(View())) else old(View())
    {
      if !locked {
        return false;
      }
      locked := false;
      ScheduleWake();
      return true;
    }

    method Enter(u: int)
      modifies this`sessions
      ensures View() == EnterSession(old(View()), u)
    {
      sessions := sessions[u := (if u in sessions then sessions[u] else 0) + 1];
    }

    method Exit(u: int)
      requires u in sessions && sessions[u] > 0
      modifies this
      ensures View() == ExitSession(old(View()), u)
    {
      CloseSession(u);
      LeaveTurns(u);
      ScheduleWake();
    }

    method CloseSession(u: int)
      requires u in sessions && sessions[u] > 0
      modifies this`sessions
      ensures sessions == if old(sessions)[u] == 1 then old(sessions) - {u}
                          else old(sessions)[u := old(sessions)[u] - 1]
    {
      sessions := sessions[u := sessions[u] - 1];
      if sessions[u] == 0 {
        sessions := sessions - {u};
      }
    }

    method LeaveTurns(u: int)
      modifies this`turns, this`otherTurn
      ensures turns == if Some(u) in Others(waiters) then old(turns) + {u} else old(turns)
      ensures otherTurn == (old(otherTurn) || exists o :: o in Others(waiters) && o != Some(u))
    {
      var others := OtherUnits();
      if Some(u) in others {
        turns := turns + {u};
      }
      if exists o :: o in others && o != Some(u) {
        otherTurn := true;
      }
    }

    /** acquire() up to its first suspension. `granted` is the waiter which owns the lock by it, if any. */
    method Request(id: nat, unit: Option<int>, context: Option<int>) returns (granted: Option<Waiter>)
      modifies this
      ensures View() == Acquire(old(View()), id, unit, context)
      ensures granted == AcquireGrant(old(View()), id, unit, context)
    {
      var inSession := unit.Some? && context == unit && unit.value in sessions;
      var pending := Pending();
      var blocked := IsBlocked(unit, inSession);
      var w := Waiter(id, unit, inSession, false);
      if !locked && !pending && !blocked {
        locked := true;
        return Some(w);
      }
      waiters := waiters + [w];
      granted := None;
      if !locked {
        granted := DoWake();
        if granted == Some(w) {
          PruneTurns();
        }
      }
    }

    /** The waiter leaves the deque if it is in it. */
    method LeaveDeque(id: nat)
      modifies this`waiters
      ensures waiters ==
              match Place(old(waiters), id) case None => old(waiters) case Some(i) => RemoveAt(old(waiters), i)
    {
      var i := 0;
      while i < |waiters| && waiters[i].id != id
        invariant i <= |waiters| && waiters == old(waiters)
        invariant forall k :: 0 <= k < i ==> waiters[k].id != id
      {
        i := i + 1;
      }
      if i < |waiters| {
        waiters := waiters[..i] + waiters[i + 1..];
      }
    }

    /** The end of acquire(); a handed waiter which was cancelled passes the lock on. */
    method Finish(id: nat, handedAndCancelled: bool)
      requires handedAndCancelled ==> locked
      modifies this
      ensures View() == Leave(if handedAndCancelled then Release(old(View())) else old(View()), id)
    {
      if handedAndCancelled {
        var _ := DoRelease();
      }
      LeaveDeque(id);
      PruneTurns();
    }
  }
}
