/** The locks a task of Evok waits for: the lock of a unit, the serial buses its unit holds while it restarts,
    and the lock of a bus, with the sessions which block the scans (src/evok/modbus/client.py, transport.py). */
module Deadlock {
  import opened SerialLinks

  type Unit = nat
  type Task = nat

  datatype Line = Serial(path: string) | Tcp(server: nat)

  /** The bus of a unit and the serial buses of the ports it serves. */
  datatype UnitConfig = UnitConfig(line: Line, serialBuses: seq<string>)

  type Config = map<Unit, UnitConfig>

  /** What BusClaims establishes: only a unit of a TCP bus holds serial buses, in the order of their paths. */
  ghost predicate ValidConfig(c: Config) {
    forall u :: u in c ==> Ascending(c[u].serialBuses) && (c[u].serialBuses != [] ==> c[u].line.Tcp?)
  }

  /** A unit as the configuration creates it: its client and the line of its bus. */
  datatype Created = Created(client: Client, line: Line)

  ghost function ConfigOf(units: map<Unit, Created>): Config
    reads set u | u in units :: units[u].client
  {
    map u | u in units :: UnitConfig(units[u].line, units[u].client.serialBuses)
  }

  /** The links of the serial ports give a valid configuration. */
  method LinkUnits(claims: BusClaims, units: map<Unit, Created>)
    requires claims.Valid()
    requires forall u :: u in units ==> units[u].client.tcp == units[u].line.Tcp? && units[u].client.serialBuses == []
    modifies set i | 0 <= i < |claims.serialLinks| :: claims.serialLinks[i].client
    ensures ValidConfig(ConfigOf(units))
  {
    claims.LinkSerialPorts();
    forall u | u in units
      ensures Ascending(units[u].client.serialBuses)
      ensures units[u].client.serialBuses != [] ==> units[u].line.Tcp?
    {
      if i :| 0 <= i < |claims.serialLinks| && claims.serialLinks[i].client == units[u].client {
        assert Ascending(claims.serialLinks[i].client.serialBuses);
      }
    }
  }

  /** Where a task stands. In a change it holds the lock of its unit and its session; `Holding(u, k)` holds the
      first k serial buses of the unit and waits for the next one, if any. */
  datatype State =
    | Idle
    | WantsUnit(u: Unit)
    | InChange(u: Unit)
    | WantsBus(u: Unit)
    | OnBus(u: Unit)
    | Holding(u: Unit, k: nat)
    | HeldWantsBus(u: Unit)
    | HeldOnBus(u: Unit)
    | HeldRestarts(u: Unit)
    | ScanWantsBus(u: Unit)
    | ScanOnBus(u: Unit)

  datatype System = System(tasks: map<Task, State>, unitOwner: map<Unit, Task>, busOwner: map<Line, Task>)

  predicate Changes(s: State) {
    s.InChange? || s.WantsBus? || s.OnBus? || s.Holding? || s.HeldWantsBus? || s.HeldOnBus? || s.HeldRestarts?
  }

  predicate Known(c: Config, s: State) {
    (!s.Idle? ==> s.u in c) && (s.Holding? ==> s.k <= |c[s.u].serialBuses|)
  }

  /** The buses whose locks the task has. */
  function Held(c: Config, s: State): set<Line>
    requires Known(c, s)
  {
    match s
    case OnBus(u) => {c[u].line}
    case ScanOnBus(u) => {c[u].line}
    case Holding(u, k) => set p | p in c[u].serialBuses[..k] :: Serial(p)
    case HeldWantsBus(u) => set p | p in c[u].serialBuses :: Serial(p)
    case HeldOnBus(u) => (set p | p in c[u].serialBuses :: Serial(p)) + {c[u].line}
    case HeldRestarts(u) => set p | p in c[u].serialBuses :: Serial(p)
    case _ => {}
  }

  /** The bus whose lock the task asks for. */
  function Wanted(c: Config, s: State): set<Line>
    requires Known(c, s)
  {
    match s
    case WantsBus(u) => {c[u].line}
    case HeldWantsBus(u) => {c[u].line}
    case ScanWantsBus(u) => {c[u].line}
    case Holding(u, k) => if k < |c[u].serialBuses| then {Serial(c[u].serialBuses[k])} else {}
    case _ => {}
  }

  ghost predicate UnitsOwned(y: System) {
    && (forall u :: u in y.unitOwner ==>
          y.unitOwner[u] in y.tasks && Changes(y.tasks[y.unitOwner[u]]) && y.tasks[y.unitOwner[u]].u == u)
    && (forall t :: t in y.tasks && Changes(y.tasks[t]) ==>
          y.tasks[t].u in y.unitOwner && y.unitOwner[y.tasks[t].u] == t)
  }

  ghost predicate BusesOwned(c: Config, y: System)
    requires forall t :: t in y.tasks ==> Known(c, y.tasks[t])
  {
    && (forall l :: l in y.busOwner ==> y.busOwner[l] in y.tasks && l in Held(c, y.tasks[y.busOwner[l]]))
    && (forall t, l :: t in y.tasks && l in Held(c, y.tasks[t]) ==> l in y.busOwner && y.busOwner[l] == t)
  }

  /** The lock tables are what the states of the tasks say: one owner for each lock. */
  ghost predicate Inv(c: Config, y: System) {
    && (forall t :: t in y.tasks ==> Known(c, y.tasks[t]))
    && UnitsOwned(y)
    && BusesOwned(c, y)
  }

  /** One atomic step of a task to its next state. A waiting task may give up (it is cancelled). */
  predicate Moves(c: Config, y: System, t: Task, s: State) {
    t in y.tasks && Known(c, s) && Known(c, y.tasks[t]) &&
    match y.tasks[t]
    case Idle => s.WantsUnit? || s.ScanWantsBus?
    case WantsUnit(u) => s == Idle || (s == InChange(u) && u !in y.unitOwner)
    case InChange(u) => s == Idle || s == WantsBus(u) || s == Holding(u, 0)
    case WantsBus(u) => s == InChange(u) || (s == OnBus(u) && c[u].line !in y.busOwner)
    case OnBus(u) => s == InChange(u)
    case Holding(u, k) =>
      || s == InChange(u)
      || (k < |c[u].serialBuses| && s == Holding(u, k + 1) && Serial(c[u].serialBuses[k]) !in y.busOwner)
      || (k == |c[u].serialBuses| && s == HeldWantsBus(u))
    case HeldWantsBus(u) => s == InChange(u) || (s == HeldOnBus(u) && c[u].line !in y.busOwner)
    case HeldOnBus(u) => s == HeldRestarts(u)
    case HeldRestarts(u) => s == InChange(u)
    case ScanWantsBus(u) => s == Idle || (s == ScanOnBus(u) && c[u].line !in y.busOwner)
    case ScanOnBus(u) => s == Idle
  }

  function Step(c: Config, y: System, t: Task, s: State): System
    requires Moves(c, y, t, s)
  {
    var was := y.tasks[t];
    System(y.tasks[t := s],
           ReboundUnit(y.unitOwner, t, was, s),
           Rebound(y.busOwner, t, Held(c, was), Held(c, s)))
  }

  /** t cannot go on until t' does: t' has the lock of the unit or the bus t wants, or the session of a change
      by t' blocks the scan t. */
  predicate WaitsFor(c: Config, y: System, t: Task, t': Task) {
    t in y.tasks && t' in y.tasks && Known(c, y.tasks[t]) && Known(c, y.tasks[t']) &&
    var s := y.tasks[t];
    || (s.WantsUnit? && s.u in y.unitOwner && y.unitOwner[s.u] == t')
    || (s.ScanWantsBus? && s.u in y.unitOwner && y.unitOwner[s.u] == t')
    || (exists l :: l in Wanted(c, s) && l in y.busOwner && y.busOwner[l] == t')
  }

  lemma NewlyHeldIsFree(c: Config, y: System, t: Task, s: State, l: Line)
    requires ValidConfig(c) && Inv(c, y) && Moves(c, y, t, s) && l in Held(c, s) && l !in Held(c, y.tasks[t])
    ensures l !in y.busOwner
  {
    match y.tasks[t]
    case Holding(u, k) =>
      if k < |c[u].serialBuses| {
        assert c[u].serialBuses[..k + 1] == c[u].serialBuses[..k] + [c[u].serialBuses[k]];
      }
    case _ =>
  }

  lemma MovesWithinUnit(c: Config, y: System, t: Task, s: State)
    requires Moves(c, y, t, s)
    ensures Changes(s) && Changes(y.tasks[t]) ==> s.u == y.tasks[t].u
    ensures Changes(s) && !Changes(y.tasks[t]) ==> s.u !in y.unitOwner
  {
  }

  lemma UnitsStayOwned(y: System, t: Task, s: State)
    requires UnitsOwned(y) && t in y.tasks
    requires Changes(s) && Changes(y.tasks[t]) ==> s.u == y.tasks[t].u
    requires Changes(s) && !Changes(y.tasks[t]) ==> s.u !in y.unitOwner
    ensures UnitsOwned(y.(tasks := y.tasks[t := s], unitOwner := ReboundUnit(y.unitOwner, t, y.tasks[t], s)))
  {
  }

  lemma StepKeepsUnits(c: Config, y: System, t: Task, s: State)
    requires UnitsOwned(y) && Moves(c, y, t, s)
    ensures UnitsOwned(Step(c, y, t, s))
  {
    MovesWithinUnit(c, y, t, s);
    UnitsStayOwned(y, t, s);
  }

  lemma NewlyHeldAreFree(c: Config, y: System, t: Task, s: State)
    requires ValidConfig(c) && Inv(c, y) && Moves(c, y, t, s)
    ensures forall l :: l in Held(c, s) - Held(c, y.tasks[t]) ==> l !in y.busOwner
  {
    forall l | l in Held(c, s) - Held(c, y.tasks[t]) ensures l !in y.busOwner {
      NewlyHeldIsFree(c, y, t, s, l);
    }
  }

  lemma StepKeeps(c: Config, y: System, t: Task, s: State)
    requires ValidConfig(c) && Inv(c, y) && Moves(c, y, t, s)
    ensures Inv(c, Step(c, y, t, s))
  {
    StepKeepsUnits(c, y, t, s);
    NewlyHeldAreFree(c, y, t, s);
    BusesStayOwned(c, y, t, s);
  }

  function ReboundUnit(m: map<Unit, Task>, t: Task, before: State, now: State): map<Unit, Task> {
    if Changes(now) then m[now.u := t] else if Changes(before) then m - {before.u} else m
  }

  /** The owners of the buses after a task went from holding `before` to holding `now`. */
  function Rebound(m: map<Line, Task>, t: Task, before: set<Line>, now: set<Line>): map<Line, Task> {
    (m - (before - now)) + map l | l in now - before :: t
  }

  lemma BusesStayOwned(c: Config, y: System, t: Task, s: State)
    requires (forall x :: x in y.tasks ==> Known(c, y.tasks[x])) && BusesOwned(c, y) && t in y.tasks && Known(c, s)
    requires forall l :: l in Held(c, s) - Held(c, y.tasks[t]) ==> l !in y.busOwner
    ensures BusesOwned(c, y.(tasks := y.tasks[t := s],
                             busOwner := Rebound(y.busOwner, t, Held(c, y.tasks[t]), Held(c, s))))
  {
    var before, now := Held(c, y.tasks[t]), Held(c, s);
    var z := y.(tasks := y.tasks[t := s], busOwner := Rebound(y.busOwner, t, before, now));
    forall l | l in z.busOwner ensures z.busOwner[l] in z.tasks && l in Held(c, z.tasks[z.busOwner[l]]) {
      if l !in now {
        assert l in y.busOwner && l !in before && y.busOwner[l] != t;
      }
    }
    forall x, l | x in z.tasks && l in Held(c, z.tasks[x])
      ensures l in z.busOwner && z.busOwner[l] == x
    {
      if x != t {
        assert l in Held(c, y.tasks[x]) && l in y.busOwner && y.busOwner[l] == x;
        assert l !in before && l !in now;
      } else if l in before {
        assert l in y.busOwner && y.busOwner[l] == t;
      }
    }
  }

  // ---- the order of the locks ----

  /** What a task waits for, in the order in which the locks are taken. */
  datatype Level = ForUnit | ForSerial(path: string) | ForTcp | Goes

  function LevelOf(c: Config, s: State): Level
    requires Known(c, s)
  {
    match s
    case WantsUnit(_) => ForUnit
    case ScanWantsBus(_) => ForUnit
    case WantsBus(u) => LineLevel(c[u].line)
    case HeldWantsBus(u) => LineLevel(c[u].line)
    case Holding(u, k) => if k < |c[u].serialBuses| then ForSerial(c[u].serialBuses[k]) else Goes
    case _ => Goes
  }

  function LineLevel(l: Line): Level {
    match l case Serial(p) => ForSerial(p) case Tcp(_) => ForTcp
  }

  predicate Lower(a: Level, b: Level) {
    match a
    case ForUnit => !b.ForUnit?
    case ForSerial(p) => b.ForTcp? || b.Goes? || (b.ForSerial? && Below(p, b.path))
    case ForTcp => b.Goes?
    case Goes => false
  }

  lemma LowerIsStrictOrder(a: Level, b: Level, d: Level)
    ensures !Lower(a, a)
    ensures Lower(a, b) && Lower(b, d) ==> Lower(a, d)
  {
    if a.ForSerial? {
      BelowIsTotal(a.path, a.path);
      if b.ForSerial? && d.ForSerial? && Below(a.path, b.path) && Below(b.path, d.path) {
        BelowIsTransitive(a.path, b.path, d.path);
      }
    }
  }

  /** The owner of a bus waits for a later lock than the bus, if at all. */
  lemma HeldIsLower(c: Config, s: State, o: State, l: Line)
    requires ValidConfig(c) && Known(c, s) && Known(c, o) && l in Wanted(c, s) && l in Held(c, o)
    ensures Lower(LevelOf(c, s), LevelOf(c, o))
  {
    assert s.ScanWantsBus? || LevelOf(c, s) == LineLevel(l);
    if o.Holding? {
      var i :| 0 <= i < o.k && l == Serial(c[o.u].serialBuses[..o.k][i]);
      assert c[o.u].serialBuses[..o.k][i] == c[o.u].serialBuses[i];
    } else if o.HeldWantsBus? {
      assert exists p :: p in c[o.u].serialBuses && l == Serial(p);
      assert c[o.u].serialBuses != [] && c[o.u].line.Tcp?;
    }
  }

  lemma WaitsUpwards(c: Config, y: System, t: Task, t': Task)
    requires ValidConfig(c) && Inv(c, y) && WaitsFor(c, y, t, t')
    ensures Lower(LevelOf(c, y.tasks[t]), LevelOf(c, y.tasks[t']))
  {
    var s, o := y.tasks[t], y.tasks[t'];
    if exists l :: l in Wanted(c, s) && l in y.busOwner && y.busOwner[l] == t' {
      var l :| l in Wanted(c, s) && l in y.busOwner && y.busOwner[l] == t';
      assert l in Held(c, o);
      HeldIsLower(c, s, o, l);
    }
  }

  /** A chain of tasks, each waiting for the next one. */
  ghost predicate Chain(c: Config, y: System, ts: seq<Task>) {
    |ts| > 0 && forall i :: 0 <= i < |ts| - 1 ==> WaitsFor(c, y, ts[i], ts[i + 1])
  }

  lemma {:induction false} ChainAscends(c: Config, y: System, ts: seq<Task>)
    requires ValidConfig(c) && Inv(c, y) && Chain(c, y, ts) && |ts| > 1
    ensures ts[0] in y.tasks && ts[|ts| - 1] in y.tasks
    ensures Lower(LevelOf(c, y.tasks[ts[0]]), LevelOf(c, y.tasks[ts[|ts| - 1]]))
    decreases |ts|
  {
    assert WaitsFor(c, y, ts[0], ts[1]);
    WaitsUpwards(c, y, ts[0], ts[1]);
    if |ts| > 2 {
      var rest := ts[1..];
      forall i | 0 <= i < |rest| - 1 ensures WaitsFor(c, y, rest[i], rest[i + 1]) {
        assert rest[i] == ts[i + 1] && rest[i + 1] == ts[i + 1 + 1];
      }
      ChainAscends(c, y, rest);
      LowerIsStrictOrder(LevelOf(c, y.tasks[ts[0]]), LevelOf(c, y.tasks[ts[1]]), LevelOf(c, y.tasks[ts[|ts| - 1]]));
    }
  }

  /** A run: the tasks and the states they move to. */
  ghost predicate Reaches(c: Config, y: System, moves: seq<(Task, State)>, z: System)
    decreases |moves|
  {
    if moves == [] then y == z
    else Moves(c, y, moves[0].0, moves[0].1) && Reaches(c, Step(c, y, moves[0].0, moves[0].1), moves[1..], z)
  }

  predicate Start(y: System) {
    (forall t :: t in y.tasks ==> y.tasks[t] == Idle) && y.unitOwner == map[] && y.busOwner == map[]
  }

  lemma {:induction false} ReachesKeeps(c: Config, y: System, moves: seq<(Task, State)>, z: System)
    requires ValidConfig(c) && Inv(c, y) && Reaches(c, y, moves, z)
    ensures Inv(c, z)
    decreases |moves|
  {
    if moves != [] {
      StepKeeps(c, y, moves[0].0, moves[0].1);
      ReachesKeeps(c, Step(c, y, moves[0].0, moves[0].1), moves[1..], z);
    }
  }

  /** In no reachable state do tasks wait for each other in a circle. */
  lemma NoCircularWait(c: Config, y: System, moves: seq<(Task, State)>, z: System, ts: seq<Task>)
    requires ValidConfig(c) && Start(y) && Reaches(c, y, moves, z)
    requires Chain(c, z, ts) && |ts| > 1
    ensures ts[0] != ts[|ts| - 1]
  {
    ReachesKeeps(c, y, moves, z);
    ChainAscends(c, z, ts);
    var a := LevelOf(c, z.tasks[ts[0]]);
    LowerIsStrictOrder(a, a, a);
  }

  ghost function Above(c: Config, y: System, t: Task): set<Task>
    requires Inv(c, y) && t in y.tasks
  {
    set x | x in y.tasks && Lower(LevelOf(c, y.tasks[t]), LevelOf(c, y.tasks[x]))
  }

  lemma {:induction false} WaitEnds(c: Config, y: System, t: Task) returns (ts: seq<Task>, last: Task)
    requires ValidConfig(c) && Inv(c, y) && t in y.tasks
    ensures Chain(c, y, ts) && ts[0] == t && ts[|ts| - 1] == last && last in y.tasks
    ensures forall x :: !WaitsFor(c, y, last, x)
    decreases Above(c, y, t)
  {
    if x :| WaitsFor(c, y, t, x) {
      WaitsUpwards(c, y, t, x);
      var a, b := LevelOf(c, y.tasks[t]), LevelOf(c, y.tasks[x]);
      forall z | z in Above(c, y, x) ensures z in Above(c, y, t) {
        LowerIsStrictOrder(a, b, LevelOf(c, y.tasks[z]));
      }
      LowerIsStrictOrder(b, b, b);
      assert x in Above(c, y, t) && x !in Above(c, y, x);
      var rest;
      rest, last := WaitEnds(c, y, x);
      ts := [t] + rest;
      forall i | 0 <= i < |ts| - 1 ensures WaitsFor(c, y, ts[i], ts[i + 1]) {
        if i > 0 {
          assert ts[i] == rest[i - 1] && ts[i + 1] == rest[i];
        }
      }
    } else {
      ts, last := [t], t;
    }
  }

  /** The step which takes a task to the end of its change or scan. */
  predicate GoesOn(s: State, next: State) {
    match s
    case WantsUnit(u) => next == InChange(u)
    case InChange(u) => next == Idle
    case WantsBus(u) => next == OnBus(u)
    case OnBus(u) => next == InChange(u)
    case Holding(u, k) => next == Holding(u, k + 1) || next == HeldWantsBus(u)
    case HeldWantsBus(u) => next == HeldOnBus(u)
    case HeldOnBus(u) => next == HeldRestarts(u)
    case HeldRestarts(u) => next == InChange(u)
    case ScanWantsBus(u) => next == ScanOnBus(u)
    case ScanOnBus(u) => next == Idle
    case Idle => false
  }

  /** A busy task which waits for nobody can go on. */
  lemma WhoWaitsForNobodyGoesOn(c: Config, y: System, t: Task) returns (next: State)
    requires Inv(c, y) && t in y.tasks && y.tasks[t] != Idle
    requires forall x :: !WaitsFor(c, y, t, x)
    ensures Moves(c, y, t, next) && GoesOn(y.tasks[t], next)
  {
    var s := y.tasks[t];
    assert s.WantsUnit? && s.u in y.unitOwner ==> WaitsFor(c, y, t, y.unitOwner[s.u]);
    forall l | l in Wanted(c, s) ensures l !in y.busOwner {
      if l in y.busOwner {
        assert WaitsFor(c, y, t, y.busOwner[l]);
      }
    }
    next := match s
    case WantsUnit(u) => InChange(u)
    case InChange(u) => Idle
    case WantsBus(u) => OnBus(u)
    case OnBus(u) => InChange(u)
    case Holding(u, k) => if k < |c[u].serialBuses| then Holding(u, k + 1) else HeldWantsBus(u)
    case HeldWantsBus(u) => HeldOnBus(u)
    case HeldOnBus(u) => HeldRestarts(u)
    case HeldRestarts(u) => InChange(u)
    case ScanWantsBus(u) => ScanOnBus(u)
    case ScanOnBus(u) => Idle
    case Idle => Idle;
  }

  /** Deadlock freedom: whatever a busy task waits for, at the end of its waits there is a task which can go on
      without anybody giving up. */
  lemma SomeTaskGoesOn(c: Config, y: System, moves: seq<(Task, State)>, z: System, t: Task)
    returns (ts: seq<Task>, next: State)
    requires ValidConfig(c) && Start(y) && Reaches(c, y, moves, z) && t in z.tasks && z.tasks[t] != Idle
    ensures Chain(c, z, ts) && ts[0] == t
    ensures Moves(c, z, ts[|ts| - 1], next) && GoesOn(z.tasks[ts[|ts| - 1]], next)
  {
    ReachesKeeps(c, y, moves, z);
    var x;
    ts, x := WaitEnds(c, z, t);
    if |ts| > 1 {
      assert WaitsFor(c, z, ts[|ts| - 2], ts[|ts| - 1]);
      WaitsUpwards(c, z, ts[|ts| - 2], x);
    }
    next := WhoWaitsForNobodyGoesOn(c, z, x);
  }
}
