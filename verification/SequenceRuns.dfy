/** Runs of the tasks of the sequencer, src/evok/blocks/sequencer.py, with the changes of the outputs by the API
    (set_devices(), src/evok/modbus/base.py), cancellation, replacement and shutdown in any interleaving. */
module SequenceRuns {
  import opened Common
  import opened Sequencers

  /** What a task writes: the k-th step, or the final state after k steps. */
  datatype What = Step(k: nat) | Final(k: nat)

  /** How the set() of the device ended: an error of the communication is retried, another one is not. */
  datatype Result = Good | Retried | Refused

  /** A task waits (its delay, a retry, or the lock of the unit), writes under the lock, or reads the unit after it. */
  datatype Phase = Waits(w: What) | Writes(w: What) | Returns(w: What, r: Result) | Ended

  /** A change of the unit runs: a step of a task, or a change by the API with the sequence it starts, if any. */
  datatype Holder = ByTask(t: Task) | ByApi(d: Device, pulse: Option<Sequence>, next: Task)

  /** The successful writes, in order. */
  datatype Write = By(d: Device, t: Task, w: What) | Direct(d: Device)

  /** finish_all(): waits for the tasks which wrote a step, then writes the final states to do. */
  datatype Closing = Open | Draining(candidates: map<Device, Task>, waits: set<Task>) | Finals(todo: map<Device, Task>)

  datatype System = System(
    table: Table,
    phases: map<Task, Phase>,
    locks: map<nat, Holder>,
    log: seq<Write>,
    closing: Closing,
    restored: set<Task>)  // the sequences whose final state was written by finish_all()

  const EMPTY := System(Table(map[], map[], {}, {}), map[], map[], [], Open, {})

  datatype Event =
    | StartSequence(d: Device, q: Sequence, t: Task)
    | CancelSequence(d: Device)
    | TakeTurn(t: Task)                      // the task gets the lock of the unit, and checks that it is registered
    | WriteOk(t: Task)
    | WriteFailed(t: Task, retried: bool)
    | GoOn(t: Task)                          // the read after the write is done, the lock is released
    | EndCancelled(t: Task)                  // a cancelled task runs
    | ApiTakes(d: Device, pulse: Option<Sequence>, t: Task)
    | ApiOk(unit: nat)
    | ApiFails(unit: nat)
    | FinishAll
    | Drained
    | FinalOk(d: Device)
    | FinalFails(d: Device)

  function SequenceOf(s: System, t: Task): Sequence
    requires t in s.table.entries
  {
    s.table.entries[t].sequence
  }

  function DeviceOf(s: System, t: Task): Device
    requires t in s.table.entries
  {
    s.table.entries[t].device
  }

  predicate IsLast(q: Sequence, w: What) {
    w.Final? || w.k + 1 == |q.steps|
  }

  /** The number of the done steps after the write. */
  function Number(w: What): nat {
    if w.Step? then w.k + 1 else w.k
  }

  predicate InPhase(s: System, t: Task) {
    t in s.phases && t in s.table.entries && t !in s.table.cancelled
  }

  predicate Enabled(s: System, e: Event) {
    match e
    case StartSequence(d, q, t) => t !in s.phases && t !in s.table.entries && q.steps != []
    case CancelSequence(_) => true
    case TakeTurn(t) => InPhase(s, t) && s.phases[t].Waits? && DeviceOf(s, t).unit !in s.locks
    case WriteOk(t) => InPhase(s, t) && s.phases[t].Writes?
    case WriteFailed(t, _) => InPhase(s, t) && s.phases[t].Writes?
    case GoOn(t) => InPhase(s, t) && s.phases[t].Returns?
    case EndCancelled(t) => t in s.phases && t in s.table.entries && t in s.table.cancelled && s.phases[t] != Ended
    // a change other than with a new sequence is refused while a sequence of the output runs
    case ApiTakes(d, pulse, t) =>
      d.unit !in s.locks && (pulse.Some? ==> pulse.value.steps != []) && (pulse.None? ==> d !in s.table.running)
    case ApiOk(u) =>
      u in s.locks && s.locks[u].ByApi? &&
      (s.locks[u].pulse.Some? ==> s.locks[u].next !in s.phases && s.locks[u].next !in s.table.entries)
    case ApiFails(u) => u in s.locks && s.locks[u].ByApi?
    case FinishAll => s.closing.Open? && forall d :: d in s.table.running ==> s.table.running[d] in s.table.entries
    case Drained => s.closing.Draining? && forall t :: t in s.closing.waits ==> t in s.phases && s.phases[t] == Ended
    case FinalOk(d) => s.closing.Finals? && d in s.closing.todo && d.unit !in s.locks
    case FinalFails(d) => s.closing.Finals? && d in s.closing.todo && d.unit !in s.locks
  }

  /** The task leaves the run: the lock it has is released, and the table if it is registered. */
  function Leave(s: System, t: Task): System
    requires t in s.table.entries
  {
    s.(table := End(s.table, t), phases := s.phases[t := Ended],
    locks := if DeviceOf(s, t).unit in s.locks && s.locks[DeviceOf(s, t).unit] == ByTask(t)
    then s.locks - {DeviceOf(s, t).unit} else s.locks)
  }

  /** What _run() writes next after the change of a step, if it goes on: the next step, after an error of the
      communication the same again, after another one the final state. */
  function NextWrite(s: System, t: Task): Option<What>
    requires InPhase(s, t) && s.phases[t].Returns?
  {
    var q, w := SequenceOf(s, t), s.phases[t].w;
    if !Current(s.table, t) then None
    else
      match s.phases[t].r
      case Good => if IsLast(q, w) then None else Some(Step(w.k + 1))
      case Retried => Some(w)
      case Refused =>
        if w.Step? && w.k < |q.steps| && q.final.Some? && q.final.value != q.steps[w.k] then Some(Final(w.k)) else None
  }

  /** The task releases the lock and goes on with its next write. */
  function GoesOn(s: System, t: Task, w: What): System
    requires t in s.table.entries
  {
    s.(locks := s.locks - {DeviceOf(s, t).unit}, phases := s.phases[t := Waits(w)])
  }

  function Started(s: System, d: Device, q: Sequence, t: Task): System {
    s.(table := Start(s.table, d, q, t), phases := s.phases[t := Waits(Step(0))])
  }

  function Next(s: System, e: Event): System
    requires Enabled(s, e)
  {
    match e
    case StartSequence(d, q, t) => Started(s, d, q, t)
    case CancelSequence(d) => s.(table := Cancel(s.table, d))
    case TakeTurn(t) =>
      if Current(s.table, t)
      then s.(table := Begin(s.table, t), phases := s.phases[t := Writes(s.phases[t].w)],
      locks := s.locks[DeviceOf(s, t).unit := ByTask(t)])
      else Leave(s, t)
    case WriteOk(t) =>
      var w := s.phases[t].w;
      s.(table := Written(s.table, t, Number(w), IsLast(SequenceOf(s, t), w)),
      phases := s.phases[t := Returns(w, Good)],
      log := s.log + [By(DeviceOf(s, t), t, w)])
    case WriteFailed(t, retried) =>
      s.(table := s.table.(writing := s.table.writing - {t}),
      phases := s.phases[t := Returns(s.phases[t].w, if retried then Retried else Refused)])
    case GoOn(t) =>
      var w := NextWrite(s, t);
      if w.None? then Leave(s, t) else GoesOn(s, t, w.value)
    case EndCancelled(t) => Leave(s, t)
    case ApiTakes(d, pulse, t) => s.(locks := s.locks[d.unit := ByApi(d, pulse, t)])
    case ApiOk(u) =>
      var h := s.locks[u];
      var done := s.(locks := s.locks - {u}, log := s.log + [Direct(h.d)]);
      if h.pulse.Some? then Started(done, h.d, h.pulse.value, h.next) else done
    case ApiFails(u) => s.(locks := s.locks - {u})
    case FinishAll => s.(table := StopAll(s.table), closing := Draining(Candidates(s.table), s.table.writing))
    case Drained =>
      s.(closing := Finals(map d | d in s.closing.candidates && s.closing.candidates[d] in s.table.entries &&
                                   !s.table.entries[s.closing.candidates[d]].finished :: s.closing.candidates[d]))
    case FinalOk(d) =>
      var t := s.closing.todo[d];
      s.(closing := Finals(s.closing.todo - {d}), restored := s.restored + {t},
      log := s.log + [By(d, t, Final(if t in s.table.entries then s.table.entries[t].step else 0))])
    case FinalFails(d) => s.(closing := Finals(s.closing.todo - {d}))
  }

  predicate Run(s: System, es: seq<Event>)
    decreases |es|
  {
    es != [] ==> Enabled(s, es[0]) && Run(Next(s, es[0]), es[1..])
  }

  function After(s: System, es: seq<Event>): System
    requires Run(s, es)
    decreases |es|
  {
    if es == [] then s else After(Next(s, es[0]), es[1..])
  }

  // ---- the trace of a sequence ----

  /** The successful writes of one sequence. */
  function Trace(log: seq<Write>, t: Task): seq<What> {
    if log == [] then []
    else
      var x := log[|log| - 1];
      Trace(log[..|log| - 1], t) + if x.By? && x.t == t then [x.w] else []
  }

  function Steps(n: nat): (r: seq<What>)
    ensures |r| == n && forall i :: 0 <= i < n ==> r[i] == Step(i)
  {
    seq(n, i requires 0 <= i < n => Step(i))
  }

  /** The n first steps, each once and in order. */
  predicate IsPrefix(trace: seq<What>, q: Sequence, n: nat) {
    n <= |q.steps| && trace == Steps(n)
  }

  /** A proper prefix and then the final state. */
  predicate IsPrefixWithFinal(trace: seq<What>, q: Sequence, n: nat) {
    n < |q.steps| && q.final.Some? && trace == Steps(n) + [Final(n)]
  }

  /** The writes of a sequence in any interleaving. */
  ghost predicate IsTrace(trace: seq<What>, q: Sequence) {
    exists n :: IsPrefix(trace, q, n) || IsPrefixWithFinal(trace, q, n)
  }

  /** What a task has written in its phase. */
  predicate WroteIn(trace: seq<What>, x: Entry, p: Phase, restored: bool) {
    var q := x.sequence;
    if restored then IsPrefixWithFinal(trace, q, x.step) && !x.finished && !p.Writes?
    else
      match p
      case Waits(w) =>
        IsPrefix(trace, q, w.k) && x.step == w.k && w.k < |q.steps| && !x.finished && (w.Final? ==> q.final.Some?)
      case Writes(w) =>
        IsPrefix(trace, q, w.k) && x.step == w.k && w.k < |q.steps| && !x.finished && (w.Final? ==> q.final.Some?)
      case Returns(w, r) =>
        w.k < |q.steps| && (w.Final? ==> q.final.Some?) &&
        if r == Good then x.step == Number(w) && x.finished == IsLast(q, w) && trace == Steps(w.k) + [w]
        else IsPrefix(trace, q, w.k) && x.step == w.k && !x.finished
      case Ended => if !x.finished then IsPrefix(trace, q, x.step) && x.step < |q.steps|
                    else IsPrefix(trace, q, |q.steps|) || IsPrefixWithFinal(trace, q, x.step)
  }

  // ---- what every step keeps ----

  /** The task registered for the device runs, and its last step is not written. */
  predicate RunsFor(s: System, d: Device, t: Task) {
    t in s.phases && t in s.table.entries && DeviceOf(s, t) == d && t !in s.table.cancelled && t !in s.restored &&
    !s.table.entries[t].finished && s.phases[t] != Ended
  }

  ghost predicate TableOk(s: System) {
    && s.phases.Keys == s.table.entries.Keys
    && (forall d :: d in s.table.running ==> RunsFor(s, d, s.table.running[d]))
    && (forall t :: t in s.table.writing <==> t in s.phases && s.phases[t].Writes?)
    && s.table.writing * s.table.cancelled == {}
  }

  predicate Busy(p: Phase) {
    p.Writes? || p.Returns?
  }

  /** The lock of a unit is of the one task which writes or reads there. */
  ghost predicate LocksOk(s: System) {
    && (forall t :: t in s.phases && t in s.table.entries && Busy(s.phases[t]) ==>
          DeviceOf(s, t).unit in s.locks && s.locks[DeviceOf(s, t).unit] == ByTask(t))
    && (forall u :: u in s.locks && s.locks[u].ByTask? ==>
          var t := s.locks[u].t;
          t in s.phases && t in s.table.entries && Busy(s.phases[t]) && DeviceOf(s, t).unit == u)
    && (forall u :: u in s.locks && s.locks[u].ByApi? ==>
          s.locks[u].d.unit == u && (s.locks[u].pulse.Some? ==> s.locks[u].pulse.value.steps != []))
  }

  ghost predicate TracesOk(s: System) {
    forall t :: t in s.phases && t in s.table.entries ==>
      WroteIn(Trace(s.log, t), s.table.entries[t], s.phases[t], t in s.restored)
  }

  /** The tasks whose final state finish_all() may write. */
  function Pending(c: Closing): map<Device, Task> {
    match c case Open => map[] case Draining(m, _) => m case Finals(m) => m
  }

  /** It is cancelled, ended, or awaited while it writes its last step. */
  predicate Awaited(s: System, d: Device, t: Task) {
    t in s.phases && t in s.table.entries && DeviceOf(s, t) == d && SequenceOf(s, t).final.Some? &&
    !Current(s.table, t) && t !in s.restored &&
    (t in s.table.cancelled || s.phases[t] == Ended || (s.closing.Draining? && t in s.closing.waits)) &&
    (s.closing.Finals? ==> !s.table.entries[t].finished)
  }

  ghost predicate ClosingOk(s: System) {
    forall d :: d in Pending(s.closing) ==> Awaited(s, d, Pending(s.closing)[d])
  }

  ghost predicate Inv(s: System) {
    && TableOk(s) && LocksOk(s) && TracesOk(s) && ClosingOk(s)
    && (forall t :: t in s.phases && s.phases[t].Waits? ==> t !in s.table.writing)
    && (forall x :: x in s.log && x.By? ==> x.t in s.table.entries)
    && s.restored <= s.phases.Keys && s.table.cancelled <= s.phases.Keys
  }

  lemma TraceOfMore(log: seq<Write>, x: Write, t: Task)
    ensures Trace(log + [x], t) == Trace(log, t) + if x.By? && x.t == t then [x.w] else []
  {
    assert (log + [x])[..|log|] == log;
  }

  lemma {:induction false} TraceOfUnknown(log: seq<Write>, t: Task)
    requires forall x :: x in log && x.By? ==> x.t != t
    ensures Trace(log, t) == []
  {
    if log != [] {
      TraceOfUnknown(log[..|log| - 1], t);
    }
  }

  lemma StartKeepsTraces(s: System, d: Device, q: Sequence, t: Task)
    requires Inv(s) && t !in s.phases && t !in s.table.entries && q.steps != []
    ensures TracesOk(Started(s, d, q, t))
  {
    TraceOfUnknown(s.log, t);
    assert Steps(0) == [];
    var z := Started(s, d, q, t);
    forall x | x in z.phases && x in z.table.entries
      ensures WroteIn(Trace(z.log, x), z.table.entries[x], z.phases[x], x in z.restored)
    {
      if x != t {
        assert z.table.entries[x] == s.table.entries[x] && z.phases[x] == s.phases[x];
      }
    }
  }

  lemma StartKeepsTable(s: System, d: Device, q: Sequence, t: Task)
    requires TableOk(s) && t !in s.phases && t !in s.table.entries
    requires t !in s.restored && t !in s.table.cancelled
    ensures TableOk(Started(s, d, q, t))
  {
    var z := Started(s, d, q, t);
    assert z.phases.Keys == s.phases.Keys + {t} && z.table.entries.Keys == s.table.entries.Keys + {t};
    forall x | x in z.table.running
      ensures RunsFor(z, x, z.table.running[x])
    {
      if x != d {
        assert RunsFor(s, x, s.table.running[x]);
        assert d in s.table.running ==> RunsFor(s, d, s.table.running[d]);
      }
    }
  }

  lemma StartKeepsLocks(s: System, d: Device, q: Sequence, t: Task)
    requires Inv(s) && t !in s.phases && t !in s.table.entries
    ensures LocksOk(Started(s, d, q, t))
  {
  }

  lemma StartKeepsClosing(s: System, d: Device, q: Sequence, t: Task)
    requires Inv(s) && t !in s.phases && t !in s.table.entries
    ensures ClosingOk(Started(s, d, q, t))
  {
  }

  lemma StartKeeps(s: System, d: Device, q: Sequence, t: Task)
    requires Inv(s) && t !in s.phases && t !in s.table.entries && q.steps != []
    ensures Inv(Started(s, d, q, t))
  {
    StartKeepsTable(s, d, q, t);
    StartKeepsLocks(s, d, q, t);
    StartKeepsTraces(s, d, q, t);
    StartKeepsClosing(s, d, q, t);
  }

  lemma LeaveKeeps(s: System, t: Task)
    requires Inv(s) && t in s.phases && t in s.table.entries && !s.phases[t].Writes?
    ensures Inv(Leave(s, t))
  {
    LeaveKeepsTrace(Trace(s.log, t), s.table.entries[t], s.phases[t], t in s.restored);
    LeaveKeepsTable(s, t);
    LeaveKeepsLocks(s, t);
    assert TracesOk(Leave(s, t));
  }

  lemma LeaveKeepsLocks(s: System, t: Task)
    requires Inv(s) && t in s.phases && t in s.table.entries && !s.phases[t].Writes?
    ensures LocksOk(Leave(s, t))
  {
  }

  lemma LeaveKeepsTable(s: System, t: Task)
    requires Inv(s) && t in s.phases && t in s.table.entries && !s.phases[t].Writes?
    ensures TableOk(Leave(s, t)) && ClosingOk(Leave(s, t))
  {
    var z := Leave(s, t);
    forall d | d in z.table.running
      ensures RunsFor(z, d, z.table.running[d])
    {
      assert RunsFor(s, d, s.table.running[d]);
    }
    forall d | d in Pending(z.closing)
      ensures Awaited(z, d, Pending(z.closing)[d])
    {
      assert Awaited(s, d, Pending(s.closing)[d]);
    }
  }

  lemma LeaveKeepsTrace(trace: seq<What>, x: Entry, p: Phase, restored: bool)
    requires WroteIn(trace, x, p, restored) && !p.Writes?
    ensures WroteIn(trace, x, Ended, restored)
  {
    if p.Returns? && p.r == Good && p.w.Step? {
      assert Steps(p.w.k) + [Step(p.w.k)] == Steps(p.w.k + 1);
    }
  }

  lemma CancelKeeps(s: System, d: Device)
    requires Inv(s)
    ensures Inv(s.(table := Cancel(s.table, d)))
  {
    CancelKeepsTable(s, d);
    CancelKeepsClosing(s, d);
  }

  lemma CancelKeepsClosing(s: System, d: Device)
    requires ClosingOk(s)
    ensures ClosingOk(s.(table := Cancel(s.table, d)))
  {
    var z := s.(table := Cancel(s.table, d));
    forall x | x in Pending(z.closing)
      ensures Awaited(z, x, Pending(z.closing)[x])
    {
      assert Awaited(s, x, Pending(s.closing)[x]);
    }
  }

  lemma CancelKeepsTable(s: System, d: Device)
    requires TableOk(s)
    ensures TableOk(s.(table := Cancel(s.table, d)))
  {
    var z := s.(table := Cancel(s.table, d));
    forall x | x in z.table.running
      ensures RunsFor(z, x, z.table.running[x])
    {
      assert RunsFor(s, x, s.table.running[x]);
      assert d in s.table.running ==> RunsFor(s, d, s.table.running[d]);
    }
  }

  lemma TakeTurnKeeps(s: System, t: Task)
    requires Inv(s) && Enabled(s, TakeTurn(t))
    ensures Inv(Next(s, TakeTurn(t)))
  {
    if Current(s.table, t) {
      BeginKeepsTable(s, t);
      BeginKeepsLocks(s, t);
      BeginKeepsClosing(s, t);
    } else {
      LeaveKeeps(s, t);
    }
  }

  lemma BeginKeepsTable(s: System, t: Task)
    requires TableOk(s) && Enabled(s, TakeTurn(t)) && Current(s.table, t)
    ensures TableOk(Next(s, TakeTurn(t))) && t !in s.restored
  {
    var z := Next(s, TakeTurn(t));
    assert RunsFor(s, DeviceOf(s, t), t);
    forall x | x in z.table.running
      ensures RunsFor(z, x, z.table.running[x])
    {
      assert RunsFor(s, x, s.table.running[x]);
    }
  }

  lemma BeginKeepsLocks(s: System, t: Task)
    requires LocksOk(s) && Enabled(s, TakeTurn(t)) && Current(s.table, t)
    ensures LocksOk(Next(s, TakeTurn(t)))
  {
  }

  lemma BeginKeepsClosing(s: System, t: Task)
    requires ClosingOk(s) && Enabled(s, TakeTurn(t)) && Current(s.table, t)
    ensures ClosingOk(Next(s, TakeTurn(t)))
  {
    var z := Next(s, TakeTurn(t));
    forall x | x in Pending(z.closing)
      ensures Awaited(z, x, Pending(z.closing)[x])
    {
      assert Awaited(s, x, Pending(s.closing)[x]);
    }
  }

  lemma WriteOkKeepsTraces(s: System, t: Task)
    requires Inv(s) && Enabled(s, WriteOk(t))
    ensures TracesOk(Next(s, WriteOk(t)))
  {
    var z := Next(s, WriteOk(t));
    var w := s.phases[t].w;
    forall x | x in z.phases && x in z.table.entries
      ensures WroteIn(Trace(z.log, x), z.table.entries[x], z.phases[x], x in z.restored)
    {
      TraceOfMore(s.log, By(DeviceOf(s, t), t, w), x);
      if x != t {
        assert z.table.entries[x] == s.table.entries[x] && z.phases[x] == s.phases[x];
      }
    }
  }

  lemma WriteOkKeepsTable(s: System, t: Task)
    requires TableOk(s) && Enabled(s, WriteOk(t))
    ensures TableOk(Next(s, WriteOk(t)))
  {
  }

  lemma WriteOkKeepsClosing(s: System, t: Task)
    requires Inv(s) && Enabled(s, WriteOk(t))
    ensures ClosingOk(Next(s, WriteOk(t)))
  {
  }

  lemma WriteOkKeeps(s: System, t: Task)
    requires Inv(s) && Enabled(s, WriteOk(t))
    ensures Inv(Next(s, WriteOk(t)))
  {
    WriteOkKeepsTable(s, t);
    WriteOkKeepsTraces(s, t);
    WriteOkKeepsClosing(s, t);
  }

  lemma WriteFailedKeeps(s: System, t: Task, retried: bool)
    requires Inv(s) && Enabled(s, WriteFailed(t, retried))
    ensures Inv(Next(s, WriteFailed(t, retried)))
  {
    var z := Next(s, WriteFailed(t, retried));
    forall x | x in z.table.running
      ensures RunsFor(z, x, z.table.running[x])
    {
      assert RunsFor(s, x, s.table.running[x]);
    }
    forall x | x in Pending(z.closing)
      ensures Awaited(z, x, Pending(z.closing)[x])
    {
      assert Awaited(s, x, Pending(s.closing)[x]);
    }
  }

  lemma WaitsKeepsLocks(s: System, t: Task, w: What)
    requires Inv(s) && InPhase(s, t) && s.phases[t].Returns? && Current(s.table, t)
    ensures LocksOk(GoesOn(s, t, w))
  {
  }

  lemma WaitsKeepsTable(s: System, t: Task, w: What)
    requires Inv(s) && InPhase(s, t) && s.phases[t].Returns? && Current(s.table, t)
    ensures TableOk(GoesOn(s, t, w)) && ClosingOk(GoesOn(s, t, w))
  {
    var z := GoesOn(s, t, w);
    forall d | d in z.table.running
      ensures RunsFor(z, d, z.table.running[d])
    {
      assert RunsFor(s, d, s.table.running[d]);
    }
    forall d | d in Pending(z.closing)
      ensures Awaited(z, d, Pending(z.closing)[d])
    {
      assert Awaited(s, d, Pending(s.closing)[d]);
    }
  }

  lemma WaitsKeeps(s: System, t: Task, w: What)
    requires Inv(s) && InPhase(s, t) && s.phases[t].Returns?
    requires Current(s.table, t) && WroteIn(Trace(s.log, t), s.table.entries[t], Waits(w), false)
    ensures Inv(GoesOn(s, t, w))
  {
    WaitsKeepsLocks(s, t, w);
    WaitsKeepsTable(s, t, w);
    assert RunsFor(s, DeviceOf(s, t), t);
    assert TracesOk(GoesOn(s, t, w));
  }

  lemma NextWriteIsReady(s: System, t: Task)
    requires InPhase(s, t) && s.phases[t].Returns? && NextWrite(s, t).Some? && RunsFor(s, DeviceOf(s, t), t)
    requires WroteIn(Trace(s.log, t), s.table.entries[t], s.phases[t], false)
    ensures WroteIn(Trace(s.log, t), s.table.entries[t], Waits(NextWrite(s, t).value), false)
  {
    var w := s.phases[t].w;
    if w.Step? {
      assert Steps(w.k) + [Step(w.k)] == Steps(w.k + 1);
    }
  }

  lemma GoOnKeeps(s: System, t: Task)
    requires Inv(s) && Enabled(s, GoOn(t))
    ensures Inv(Next(s, GoOn(t)))
  {
    var w := NextWrite(s, t);
    if w.None? {
      LeaveKeeps(s, t);
    } else {
      assert RunsFor(s, DeviceOf(s, t), t);
      NextWriteIsReady(s, t);
      WaitsKeeps(s, t, w.value);
    }
  }

  lemma ApiTakesKeeps(s: System, d: Device, pulse: Option<Sequence>, t: Task)
    requires Inv(s) && Enabled(s, ApiTakes(d, pulse, t))
    ensures Inv(Next(s, ApiTakes(d, pulse, t)))
  {
  }

  lemma ApiFailsKeeps(s: System, u: nat)
    requires Inv(s) && Enabled(s, ApiFails(u))
    ensures Inv(Next(s, ApiFails(u)))
  {
  }

  lemma EndCancelledKeeps(s: System, t: Task)
    requires Inv(s) && Enabled(s, EndCancelled(t))
    ensures Inv(Next(s, EndCancelled(t)))
  {
    assert t !in s.table.writing * s.table.cancelled;
    LeaveKeeps(s, t);
  }

  lemma ApiOkKeeps(s: System, u: nat)
    requires Inv(s) && Enabled(s, ApiOk(u))
    ensures Inv(Next(s, ApiOk(u)))
  {
    var h := s.locks[u];
    var done := s.(locks := s.locks - {u}, log := s.log + [Direct(h.d)]);
    forall x ensures Trace(done.log, x) == Trace(s.log, x) {
      TraceOfMore(s.log, Direct(h.d), x);
    }
    assert Inv(done);
    if h.pulse.Some? {
      StartKeeps(done, h.d, h.pulse.value, h.next);
    }
  }

  lemma StopAllKeeps(s: System)
    requires Inv(s) && Enabled(s, FinishAll)
    ensures Inv(Next(s, FinishAll))
  {
  }

  lemma DrainedKeeps(s: System)
    requires Inv(s) && Enabled(s, Drained)
    ensures Inv(Next(s, Drained))
  {
    var z := Next(s, Drained);
    forall d | d in Pending(z.closing)
      ensures Awaited(z, d, Pending(z.closing)[d])
    {
      assert d in s.closing.candidates && Awaited(s, d, Pending(s.closing)[d]);
    }
  }

  lemma FinalFailsKeeps(s: System, d: Device)
    requires Inv(s) && Enabled(s, FinalFails(d))
    ensures Inv(Next(s, FinalFails(d)))
  {
    var z := Next(s, FinalFails(d));
    forall x | x in Pending(z.closing)
      ensures Awaited(z, x, Pending(z.closing)[x])
    {
      assert Awaited(s, x, Pending(s.closing)[x]);
    }
  }

  lemma FinalOkKeepsTraces(s: System, d: Device)
    requires Inv(s) && Enabled(s, FinalOk(d))
    ensures TracesOk(Next(s, FinalOk(d)))
  {
    var z := Next(s, FinalOk(d));
    var t := s.closing.todo[d];
    assert Awaited(s, d, Pending(s.closing)[d]);
    var n := s.table.entries[t].step;
    forall x | x in z.phases && x in z.table.entries
      ensures WroteIn(Trace(z.log, x), z.table.entries[x], z.phases[x], x in z.restored)
    {
      TraceOfMore(s.log, By(d, t, Final(n)), x);
    }
  }

  lemma FinalOkKeepsClosing(s: System, d: Device)
    requires Inv(s) && Enabled(s, FinalOk(d))
    ensures ClosingOk(Next(s, FinalOk(d)))
  {
    var z := Next(s, FinalOk(d));
    forall x | x in Pending(z.closing)
      ensures Awaited(z, x, Pending(z.closing)[x])
    {
      assert Awaited(s, x, Pending(s.closing)[x]) && Awaited(s, d, Pending(s.closing)[d]);
    }
  }

  lemma FinalOkKeeps(s: System, d: Device)
    requires Inv(s) && Enabled(s, FinalOk(d))
    ensures Inv(Next(s, FinalOk(d)))
  {
    FinalOkKeepsTraces(s, d);
    FinalOkKeepsClosing(s, d);
    assert Awaited(s, d, Pending(s.closing)[d]);
    assert TableOk(Next(s, FinalOk(d)));
  }

  lemma NextKeeps(s: System, e: Event)
    requires Inv(s) && Enabled(s, e)
    ensures Inv(Next(s, e))
  {
    match e
    case StartSequence(d, q, t) => StartKeeps(s, d, q, t);
    case CancelSequence(d) => CancelKeeps(s, d);
    case TakeTurn(t) => TakeTurnKeeps(s, t);
    case WriteOk(t) => WriteOkKeeps(s, t);
    case WriteFailed(t, retried) => WriteFailedKeeps(s, t, retried);
    case GoOn(t) => GoOnKeeps(s, t);
    case EndCancelled(t) => EndCancelledKeeps(s, t);
    case ApiTakes(d, pulse, t) => ApiTakesKeeps(s, d, pulse, t);
    case ApiOk(u) => ApiOkKeeps(s, u);
    case ApiFails(u) => ApiFailsKeeps(s, u);
    case FinishAll => StopAllKeeps(s);
    case Drained => DrainedKeeps(s);
    case FinalOk(d) => FinalOkKeeps(s, d);
    case FinalFails(d) => FinalFailsKeeps(s, d);
  }

  lemma {:induction false} RunKeeps(s: System, es: seq<Event>)
    requires Inv(s) && Run(s, es)
    ensures Inv(After(s, es))
    decreases |es|
  {
    if es != [] {
      NextKeeps(s, es[0]);
      RunKeeps(Next(s, es[0]), es[1..]);
    }
  }

  // ---- the trace of a sequence, in any interleaving ----

  /** The successful writes of a sequence are a prefix of its steps, each once and in order, and then at most one write
      of its final state, only after a proper prefix. The progress of a registered sequence is the length of the
      prefix. */
  lemma SequenceTrace(es: seq<Event>, t: Task)
    requires Run(EMPTY, es) && t in After(EMPTY, es).table.entries
    ensures
      var z := After(EMPTY, es);
      var trace, q := Trace(z.log, t), z.table.entries[t].sequence;
      && IsTrace(trace, q)
      && (Current(z.table, t) ==> IsPrefix(trace, q, z.table.entries[t].step) && z.table.entries[t].step < |q.steps|)
  {
    RunKeeps(EMPTY, es);
    var z := After(EMPTY, es);
    assert t in z.phases;
    TraceOf(Trace(z.log, t), z.table.entries[t], z.phases[t], t in z.restored);
    if Current(z.table, t) {
      assert RunsFor(z, DeviceOf(z, t), t);
      RegisteredTrace(Trace(z.log, t), z.table.entries[t], z.phases[t]);
    }
  }

  lemma TraceOf(trace: seq<What>, x: Entry, p: Phase, restored: bool)
    requires WroteIn(trace, x, p, restored)
    ensures IsTrace(trace, x.sequence)
  {
    var q := x.sequence;
    if !restored && p.Returns? && p.r == Good {
      if p.w.Step? {
        assert Steps(p.w.k) + [Step(p.w.k)] == Steps(p.w.k + 1);
        assert IsPrefix(trace, q, p.w.k + 1);
      } else {
        assert IsPrefixWithFinal(trace, q, p.w.k);
      }
    } else if !restored && p != Ended {
      assert IsPrefix(trace, q, p.w.k);
    } else {
      assert IsPrefix(trace, q, x.step) || IsPrefix(trace, q, |q.steps|) || IsPrefixWithFinal(trace, q, x.step);
    }
  }

  lemma RegisteredTrace(trace: seq<What>, x: Entry, p: Phase)
    requires WroteIn(trace, x, p, false) && !x.finished && p != Ended
    ensures IsPrefix(trace, x.sequence, x.step) && x.step < |x.sequence.steps|
  {
    if p.Returns? && p.r == Good && p.w.Step? {
      assert Steps(p.w.k) + [Step(p.w.k)] == Steps(p.w.k + 1);
    }
  }

  // ---- every step is written ----

  /** What a registered sequence does after a write: the next step after a successful one, the same again after an error
      of the communication, the final state after another error, unless the refused step is that state. */
  lemma GoesOnAfterWrite(s: System, t: Task)
    requires Enabled(s, GoOn(t)) && Current(s.table, t)
    ensures
      var q, w, z := SequenceOf(s, t), s.phases[t].w, Next(s, GoOn(t)).phases[t];
      match s.phases[t].r
      case Good => z == if IsLast(q, w) then Ended else Waits(Step(w.k + 1))
      case Retried => z == Waits(w)
      case Refused =>
        z == (if w.Step? && w.k < |q.steps| && q.final.Some? && q.final.value != q.steps[w.k]
              then Waits(Final(w.k)) else Ended)
  {
  }

  lemma FailedWriteReturns(s: System, t: Task, retried: bool)
    requires Enabled(s, WriteFailed(t, retried))
    ensures var y := Next(s, WriteFailed(t, retried));
            Enabled(y, GoOn(t)) && y.phases[t].r == (if retried then Retried else Refused) &&
            y.phases[t].w == s.phases[t].w && y.table.entries == s.table.entries &&
            y.table.running == s.table.running &&
            y.log == s.log
  {
  }

  /** A registered sequence whose write fails: after an error of the communication it writes the same again, after
      another error of a step its final state, if there is one and it is not what the unit just refused; else it ends.
      */
  lemma GoesOnAfterFailure(s: System, t: Task, retried: bool)
    requires Enabled(s, WriteFailed(t, retried)) && Current(s.table, t)
    ensures Enabled(Next(s, WriteFailed(t, retried)), GoOn(t))
    ensures
      var q, w := SequenceOf(s, t), s.phases[t].w;
      var z := Next(Next(s, WriteFailed(t, retried)), GoOn(t));
      t in z.phases && z.log == s.log &&
      z.phases[t] ==
      if retried then Waits(w)
      else if w.Step? && w.k < |q.steps| && q.final.Some? && q.final.value != q.steps[w.k] then Waits(Final(w.k))
      else Ended
  {
    FailedWriteReturns(s, t, retried);
    GoesOnAfterWrite(Next(s, WriteFailed(t, retried)), t);
  }

  /** The task writes a step without an error. */
  function RoundOf(t: Task): seq<Event> {
    [TakeTurn(t), WriteOk(t), GoOn(t)]
  }

  /** The registered task waits with its k-th step, and nobody uses its unit. */
  ghost predicate Ready(s: System, t: Task, q: Sequence, k: nat) {
    && Inv(s) && t in s.table.entries && Current(s.table, t) && RunsFor(s, DeviceOf(s, t), t) && SequenceOf(s, t) == q
    && s.phases[t] == Waits(Step(k)) && k < |q.steps| && DeviceOf(s, t).unit !in s.locks
  }

  /** It has written all its steps. */
  ghost predicate Completed(s: System, t: Task, q: Sequence) {
    t in s.phases && s.phases[t] == Ended && Trace(s.log, t) == Steps(|q.steps|)
  }

  lemma {:induction false} RunOfBoth(s: System, es: seq<Event>, fs: seq<Event>)
    requires Run(s, es) && Run(After(s, es), fs)
    ensures Run(s, es + fs) && After(s, es + fs) == After(After(s, es), fs)
    decreases |es|
  {
    if es == [] {
      assert es + fs == fs;
    } else {
      assert (es + fs)[0] == es[0] && (es + fs)[1..] == es[1..] + fs;
      RunOfBoth(Next(s, es[0]), es[1..], fs);
    }
  }

  lemma {:induction false} RunOfOne(s: System, e: Event)
    requires Enabled(s, e)
    ensures Run(s, [e]) && After(s, [e]) == Next(s, e)
  {
    assert [e][1..] == [];
    assert Run(Next(s, e), []) && After(Next(s, e), []) == Next(s, e);
  }

  lemma RoundBegins(s: System, t: Task, q: Sequence, k: nat)
    requires Ready(s, t, q, k)
    ensures Enabled(s, TakeTurn(t))
    ensures var y := Next(s, TakeTurn(t));
            y.log == s.log && y.table.entries == s.table.entries && y.table.running == s.table.running &&
            Enabled(y, WriteOk(t)) && y.phases[t] == Writes(Step(k))
  {
  }

  lemma RoundWrites(s: System, t: Task, q: Sequence, k: nat)
    requires Enabled(s, WriteOk(t)) && s.phases[t] == Writes(Step(k)) && Current(s.table, t) && SequenceOf(s, t) == q
    ensures var z := Next(s, WriteOk(t));
            z.log == s.log + [By(DeviceOf(s, t), t, Step(k))] && Enabled(z, GoOn(t)) &&
            z.phases[t] == Returns(Step(k), Good) && SequenceOf(z, t) == q &&
            (Current(z.table, t) <==> k + 1 != |q.steps|)
  {
  }

  lemma RoundEnds(s: System, t: Task, q: Sequence, k: nat)
    requires Inv(s) && Enabled(s, GoOn(t)) && s.phases[t] == Returns(Step(k), Good) && SequenceOf(s, t) == q
    requires Inv(Next(s, GoOn(t))) && k < |q.steps| && (Current(s.table, t) <==> k + 1 < |q.steps|)
    ensures var z := Next(s, GoOn(t));
            t in z.phases && z.log == s.log &&
            if k + 1 < |q.steps| then Ready(z, t, q, k + 1) else z.phases[t] == Ended
  {
    if Current(s.table, t) {
      assert RunsFor(s, DeviceOf(s, t), t);
      assert Next(s, GoOn(t)) == GoesOn(s, t, Step(k + 1));
    }
  }

  /** One step of the sequence, alone on its unit. */
  lemma Round(s: System, t: Task, q: Sequence, k: nat) returns (z: System)
    requires Ready(s, t, q, k)
    ensures Run(s, RoundOf(t)) && z == After(s, RoundOf(t))
    ensures t in z.phases && Trace(z.log, t) == Trace(s.log, t) + [Step(k)]
    ensures if k + 1 < |q.steps| then Ready(z, t, q, k + 1) else z.phases[t] == Ended
  {
    RoundBegins(s, t, q, k);
    RunOfOne(s, TakeTurn(t));
    NextKeeps(s, TakeTurn(t));
    var x := Next(s, TakeTurn(t));
    RoundWrites(x, t, q, k);
    RunOfOne(x, WriteOk(t));
    NextKeeps(x, WriteOk(t));
    var y := Next(x, WriteOk(t));
    TraceOfMore(s.log, By(DeviceOf(s, t), t, Step(k)), t);
    RunOfOne(y, GoOn(t));
    NextKeeps(y, GoOn(t));
    RoundEnds(y, t, q, k);
    z := Next(y, GoOn(t));
    RunOfBoth(x, [WriteOk(t)], [GoOn(t)]);
    RunOfBoth(s, [TakeTurn(t)], [WriteOk(t), GoOn(t)]);
  }

  lemma StepsOfMore(k: nat)
    ensures Steps(k) + [Step(k)] == Steps(k + 1)
  {
  }

  /** n rounds of the task are a run to its end with all steps written. */
  ghost predicate Completes(s: System, t: Task, q: Sequence, n: nat)
    decreases n
  {
    if n == 0 then Completed(s, t, q)
    else Run(s, RoundOf(t)) && Completes(After(s, RoundOf(t)), t, q, n - 1)
  }

  /** The task waits with its k-th step and has written the ones before it, or it has written all. */
  ghost predicate AfterSteps(s: System, t: Task, q: Sequence, k: nat) {
    if k < |q.steps| then Ready(s, t, q, k) && Trace(s.log, t) == Steps(k) else Completed(s, t, q)
  }

  lemma OneRoundMore(s: System, t: Task, q: Sequence, n: nat, z: System)
    requires Run(s, RoundOf(t)) && z == After(s, RoundOf(t))
    ensures Completes(z, t, q, n) ==> Completes(s, t, q, n + 1)
  {
  }

  lemma NextRound(s: System, t: Task, q: Sequence, k: nat) returns (z: System)
    requires AfterSteps(s, t, q, k) && k < |q.steps|
    ensures AfterSteps(z, t, q, k + 1)
    ensures Completes(z, t, q, |q.steps| - k - 1) ==> Completes(s, t, q, |q.steps| - k)
  {
    z := Round(s, t, q, k);
    StepsOfMore(k);
    OneRoundMore(s, t, q, |q.steps| - k - 1, z);
  }

  lemma {:induction false} StepsAreWritten(s: System, t: Task, q: Sequence, k: nat)
    requires AfterSteps(s, t, q, k) && k <= |q.steps|
    ensures Completes(s, t, q, |q.steps| - k)
    decreases |q.steps| - k
  {
    if k < |q.steps| {
      var z := NextRound(s, t, q, k);
      StepsAreWritten(z, t, q, k + 1);
    }
  }

  /** From any reachable state a registered sequence which waits with a step writes all its steps and ends, if its
      writes succeed and nobody else uses its unit. */
  lemma SequenceCompletes(before: seq<Event>, t: Task, q: Sequence, k: nat)
    requires Run(EMPTY, before) && InPhase(After(EMPTY, before), t) && Current(After(EMPTY, before).table, t)
    requires After(EMPTY, before).phases[t] == Waits(Step(k)) && SequenceOf(After(EMPTY, before), t) == q
    requires DeviceOf(After(EMPTY, before), t).unit !in After(EMPTY, before).locks
    ensures k < |q.steps| && Completes(After(EMPTY, before), t, q, |q.steps| - k)
  {
    RunKeeps(EMPTY, before);
    WaitsReady(After(EMPTY, before), t, q, k);
    StepsAreWritten(After(EMPTY, before), t, q, k);
  }

  lemma WaitsReady(s: System, t: Task, q: Sequence, k: nat)
    requires Inv(s) && InPhase(s, t) && Current(s.table, t) && SequenceOf(s, t) == q
    requires s.phases[t] == Waits(Step(k)) && DeviceOf(s, t).unit !in s.locks
    ensures Ready(s, t, q, k) && Trace(s.log, t) == Steps(k)
  {
    assert RunsFor(s, DeviceOf(s, t), t);
  }

  // ---- a pulse ----

  /** The params of a write. */
  function ParamsOf(q: Sequence, w: What): Params
    requires if w.Step? then w.k < |q.steps| else q.final.Some?
  {
    if w.Step? then q.steps[w.k] else q.final.value
  }

  /** In any interleaving, with shutdown too, a pulse writes its opposite value at most once, and nothing else. */
  lemma PulseEndsOnce(es: seq<Event>, t: Task, value: int)
    requires Run(EMPTY, es) && t in After(EMPTY, es).table.entries
    requires After(EMPTY, es).table.entries[t].sequence == Pulse(value)
    ensures
      var trace := Trace(After(EMPTY, es).log, t);
      |trace| <= 1 &&
      forall w :: w in trace ==>
        w in {Step(0), Final(0)} && ParamsOf(Pulse(value), w) == Params(map["value" := 1 - value])
  {
    SequenceTrace(es, t);
    var trace, q := Trace(After(EMPTY, es).log, t), Pulse(value);
    var n :| IsPrefix(trace, q, n) || IsPrefixWithFinal(trace, q, n);
    assert n == 0 || n == 1;
    assert Steps(0) == [] && Steps(1) == [Step(0)];
  }

  /** A refused end of a pulse is not written again as its final state. */
  lemma RefusedPulseEnds(s: System, t: Task, value: int)
    requires InPhase(s, t) && SequenceOf(s, t) == Pulse(value) && s.phases[t] == Returns(Step(0), Refused)
    ensures Next(s, GoOn(t)) == Leave(s, t)
  {
  }

  // ---- a replaced or cancelled sequence ----

  /** The task lost its registration, and finish_all() does not write its final state. */
  ghost predicate Replaced(s: System, t: Task) {
    && t in s.phases && t in s.table.entries && !Current(s.table, t)
    && (forall d :: d in Pending(s.closing) ==> Pending(s.closing)[d] != t)
  }

  /** What a replaced task may write further: nothing, or the write in progress. */
  predicate AtMostInProgress(before: seq<What>, p: Phase, after: seq<What>, p': Phase) {
    if p.Writes? then (p' == p && after == before) || (!p'.Writes? && (after == before || after == before + [p.w]))
    else !p'.Writes? && after == before
  }

  /** The task an event is of. */
  function Actor(s: System, e: Event): Option<Task>
    requires Enabled(s, e)
  {
    match e
    case TakeTurn(t) => Some(t)
    case WriteOk(t) => Some(t)
    case WriteFailed(t, _) => Some(t)
    case GoOn(t) => Some(t)
    case EndCancelled(t) => Some(t)
    case FinalOk(d) => Some(Pending(s.closing)[d])
    case _ => None
  }

  lemma OthersKeepTheirPhase(s: System, e: Event, t: Task)
    requires Enabled(s, e) && t in s.phases && Actor(s, e) != Some(t)
    ensures t in Next(s, e).phases && Next(s, e).phases[t] == s.phases[t]
  {
  }

  /** A step writes nothing, or one thing of its task or of the API. */
  predicate WritesAtMostOne(log: seq<Write>, after: seq<Write>, actor: Option<Task>) {
    after == log ||
    (|after| == |log| + 1 && log == after[..|log|] && (after[|log|].By? ==> actor == Some(after[|log|].t)))
  }

  lemma OneWriteAtMost(s: System, e: Event)
    requires Enabled(s, e)
    ensures WritesAtMostOne(s.log, Next(s, e).log, Actor(s, e))
  {
  }

  lemma OthersDoNotWrite(s: System, e: Event, t: Task)
    requires Enabled(s, e) && t in s.phases && Actor(s, e) != Some(t)
    ensures t in Next(s, e).phases && Next(s, e).phases[t] == s.phases[t]
    ensures Trace(Next(s, e).log, t) == Trace(s.log, t)
  {
    OthersKeepTheirPhase(s, e, t);
    OneWriteAtMost(s, e);
    TraceOfOthers(s.log, Next(s, e).log, Actor(s, e), t);
  }

  lemma TraceOfOthers(log: seq<Write>, after: seq<Write>, actor: Option<Task>, t: Task)
    requires WritesAtMostOne(log, after, actor) && actor != Some(t)
    ensures Trace(after, t) == Trace(log, t)
  {
    if after != log {
      assert after == log + [after[|log|]];
      TraceOfMore(log, after[|log|], t);
    }
  }

  lemma ReplacedActs(s: System, e: Event, t: Task)
    requires Inv(s) && Enabled(s, e) && Replaced(s, t) && Actor(s, e) == Some(t)
    ensures AtMostInProgress(Trace(s.log, t), s.phases[t], Trace(Next(s, e).log, t), Next(s, e).phases[t])
  {
    var z := Next(s, e);
    if e.WriteOk? {
      assert z.log == s.log + [By(DeviceOf(s, t), t, s.phases[t].w)];
      TraceOfMore(s.log, z.log[|s.log|], t);
    }
  }

  lemma ReplacedStep(s: System, e: Event, t: Task)
    requires Inv(s) && Enabled(s, e) && Replaced(s, t)
    ensures t in Next(s, e).phases
    ensures AtMostInProgress(Trace(s.log, t), s.phases[t], Trace(Next(s, e).log, t), Next(s, e).phases[t])
  {
    if Actor(s, e) == Some(t) {
      ReplacedActs(s, e, t);
    } else {
      OthersDoNotWrite(s, e, t);
    }
  }

  /** Only a new task is registered. */
  lemma NotRegisteredAgain(s: System, e: Event, t: Task)
    requires Enabled(s, e) && t in s.table.entries && !Current(s.table, t)
    ensures t in Next(s, e).table.entries && !Current(Next(s, e).table, t)
  {
  }

  lemma NotPendingLater(s: System, e: Event, d: Device)
    requires Enabled(s, e) && d in Pending(Next(s, e).closing)
    ensures if e.FinishAll? then d in s.table.running && Pending(Next(s, e).closing)[d] == s.table.running[d]
            else d in Pending(s.closing) && Pending(Next(s, e).closing)[d] == Pending(s.closing)[d]
  {
  }

  lemma ReplacedStays(s: System, e: Event, t: Task)
    requires Inv(s) && Enabled(s, e) && Replaced(s, t)
    ensures Replaced(Next(s, e), t)
  {
    NotRegisteredAgain(s, e, t);
    ReplacedStep(s, e, t);
    var c := Next(s, e).closing;
    forall d | d in Pending(c)
      ensures Pending(c)[d] != t
    {
      NotPendingLater(s, e, d);
      assert d in s.table.running ==> RunsFor(s, d, s.table.running[d]);
    }
  }

  /** From then on, in any run, the sequence begins no write: at most the write in progress is completed. */
  lemma {:induction false} ReplacedSequenceStops(s: System, es: seq<Event>, t: Task)
    requires Inv(s) && Run(s, es) && Replaced(s, t)
    ensures Replaced(After(s, es), t)
    ensures AtMostInProgress(Trace(s.log, t), s.phases[t], Trace(After(s, es).log, t), After(s, es).phases[t])
    decreases |es|
  {
    if es != [] {
      NextKeeps(s, es[0]);
      ReplacedStep(s, es[0], t);
      ReplacedStays(s, es[0], t);
      ReplacedSequenceStops(Next(s, es[0]), es[1..], t);
    }
  }

  /** No sequence in the table is left to finish_all(). */
  lemma RegisteredIsNotPending(s: System, d: Device)
    requires ClosingOk(s) && d in s.table.running && RunsFor(s, d, s.table.running[d])
    ensures forall x :: x in Pending(s.closing) ==> Pending(s.closing)[x] != s.table.running[d]
  {
    forall x | x in Pending(s.closing)
      ensures Pending(s.closing)[x] != s.table.running[d]
    {
      assert Awaited(s, x, Pending(s.closing)[x]);
    }
  }

  /** The cancelled sequence of a device is such a one. */
  lemma CancelReplaces(s: System, d: Device)
    requires Inv(s) && d in s.table.running
    ensures var t, z := s.table.running[d], Next(s, CancelSequence(d));
            Replaced(z, t) && d !in z.table.running && z.phases == s.phases && z.log == s.log
    ensures var t, z := s.table.running[d], Next(s, CancelSequence(d));
            t in z.table.cancelled <==> !s.phases[t].Writes?
  {
    assert RunsFor(s, d, s.table.running[d]);
    RegisteredIsNotPending(s, d);
  }

  /** And so is the one replaced by a new sequence. */
  lemma StartReplaces(s: System, d: Device, q: Sequence, t: Task)
    requires Inv(s) && Enabled(s, StartSequence(d, q, t)) && d in s.table.running
    ensures var x, z := s.table.running[d], Next(s, StartSequence(d, q, t));
            Replaced(z, x) && z.table.running[d] == t && z.phases[x] == s.phases[x] && z.log == s.log
    ensures var x, z := s.table.running[d], Next(s, StartSequence(d, q, t));
            x in z.table.cancelled <==> !s.phases[x].Writes?
  {
    assert RunsFor(s, d, s.table.running[d]);
    RegisteredIsNotPending(s, d);
  }

  /** From a reachable state, over any run after cancel() of the output: its sequence may complete the write in
      progress, and writes nothing more. */
  lemma CancelledSequenceStops(before: seq<Event>, d: Device, es: seq<Event>)
    requires Run(EMPTY, before) && d in After(EMPTY, before).table.running
    requires Run(Next(After(EMPTY, before), CancelSequence(d)), es)
    ensures
      var s := After(EMPTY, before);
      var t, z := s.table.running[d], After(Next(s, CancelSequence(d)), es);
      t in s.phases && t in z.phases && !(t in z.table.entries && Current(z.table, t)) &&
      AtMostInProgress(Trace(s.log, t), s.phases[t], Trace(z.log, t), z.phases[t])
  {
    RunKeeps(EMPTY, before);
    var s := After(EMPTY, before);
    NextKeeps(s, CancelSequence(d));
    CancelReplaces(s, d);
    ReplacedSequenceStops(Next(s, CancelSequence(d)), es, s.table.running[d]);
  }

  // ---- the hand-over of a pulse ----

  /** Another sequence of the device is started, or its sequence is cancelled, or finish_all() runs. */
  predicate Removes(s: System, e: Event, d: Device)
    requires Enabled(s, e)
  {
    match e
    case StartSequence(x, _, _) => x == d
    case CancelSequence(x) => x == d
    case ApiOk(u) => s.locks[u].d == d && s.locks[u].pulse.Some?
    case FinishAll => true
    case _ => false
  }

  predicate Undisturbed(s: System, es: seq<Event>, d: Device)
    requires Run(s, es)
    decreases |es|
  {
    es != [] ==> !Removes(s, es[0], d) && Undisturbed(Next(s, es[0]), es[1..], d)
  }

  /** The sequence is registered for the device until its own end. */
  predicate RegisteredOrEnded(s: System, d: Device, t: Task) {
    t in s.table.entries && t in s.phases &&
    ((d in s.table.running && s.table.running[d] == t) || s.phases[t] == Ended || s.table.entries[t].finished)
  }

  /** The table changes by its own task only, unless something else is started or cancelled for the device. */
  lemma OthersKeepRegistered(s: System, e: Event, d: Device)
    requires Enabled(s, e) && !Removes(s, e, d) && d in s.table.running && RunsFor(s, d, s.table.running[d])
    requires Actor(s, e) != Some(s.table.running[d])
    ensures d in Next(s, e).table.running && Next(s, e).table.running[d] == s.table.running[d]
  {
  }

  lemma EndedStays(s: System, e: Event, t: Task)
    requires Enabled(s, e) && t in s.phases && s.phases[t] == Ended
    ensures t in Next(s, e).phases && Next(s, e).phases[t] == Ended
  {
  }

  lemma FinishedStays(s: System, e: Event, t: Task)
    requires Enabled(s, e) && t in s.table.entries
    ensures t in Next(s, e).table.entries && (s.table.entries[t].finished ==> Next(s, e).table.entries[t].finished)
  {
  }

  lemma OwnEnd(s: System, e: Event, t: Task)
    requires Enabled(s, e) && t in s.table.entries && Current(s.table, t) && RunsFor(s, DeviceOf(s, t), t)
    requires Actor(s, e) == Some(t) && !e.FinalOk?
    ensures RegisteredOrEnded(Next(s, e), DeviceOf(s, t), t)
  {
  }

  lemma FinalsAreOfOthers(s: System, e: Event, t: Task)
    requires ClosingOk(s) && Enabled(s, e) && t in s.table.entries && Current(s.table, t) && Actor(s, e) == Some(t)
    ensures !e.FinalOk?
  {
  }

  lemma RegisteredStep(s: System, e: Event, d: Device, t: Task)
    requires Inv(s) && Enabled(s, e) && !Removes(s, e, d) && RegisteredOrEnded(s, d, t)
    ensures RegisteredOrEnded(Next(s, e), d, t)
  {
    if d in s.table.running && s.table.running[d] == t {
      assert RunsFor(s, d, t);
      CurrentStep(s, e, d, t);
    } else {
      GoneStep(s, e, d, t);
    }
  }

  lemma CurrentStep(s: System, e: Event, d: Device, t: Task)
    requires Inv(s) && Enabled(s, e) && !Removes(s, e, d)
    requires d in s.table.running && s.table.running[d] == t && RunsFor(s, d, t)
    ensures RegisteredOrEnded(Next(s, e), d, t)
  {
    if Actor(s, e) == Some(t) {
      FinalsAreOfOthers(s, e, t);
      OwnEnd(s, e, t);
    } else {
      OthersKeepRegistered(s, e, d);
      FinishedStays(s, e, t);
      OthersDoNotWrite(s, e, t);
    }
  }

  lemma GoneStep(s: System, e: Event, d: Device, t: Task)
    requires Enabled(s, e) && t in s.table.entries && t in s.phases &&
             (s.phases[t] == Ended || s.table.entries[t].finished)
    ensures RegisteredOrEnded(Next(s, e), d, t)
  {
    FinishedStays(s, e, t);
    if s.phases[t] == Ended {
      EndedStays(s, e, t);
    } else {
      PhasesStay(s, e, t);
    }
  }

  lemma PhasesStay(s: System, e: Event, t: Task)
    requires Enabled(s, e) && t in s.phases
    ensures t in Next(s, e).phases
  {
  }

  lemma {:induction false} StaysRegistered(s: System, es: seq<Event>, d: Device, t: Task)
    requires Inv(s) && Run(s, es) && Undisturbed(s, es, d) && RegisteredOrEnded(s, d, t)
    ensures RegisteredOrEnded(After(s, es), d, t)
    decreases |es|
  {
    if es != [] {
      NextKeeps(s, es[0]);
      RegisteredStep(s, es[0], d, t);
      StaysRegistered(Next(s, es[0]), es[1..], d, t);
    }
  }

  /** While the API holds the lock of the unit, no task of its outputs writes. */
  lemma LockedUnitIsQuiet(s: System, u: nat, t: Task)
    requires LocksOk(s) && u in s.locks && s.locks[u].ByApi?
    requires t in s.phases && t in s.table.entries && DeviceOf(s, t).unit == u
    ensures !s.phases[t].Writes?
  {
  }

  lemma PulseTakesPlace(s: System, u: nat, d: Device)
    requires Enabled(s, ApiOk(u)) && s.locks[u].pulse.Some? && d == s.locks[u].d
    requires d in s.table.running && RunsFor(s, d, s.table.running[d])
    ensures var t, y := s.table.running[d], Next(s, ApiOk(u));
            && t in y.phases && t in y.table.entries && !Current(y.table, t)
            && y.phases[t] == s.phases[t] && y.closing == s.closing && y.log == s.log + [Direct(d)]
  {
  }

  /** The pulse replaces the sequence registered before, which writes nothing at this moment. */
  lemma PulseReplaces(s: System, u: nat, d: Device)
    requires Inv(s) && Enabled(s, ApiOk(u)) && s.locks[u].pulse.Some? && d == s.locks[u].d && d in s.table.running
    ensures var t, y := s.table.running[d], Next(s, ApiOk(u));
            t in s.phases && Replaced(y, t) && !y.phases[t].Writes? && Trace(y.log, t) == Trace(s.log, t)
  {
    var t := s.table.running[d];
    assert RunsFor(s, d, t);
    PulseTakesPlace(s, u, d);
    LockedUnitIsQuiet(s, u, t);
    RegisteredIsNotPending(s, d);
    TraceOfMore(s.log, Direct(d), t);
  }

  /** From the successful set() of the value of a pulse the pulse is the registered sequence of the output, in any run
      until it ends, is cancelled or is replaced; the sequence registered before writes nothing more. */
  lemma PulseTakesOver(s: System, u: nat, es: seq<Event>)
    requires Inv(s) && Enabled(s, ApiOk(u)) && s.locks[u].pulse.Some?
    requires Run(Next(s, ApiOk(u)), es)
    ensures
      var h, z := s.locks[u], After(Next(s, ApiOk(u)), es);
      && (Undisturbed(Next(s, ApiOk(u)), es, h.d) ==> RegisteredOrEnded(z, h.d, h.next))
      && (h.d in s.table.running ==> Trace(z.log, s.table.running[h.d]) == Trace(s.log, s.table.running[h.d]))
  {
    var h, y := s.locks[u], Next(s, ApiOk(u));
    NextKeeps(s, ApiOk(u));
    if Undisturbed(y, es, h.d) {
      StaysRegistered(y, es, h.d, h.next);
    }
    if h.d in s.table.running {
      PulseReplaces(s, u, h.d);
      ReplacedSequenceStops(y, es, s.table.running[h.d]);
    }
  }

  /** A pulse whose set() fails leaves the registered sequences, in any run in which nothing else replaces them. */
  lemma FailedPulseReplacesNothing(s: System, u: nat, es: seq<Event>, d: Device)
    requires Inv(s) && Enabled(s, ApiFails(u)) && d in s.table.running
    requires Run(Next(s, ApiFails(u)), es) && Undisturbed(Next(s, ApiFails(u)), es, d)
    ensures RegisteredOrEnded(After(Next(s, ApiFails(u)), es), d, s.table.running[d])
  {
    NextKeeps(s, ApiFails(u));
    assert RunsFor(s, d, s.table.running[d]);
    StaysRegistered(Next(s, ApiFails(u)), es, d, s.table.running[d]);
  }
}
