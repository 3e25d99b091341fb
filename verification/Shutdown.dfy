/** finish_all() of src/evok/blocks/sequencer.py: the outputs are restored on shutdown. */
module Shutdowns {
  import opened Common
  import opened Sequencers
  import opened SequenceRuns

  /** Nothing new is started, and the writes of the final states succeed. */
  predicate QuietEvent(s: System, e: Event)
    requires Enabled(s, e)
  {
    match e
    case StartSequence(_, _, _) => false
    case ApiTakes(_, _, _) => false
    case ApiOk(u) => s.locks[u].pulse.None?
    case FinalFails(_) => false
    case _ => true
  }

  predicate Quiet(s: System, es: seq<Event>)
    requires Run(s, es)
    decreases |es|
  {
    es != [] ==> QuietEvent(s, es[0]) && Quiet(Next(s, es[0]), es[1..])
  }

  /** The last successful write of a device. */
  function LastOf(log: seq<Write>, d: Device): Option<Write> {
    if log == [] then None
    else if log[|log| - 1].d == d then Some(log[|log| - 1])
    else LastOf(log[..|log| - 1], d)
  }

  lemma LastOfMore(log: seq<Write>, x: Write, d: Device)
    ensures LastOf(log + [x], d) == if x.d == d then Some(x) else LastOf(log, d)
  {
    assert (log + [x])[..|log|] == log;
  }

  /** The write ends the sequence: its last step or its final state. */
  predicate Ends(x: Option<Write>, t: Task, q: Sequence) {
    x.Some? && x.value.By? && x.value.t == t && IsLast(q, x.value.w)
  }

  /** No task writes to the device, no change of it runs, and no final state of it is to do. */
  ghost predicate Settled(s: System, d: Device) {
    && (forall x :: x in s.phases && x in s.table.entries && s.phases[x].Writes? ==> DeviceOf(s, x) != d)
    && (d.unit in s.locks && s.locks[d.unit].ByApi? ==> s.locks[d.unit].d != d)
    && (s.closing.Finals? ==> d !in s.closing.todo)
  }

  /** The final state of the device is to do, or its sequence has ended and nothing else writes to it. */
  ghost predicate Covered(s: System, d: Device, t: Task) {
    && s.table.running == map[] && t in s.table.entries && t in s.phases && DeviceOf(s, t) == d && !s.closing.Open?
    && (s.closing.Draining? ==> d in s.closing.candidates && s.closing.candidates[d] == t && t !in s.restored)
    && if s.table.entries[t].finished || t in s.restored
       then Settled(s, d) && Ends(LastOf(s.log, d), t, SequenceOf(s, t))
       else d in Pending(s.closing) && Pending(s.closing)[d] == t
  }

  lemma OwnWriteCovers(s: System, d: Device, t: Task)
    requires Inv(s) && Enabled(s, WriteOk(t)) && Covered(s, d, t)
    ensures Covered(Next(s, WriteOk(t)), d, t)
  {
    var z := Next(s, WriteOk(t));
    LastOfMore(s.log, By(d, t, s.phases[t].w), d);
    assert s.locks[d.unit] == ByTask(t);
    assert !s.table.entries[t].finished && t !in s.restored;
    assert Awaited(s, d, Pending(s.closing)[d]);
    assert t !in s.table.cancelled;
  }

  lemma OtherWriteCovers(s: System, d: Device, t: Task, x: Task)
    requires Inv(s) && Enabled(s, WriteOk(x)) && Covered(s, d, t) && x != t
    ensures Covered(Next(s, WriteOk(x)), d, t)
  {
    LastOfMore(s.log, By(DeviceOf(s, x), x, s.phases[x].w), d);
  }

  lemma FinalCovers(s: System, d: Device, t: Task, x: Device)
    requires LocksOk(s) && Enabled(s, FinalOk(x)) && Covered(s, d, t) && Awaited(s, x, s.closing.todo[x])
    ensures Covered(Next(s, FinalOk(x)), d, t)
  {
    var y := s.closing.todo[x];
    LastOfMore(s.log, By(x, y, Final(s.table.entries[y].step)), d);
  }

  lemma DirectCovers(s: System, d: Device, t: Task, u: nat)
    requires Inv(s) && Enabled(s, ApiOk(u)) && QuietEvent(s, ApiOk(u)) && Covered(s, d, t)
    ensures Covered(Next(s, ApiOk(u)), d, t)
  {
    LastOfMore(s.log, Direct(s.locks[u].d), d);
  }

  lemma LeaveCovers(s: System, d: Device, t: Task, x: Task)
    requires Covered(s, d, t) && x in s.table.entries
    ensures Covered(Leave(s, x), d, t)
  {
  }

  /** The other events write nothing. */
  lemma SilentCovers(s: System, e: Event, d: Device, t: Task)
    requires Enabled(s, e) && QuietEvent(s, e) && Covered(s, d, t) && !e.WriteOk? && !e.FinalOk? && !e.ApiOk?
    ensures Covered(Next(s, e), d, t)
  {
    match e
    case TakeTurn(x) => LeaveCovers(s, d, t, x);
    case GoOn(x) => LeaveCovers(s, d, t, x);
    case EndCancelled(x) => LeaveCovers(s, d, t, x);
    case _ =>
  }

  lemma StepCovers(s: System, e: Event, d: Device, t: Task)
    requires Inv(s) && Enabled(s, e) && QuietEvent(s, e) && Covered(s, d, t)
    ensures Covered(Next(s, e), d, t)
  {
    match e
    case WriteOk(x) =>
      if x == t {
        OwnWriteCovers(s, d, t);
      } else {
        OtherWriteCovers(s, d, t, x);
      }
    case FinalOk(x) =>
      assert Awaited(s, x, Pending(s.closing)[x]);
      FinalCovers(s, d, t, x);
    case ApiOk(u) => DirectCovers(s, d, t, u);
    case _ => SilentCovers(s, e, d, t);
  }

  /** With the empty table no task begins a write. */
  lemma NoneBegins(s: System, e: Event, t: Task)
    requires Enabled(s, e) && QuietEvent(s, e) && s.table.running == map[] && !IsWriting(s, t)
    ensures !IsWriting(Next(s, e), t)
  {
  }

  predicate IsWriting(s: System, t: Task) {
    t in s.phases && s.phases[t].Writes?
  }

  /** Some step of the run begins a write of the task. */
  predicate Begins(s: System, es: seq<Event>, t: Task)
    requires Run(s, es)
    decreases |es|
  {
    es != [] &&
    ((!IsWriting(s, t) && IsWriting(Next(s, es[0]), t)) || Begins(Next(s, es[0]), es[1..], t))
  }

  lemma TableStaysEmpty(s: System, e: Event)
    requires Enabled(s, e) && QuietEvent(s, e) && s.table.running == map[]
    ensures Next(s, e).table.running == map[]
  {
  }

  /** After the shutdown no step of any sequence begins. */
  lemma {:induction false} NoStepBegins(s: System, es: seq<Event>, t: Task)
    requires Run(s, es) && Quiet(s, es) && s.table.running == map[]
    ensures !Begins(s, es, t)
    decreases |es|
  {
    if es != [] {
      TableStaysEmpty(s, es[0]);
      if !IsWriting(s, t) {
        NoneBegins(s, es[0], t);
      }
      NoStepBegins(Next(s, es[0]), es[1..], t);
    }
  }

  lemma {:induction false} RunCovers(s: System, es: seq<Event>, d: Device, t: Task)
    requires Inv(s) && Run(s, es) && Quiet(s, es) && Covered(s, d, t)
    ensures Covered(After(s, es), d, t)
    decreases |es|
  {
    if es != [] {
      NextKeeps(s, es[0]);
      StepCovers(s, es[0], d, t);
      RunCovers(Next(s, es[0]), es[1..], d, t);
    }
  }

  /** A task which ended wrote all its steps, or its final state after a proper prefix, not both. */
  lemma EndedTrace(trace: seq<What>, x: Entry, p: Phase, restored: bool)
    requires WroteIn(trace, x, p, restored) && (x.finished || restored)
    ensures IsPrefix(trace, x.sequence, |x.sequence.steps|) != IsPrefixWithFinal(trace, x.sequence, x.step)
  {
    var q := x.sequence;
    if !restored && p.Returns? && p.w.Step? {
      assert Steps(p.w.k) + [Step(p.w.k)] == Steps(p.w.k + 1);
    }
    assert IsPrefixWithFinal(trace, q, x.step) ==> trace[|trace| - 1] == Final(x.step);
    assert IsPrefix(trace, q, |q.steps|) && trace != [] ==> trace[|trace| - 1] == Step(|trace| - 1);
  }

  /** Shutdown, from any reachable state: if nothing new is started and the final writes succeed, at the end the last
      successful write of every output which had a running sequence with a final state is that final state or the last
      step of the sequence, never both; and in the whole run after the shutdown no step of any sequence begins. */
  lemma ShutdownRestoresOutputs(before: seq<Event>, es: seq<Event>, d: Device, x: Task)
    requires Run(EMPTY, before) && Enabled(After(EMPTY, before), FinishAll)
    requires Run(Next(After(EMPTY, before), FinishAll), es) && Quiet(Next(After(EMPTY, before), FinishAll), es)
    requires After(Next(After(EMPTY, before), FinishAll), es).closing == Finals(map[])
    requires var s := After(EMPTY, before);
             d in s.table.running && SequenceOf(s, s.table.running[d]).final.Some?
    ensures
      var s := After(EMPTY, before);
      var z, t := After(Next(s, FinishAll), es), s.table.running[d];
      && t in z.table.entries && Ends(LastOf(z.log, d), t, z.table.entries[t].sequence)
      && IsPrefix(Trace(z.log, t), z.table.entries[t].sequence, |z.table.entries[t].sequence.steps|) !=
         IsPrefixWithFinal(Trace(z.log, t), z.table.entries[t].sequence, z.table.entries[t].step)
      && !Begins(Next(s, FinishAll), es, x)
  {
    RunKeeps(EMPTY, before);
    var s := After(EMPTY, before);
    var t, y := s.table.running[d], Next(s, FinishAll);
    NextKeeps(s, FinishAll);
    assert RunsFor(s, d, t);
    RunKeeps(y, es);
    RunCovers(y, es, d, t);
    NoStepBegins(y, es, x);
    var z := After(y, es);
    EndedTrace(Trace(z.log, t), z.table.entries[t], z.phases[t], t in z.restored);
  }
}
