/** The sequences of the outputs, src/evok/blocks/sequencer.py: the table of the running sequences. */
module Sequencers {
  import opened Common

  type Task = nat

  /** An output: its unit, whose lock a change of the output takes, and its circuit. */
  datatype Device = Device(unit: nat, circuit: nat)

  /** The params of set() of a device. */
  datatype Params = Params(fields: map<string, int>)

  datatype Sequence = Sequence(steps: seq<Params>, final: Option<Params>)

  /** The rest of a pulse after its value has been set: the opposite value, which is its final state too. */
  function Pulse(value: int): Sequence {
    var end := Params(map["value" := 1 - value]);
    Sequence([end], Some(end))
  }

  /** The progress of a sequence: the number of the done steps, and whether it ended by its last write. */
  datatype Entry = Entry(device: Device, sequence: Sequence, step: nat, finished: bool)

  /** The table: the registered task of each device, the entries of all tasks, the tasks which write a step, and the
      tasks on which cancel() was called. */
  datatype Table = Table(
    running: map<Device, Task>,
    entries: map<Task, Entry>,
    writing: set<Task>,
    cancelled: set<Task>)

  predicate Current(x: Table, t: Task) {
    t in x.entries && x.entries[t].device in x.running && x.running[x.entries[t].device] == t
  }

  /** A task writing its step is not cancelled. */
  function Stop(x: Table, t: Task): Table {
    if t in x.writing then x else x.(cancelled := x.cancelled + {t})
  }

  function Start(x: Table, d: Device, q: Sequence, t: Task): Table {
    var y := if d in x.running then Stop(x, x.running[d]) else x;
    y.(running := y.running[d := t], entries := y.entries[t := Entry(d, q, 0, false)])
  }

  function Cancel(x: Table, d: Device): Table {
    if d in x.running then Stop(x, x.running[d]).(running := x.running - {d}) else x
  }

  /** The end of a task: it leaves the table if it is still the registered one. */
  function End(x: Table, t: Task): Table {
    if Current(x, t) then x.(running := x.running - {x.entries[t].device}) else x
  }

  /** The start of the operation of a step, under the lock of the unit. */
  function Begin(x: Table, t: Task): Table {
    if Current(x, t) then x.(writing := x.writing + {t}) else x
  }

  /** A successful write of the step with the number. */
  function Written(x: Table, t: Task, number: nat, last: bool): Table
    requires t in x.entries
  {
    var y := x.(writing := x.writing - {t},
    entries := x.entries[t := x.entries[t].(step := number, finished := x.entries[t].finished || last)]);
    if last then End(y, t) else y
  }

  /** The first block of finish_all(): the table is emptied and the tasks are stopped. */
  function StopAll(x: Table): Table {
    x.(running := map[], cancelled := x.cancelled + Stopped(x.running, x.writing))
  }

  /** The tasks of the table which are cancelled, the ones not writing a step. */
  function Stopped(running: map<Device, Task>, writing: set<Task>): set<Task> {
    set d | d in running && running[d] !in writing :: running[d]
  }

  lemma StoppedOfMore(running: map<Device, Task>, d: Device, t: Task, writing: set<Task>)
    requires d !in running
    ensures Stopped(running[d := t], writing) == Stopped(running, writing) + if t in writing then {} else {t}
  {
    assert forall x :: x in running ==> x in running[d := t] && running[d := t][x] == running[x];
    assert running[d := t][d] == t;
  }

  /** The sequences whose final state is written on shutdown. */
  function Candidates(x: Table): map<Device, Task>
    requires forall d :: d in x.running ==> x.running[d] in x.entries
  {
    map d | d in x.running && x.entries[x.running[d]].sequence.final.Some? :: x.running[d]
  }

  class Running {
    const task: Task
    const device: Device
    const sequence: Sequence
    var step: nat
    var finished: bool

    ghost function View(): Entry
      reads this
    {
      Entry(device, sequence, step, finished)
    }

    constructor (task: Task, device: Device, sequence: Sequence)
      ensures this.task == task && View() == Entry(device, sequence, 0, false)
    {
      this.task, this.device, this.sequence := task, device, sequence;
      step, finished := 0, false;
    }
  }

  function Tasks(running: map<Device, Running>): map<Device, Task> {
    map d | d in running :: running[d].task
  }

  class Sequencer {
    var running: map<Device, Running>
    var writing: set<Task>
    ghost var cancelled: set<Task>
    ghost var all: map<Task, Running>   // also the entries their tasks still use after they left the table

    ghost predicate Valid()
      reads this
    {
      && (forall d :: d in running ==>
            running[d].task in all && all[running[d].task] == running[d] && running[d].device == d)
      && (forall t :: t in all ==> all[t].task == t)
    }

    ghost function View(): Table
      reads this, all.Values
    {
      Table(Tasks(running),
            map t | t in all :: (assert all[t] in all.Values; all[t].View()), writing, cancelled)
    }

    constructor ()
      ensures Valid() && View() == Table(map[], map[], {}, {}) && all == map[]
    {
      running, writing, cancelled, all := map[], {}, {}, map[];
    }

    method DoStop(entry: Running)
      modifies this`cancelled
      ensures cancelled == if entry.task in writing then old(cancelled) else old(cancelled) + {entry.task}
    {
      if entry.task !in writing {
        cancelled := cancelled + {entry.task};
      }
    }

    method DoStart(d: Device, q: Sequence, t: Task)
      requires Valid() && t !in all
      modifies this
      ensures Valid() && View() == Start(old(View()), d, q, t)
    {
      if d in running {
        DoStop(running[d]);
      }
      assert View() == if d in old(running) then Stop(old(View()), old(running)[d].task) else old(View());
      var entry := new Running(t, d, q);
      Register(d, entry);
    }

    method Register(d: Device, entry: Running)
      requires Valid() && entry.task !in all && entry.device == d
      modifies this`running, this`all
      ensures Valid()
      ensures View() == old(View()).(running := old(View()).running[d := entry.task],
                        entries := old(View()).entries[entry.task := entry.View()])
    {
      running := running[d := entry];
      all := all[entry.task := entry];
      assert Tasks(running) == old(Tasks(running))[d := entry.task];
      assert View().entries == old(View()).entries[entry.task := entry.View()];
    }

    method DoCancel(d: Device)
      requires Valid()
      modifies this
      ensures Valid() && View() == Cancel(old(View()), d)
    {
      if d in running {
        DoStop(running[d]);
        running := running - {d};
      }
    }

    method IsCurrent(d: Device, t: Task) returns (r: bool)
      requires Valid() && t in all && all[t].device == d
      ensures r == Current(View(), t)
    {
      r := d in running && running[d].task == t;
    }

    method DoEnd(d: Device, t: Task) returns (r: bool)
      requires Valid() && t in all && all[t].device == d
      modifies this`running
      ensures Valid() && View() == End(old(View()), t)
      ensures r == Current(old(View()), t)
    {
      r := IsCurrent(d, t);
      if r {
        running := running - {d};
      }
    }

    /** The operation of _apply() up to set() of the device: None, if the sequence was cancelled or replaced. */
    method DoBegin(d: Device, t: Task) returns (entry: Option<Running>)
      requires Valid() && t in all && all[t].device == d
      modifies this`writing
      ensures Valid() && View() == Begin(old(View()), t)
      ensures entry == if Current(old(View()), t) then Some(all[t]) else None
    {
      if d !in running || running[d].task != t {
        return None;
      }
      writing := writing + {t};
      return Some(running[d]);
    }

    /** The operation of _apply() after set() of the device. */
    method DoneSet(entry: Running, ok: bool, number: nat, last: bool)
      requires Valid() && entry.task in all && all[entry.task] == entry
      modifies this`writing, this`running, entry
      ensures Valid()
      ensures View() == if ok then Written(old(View()), entry.task, number, last)
                        else old(View()).(writing := old(View()).writing - {entry.task})
    {
      ghost var x := View();
      writing := writing - {entry.task};
      if ok {
        entry.step := number;
        if last {
          entry.finished := true;
        }
        ghost var y := x.(writing := x.writing - {entry.task},
          entries := x.entries[entry.task := x.entries[entry.task].(step := number,
                               finished := x.entries[entry.task].finished || last)]);
        assert View().entries == y.entries;
        if last {
          var _ := DoEnd(entry.device, entry.task);
        }
      }
    }

    method StopEach(entries: map<Device, Running>)
      modifies this`cancelled
      ensures cancelled == old(cancelled) + Stopped(Tasks(entries), writing)
    {
      var rest := entries.Keys;
      while rest != {}
        invariant rest <= entries.Keys
        invariant cancelled == old(cancelled) + Stopped(Tasks(entries - rest), writing)
        decreases |rest|
      {
        var d :| d in rest;
        assert Tasks(entries - (rest - {d})) == Tasks(entries - rest)[d := entries[d].task];
        StoppedOfMore(Tasks(entries - rest), d, entries[d].task, writing);
        rest := rest - {d};
        DoStop(entries[d]);
      }
      assert entries - rest == entries;
    }

    /** The first block of finish_all(); returns the entries whose final state may be written and the writing tasks. */
    method DoStopAll() returns (candidates: map<Device, Running>, waits: set<Task>)
      requires Valid()
      modifies this`running, this`cancelled
      ensures Valid() && View() == StopAll(old(View()))
      ensures Tasks(candidates) == Candidates(old(View()))
      ensures forall d :: d in candidates <==> d in old(running) && old(running)[d].sequence.final.Some?
      ensures forall d :: d in candidates ==> candidates[d] == old(running)[d]
      ensures waits == writing
    {
      var entries := running;
      running := map[];
      StopEach(entries);
      candidates := map d | d in entries && entries[d].sequence.final.Some? :: entries[d];
      waits := writing;
    }
  }
}
