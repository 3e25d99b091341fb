/** Whole scans of a unit, src/evok/modbus/cache.py: what do_scan() and read_changed() do are events of CacheRuns, and
    the slow blocks keep their phase over any sequence of them. */
module ScanRuns {
  import opened Common
  import opened RegisterGroups
  import opened RegisterCaches
  import opened PlainCaches
  import opened CacheRuns

  // ---- a read of the blocks is a run ----

  /** The reads of the loop from the k-th block: the wanted blocks up to the first failure. */
  function ReadEvents(gs: seq<Group>, k: nat, w: Wanted, isInput: bool, first: Option<nat>,
                      visits: seq<Visit>): seq<Event>
    requires k <= |gs| == |visits|
    decreases |gs| - k
  {
    if k == |gs| then []
    else if !Wants(w, gs[k], isInput, first == Some(k), visits[k].asked)
    then ReadEvents(gs, k + 1, w, isInput, first, visits)
    else if visits[k].reply.None? then []
    else [Reread(k, visits[k].reply.value, visits[k].answered)] + ReadEvents(gs, k + 1, w, isInput, first, visits)
  }

  /** Each response has the words of its block. */
  predicate Complete(gs: seq<Group>, visits: seq<Visit>) {
    |visits| == |gs| &&
    forall k :: 0 <= k < |gs| && visits[k].reply.Some? ==> |visits[k].reply.value| == gs[k].count
  }

  lemma {:induction false} ReadEventsStay(gs: seq<Group>, hs: seq<Group>, k: nat, w: Wanted, isInput: bool,
                                          first: Option<nat>, visits: seq<Visit>)
    requires |gs| == |hs| == |visits| && k <= |gs| && forall i :: k <= i < |gs| ==> gs[i] == hs[i]
    ensures ReadEvents(gs, k, w, isInput, first, visits) == ReadEvents(hs, k, w, isInput, first, visits)
    decreases |gs| - k
  {
    if k < |gs| {
      ReadEventsStay(gs, hs, k + 1, w, isInput, first, visits);
    }
  }

  lemma {:induction false} ReadIsEvents(gs: seq<Group>, k: nat, w: Wanted, isInput: bool, first: Option<nat>,
                                        visits: seq<Visit>)
    requires SoundGroups(gs) && Disjoint(gs) && k <= |gs| && Complete(gs, visits)
    ensures Run(gs, ReadEvents(gs, k, w, isInput, first, visits))
    ensures After(gs, ReadEvents(gs, k, w, isInput, first, visits)) ==
            ReadFrom(gs, k, w, isInput, first, visits).groups
    decreases |gs| - k
  {
    if k < |gs| {
      if !Wants(w, gs[k], isInput, first == Some(k), visits[k].asked) {
        ReadIsEvents(gs, k + 1, w, isInput, first, visits);
      } else if visits[k].reply.Some? {
        ReadEventsNext(gs, k, w, isInput, first, visits);
        var next := BlockRead(gs, k, visits[k].reply.value, visits[k].answered);
        ReadIsEvents(next, k + 1, w, isInput, first, visits);
        FirstThen(gs, Reread(k, visits[k].reply.value, visits[k].answered),
                  ReadEvents(next, k + 1, w, isInput, first, visits));
      }
    }
  }

  lemma ReadEventsNext(gs: seq<Group>, k: nat, w: Wanted, isInput: bool, first: Option<nat>, visits: seq<Visit>)
    requires SoundGroups(gs) && Disjoint(gs) && k < |gs| && Complete(gs, visits)
    requires visits[k].reply.Some? && Wants(w, gs[k], isInput, first == Some(k), visits[k].asked)
    ensures var e := Reread(k, visits[k].reply.value, visits[k].answered);
            var next := BlockRead(gs, k, visits[k].reply.value, visits[k].answered);
            && Enabled(gs, e) && next == Step(gs, e) && SoundGroups(next) && Disjoint(next) && Complete(next, visits)
            && ReadEvents(gs, k, w, isInput, first, visits) == [e] + ReadEvents(next, k + 1, w, isInput, first, visits)
            && ReadFrom(gs, k, w, isInput, first, visits).groups ==
               ReadFrom(next, k + 1, w, isInput, first, visits).groups
  {
    var e := Reread(k, visits[k].reply.value, visits[k].answered);
    StepRefines(gs, e, 0);
    ReadEventsStay(gs, Step(gs, e), k + 1, w, isInput, first, visits);
  }

  lemma {:induction false} FirstThen(gs: seq<Group>, e: Event, es: seq<Event>)
    requires SoundGroups(gs) && Disjoint(gs) && Enabled(gs, e) && Run(Step(gs, e), es)
    ensures Run(gs, [e] + es) && After(gs, [e] + es) == After(Step(gs, e), es)
  {
    assert ([e] + es)[1..] == es;
  }

  lemma {:induction false} NextOfRun(gs: seq<Group>, es: seq<Event>, fs: seq<Event>) returns (hs: seq<Group>)
    requires Run(gs, es) && es != []
    ensures Run(hs, es[1..]) && After(gs, es) == After(hs, es[1..])
    ensures Run(hs, es[1..] + fs) ==> Run(gs, es + fs) && After(gs, es + fs) == After(hs, es[1..] + fs)
  {
    hs := Step(gs, es[0]);
    assert es + fs == [es[0]] + (es[1..] + fs);
    if Run(hs, es[1..] + fs) {
      FirstThen(gs, es[0], es[1..] + fs);
    }
  }

  lemma {:induction false} RunOfBoth(gs: seq<Group>, es: seq<Event>, fs: seq<Event>)
    requires Run(gs, es) && Run(After(gs, es), fs)
    ensures Run(gs, es + fs) && After(gs, es + fs) == After(After(gs, es), fs)
    decreases |es|
  {
    if es == [] {
      assert es + fs == fs;
    } else {
      var hs := NextOfRun(gs, es, fs);
      RunOfBoth(hs, es[1..], fs);
    }
  }

  /** A read keeps the shape and the counters. */
  lemma {:induction false} ReadKept(gs: seq<Group>, k: nat, w: Wanted, isInput: bool, first: Option<nat>,
                                    visits: seq<Visit>)
    requires SoundGroups(gs) && k <= |gs| == |visits|
    ensures var r := ReadFrom(gs, k, w, isInput, first, visits).groups;
            SameShape(gs, r) && forall i :: 0 <= i < |gs| ==> r[i].counter == gs[i].counter
    decreases |gs| - k
  {
    if k < |gs| {
      if !Wants(w, gs[k], isInput, first == Some(k), visits[k].asked) {
        ReadKept(gs, k + 1, w, isInput, first, visits);
      } else if visits[k].reply.Some? {
        var g := Update(gs[k], gs[k].address, visits[k].reply.value, true, visits[k].answered);
        ReadKept(gs[k := g], k + 1, w, isInput, first, visits);
      }
    }
  }

  /** It fails exactly if a wanted block does not respond. */
  lemma {:induction false} ReadFailsExactly(gs: seq<Group>, k: nat, w: Wanted, isInput: bool, first: Option<nat>,
                                            visits: seq<Visit>)
    requires SoundGroups(gs) && k <= |gs| == |visits|
    ensures ReadFrom(gs, k, w, isInput, first, visits).failed <==>
            exists i :: k <= i < |gs| && visits[i].reply.None? &&
                        Wants(w, gs[i], isInput, first == Some(i), visits[i].asked)
    decreases |gs| - k
  {
    if k < |gs| {
      if !Wants(w, gs[k], isInput, first == Some(k), visits[k].asked) {
        ReadFailsExactly(gs, k + 1, w, isInput, first, visits);
      } else if visits[k].reply.Some? {
        var g := Update(gs[k], gs[k].address, visits[k].reply.value, true, visits[k].answered);
        ReadFailsExactly(gs[k := g], k + 1, w, isInput, first, visits);
        assert forall i :: k < i < |gs| ==> gs[k := g][i] == gs[i];
      }
    }
  }

  // ---- the calls ----

  /** do_scan() or read_changed() with the responses of the unit. */
  datatype Call =
    | Scan(initial: bool, all: bool, holding: seq<Visit>, input: seq<Visit>, now: Time)
    | Changed(registers: set<(nat, bool)>, holding: seq<Visit>, input: seq<Visit>, now: Time)

  predicate Proper(c: Cache, x: Call) {
    Complete(c.groups, x.holding) && Complete(c.igroups, x.input)
  }

  function Result(c: Cache, x: Call): Cache
    requires c.Sound() && Proper(c, x)
  {
    match x
    case Scan(initial, all, holding, input, now) => DoScan(c, initial, all, holding, input, now)
    case Changed(registers, holding, input, now) => ReadChanged(c, registers, holding, input, now)
  }

  /** A periodic scan which read all the blocks it wanted. */
  predicate IsCompleted(c: Cache, x: Call)
    requires c.Sound() && Proper(c, x)
  {
    x.Scan? && !x.all && !Result(c, x).failed
  }

  /** The counters of one kind before the read. */
  function Cleared(gs: seq<Group>, x: Call): seq<Group> {
    if x.Scan? && x.initial then ClearCounters(gs) else gs
  }

  function WantedBy(c: Cache, x: Call): Wanted {
    match x
    case Scan(_, all, _, _, _) => if all then All else Periodic
    case Changed(registers, _, _, _) => AfterChange(c, registers)
  }

  /** The events of one kind of registers in a call; the input registers are not read after a failure of the others. */
  function CallEvents(c: Cache, x: Call, isInput: bool): seq<Event>
    requires c.Sound() && Proper(c, x)
  {
    var gs, igs, w := Cleared(c.groups, x), Cleared(c.igroups, x), WantedBy(c, x);
    (if x.Scan? && x.initial then [Reset] else []) +
    (if !isInput then ReadEvents(gs, 0, w, false, FirstHolding(c), x.holding)
     else if ReadFrom(gs, 0, w, false, FirstHolding(c), x.holding).failed then []
     else ReadEvents(igs, 0, w, true, FirstInput(c), x.input)) +
    (if IsCompleted(c, x) then [Ticked] else [])
  }

  /** The blocks of one kind after the read of a call, before the tick. */
  function ReadBy(c: Cache, x: Call, isInput: bool): seq<Group>
    requires c.Sound() && Proper(c, x)
  {
    var gs, igs, w := Cleared(c.groups, x), Cleared(c.igroups, x), WantedBy(c, x);
    if !isInput then ReadFrom(gs, 0, w, false, FirstHolding(c), x.holding).groups
    else if ReadFrom(gs, 0, w, false, FirstHolding(c), x.holding).failed then igs
    else ReadFrom(igs, 0, w, true, FirstInput(c), x.input).groups
  }

  lemma ScanIsRead(c: Cache, x: Call, isInput: bool)
    requires c.Sound() && Proper(c, x) && x.Scan?
    ensures Result(c, x).Of(isInput) ==
            if IsCompleted(c, x) then TickAll(ReadBy(c, x, isInput)) else ReadBy(c, x, isInput)
  {
    var start := Cleared(c.groups, x);
    var first := FirstHolding(c);
    assert first == FirstHolding(c.(groups := start, igroups := Cleared(c.igroups, x)));
    assert FirstInput(c) == FirstInput(c.(groups := start, igroups := Cleared(c.igroups, x)));
  }

  lemma ResultIsRead(c: Cache, x: Call, isInput: bool)
    requires c.Sound() && Proper(c, x)
    ensures Result(c, x).Of(isInput) ==
            if IsCompleted(c, x) then TickAll(ReadBy(c, x, isInput)) else ReadBy(c, x, isInput)
  {
    if x.Scan? {
      ScanIsRead(c, x, isInput);
    }
  }

  lemma ClearedIsEvent(gs: seq<Group>, x: Call)
    requires SoundGroups(gs) && Disjoint(gs)
    ensures var es := if x.Scan? && x.initial then [Reset] else [];
            SoundGroups(Cleared(gs, x)) && Disjoint(Cleared(gs, x)) && SameShape(gs, Cleared(gs, x)) &&
            Run(gs, es) && After(gs, es) == Cleared(gs, x)
  {
    if x.Scan? && x.initial {
      StepRefines(gs, Reset, 0);
      FirstThen(gs, Reset, []);
      assert [Reset] + [] == [Reset];
    }
  }

  lemma TickIsEvent(gs: seq<Group>)
    requires SoundGroups(gs) && Disjoint(gs)
    ensures Run(gs, [Ticked]) && After(gs, [Ticked]) == TickAll(gs)
  {
    StepRefines(gs, Ticked, 0);
    FirstThen(gs, Ticked, []);
    assert [Ticked] + [] == [Ticked];
  }

  lemma {:induction false} ReadByIsEvents(c: Cache, x: Call, isInput: bool)
    requires c.Valid() && Proper(c, x)
    ensures
      var gs, igs, w := Cleared(c.groups, x), Cleared(c.igroups, x), WantedBy(c, x);
      var es := if !isInput then ReadEvents(gs, 0, w, false, FirstHolding(c), x.holding)
                else if ReadFrom(gs, 0, w, false, FirstHolding(c), x.holding).failed then []
                else ReadEvents(igs, 0, w, true, FirstInput(c), x.input);
      && Run(Cleared(c.Of(isInput), x), es) && After(Cleared(c.Of(isInput), x), es) == ReadBy(c, x, isInput)
  {
    var gs, igs, w := Cleared(c.groups, x), Cleared(c.igroups, x), WantedBy(c, x);
    ClearedIsEvent(c.groups, x);
    ClearedIsEvent(c.igroups, x);
    ReadIsEvents(gs, 0, w, false, FirstHolding(c), x.holding);
    ReadIsEvents(igs, 0, w, true, FirstInput(c), x.input);
  }

  /** A call is a run: the counters are cleared by the initial scan, the wanted blocks are read up to the first failure,
      and the counters are ticked exactly if it is a periodic scan which did not fail. */
  lemma {:induction false} CallIsEvents(c: Cache, x: Call, isInput: bool)
    requires c.Valid() && Proper(c, x)
    ensures Run(c.Of(isInput), CallEvents(c, x, isInput))
    ensures After(c.Of(isInput), CallEvents(c, x, isInput)) == Result(c, x).Of(isInput)
  {
    var gs, igs, w := Cleared(c.groups, x), Cleared(c.igroups, x), WantedBy(c, x);
    var start: seq<Event> := if x.Scan? && x.initial then [Reset] else [];
    var middle := if !isInput then ReadEvents(gs, 0, w, false, FirstHolding(c), x.holding)
    else if ReadFrom(gs, 0, w, false, FirstHolding(c), x.holding).failed then []
    else ReadEvents(igs, 0, w, true, FirstInput(c), x.input);
    ClearedIsEvent(c.Of(isInput), x);
    ReadByIsEvents(c, x, isInput);
    RunOfBoth(c.Of(isInput), start, middle);
    ResultIsRead(c, x, isInput);
    if IsCompleted(c, x) {
      TickIsEvent(ReadBy(c, x, isInput));
      RunOfBoth(c.Of(isInput), start + middle, [Ticked]);
    } else {
      assert start + middle + [] == start + middle;
    }
  }

  /** Which blocks do not respond decides whether the call fails. */
  lemma CallFailsExactly(c: Cache, x: Call)
    requires c.Sound() && Proper(c, x)
    ensures
      var gs, igs, w := Cleared(c.groups, x), Cleared(c.igroups, x), WantedBy(c, x);
      Result(c, x).failed <==>
      (|| (exists i :: 0 <= i < |gs| && x.holding[i].reply.None? &&
                       Wants(w, gs[i], false, FirstHolding(c) == Some(i), x.holding[i].asked))
       || (exists i :: 0 <= i < |igs| && x.input[i].reply.None? &&
                       Wants(w, igs[i], true, FirstInput(c) == Some(i), x.input[i].asked)))
  {
    var gs, igs, w := Cleared(c.groups, x), Cleared(c.igroups, x), WantedBy(c, x);
    ReadFailsExactly(gs, 0, w, false, FirstHolding(c), x.holding);
    ReadFailsExactly(igs, 0, w, true, FirstInput(c), x.input);
  }

  lemma {:induction false} CountIsOfReads(gs: seq<Group>, k: nat, w: Wanted, isInput: bool, first: Option<nat>,
                                          visits: seq<Visit>)
    requires SoundGroups(gs) && k <= |gs| == |visits|
    ensures ReadFrom(gs, k, w, isInput, first, visits).count <= |ReadEvents(gs, k, w, isInput, first, visits)|
    ensures !ReadFrom(gs, k, w, isInput, first, visits).failed ==>
              ReadFrom(gs, k, w, isInput, first, visits).count == |ReadEvents(gs, k, w, isInput, first, visits)|
    decreases |gs| - k
  {
    if k < |gs| {
      if !Wants(w, gs[k], isInput, first == Some(k), visits[k].asked) {
        CountIsOfReads(gs, k + 1, w, isInput, first, visits);
      } else if visits[k].reply.Some? {
        var g := Update(gs[k], gs[k].address, visits[k].reply.value, true, visits[k].answered);
        CountIsOfReads(gs[k := g], k + 1, w, isInput, first, visits);
        ReadEventsStay(gs, gs[k := g], k + 1, w, isInput, first, visits);
      }
    }
  }

  /** Whether the call read a block of any kind. */
  predicate ReadsAny(c: Cache, x: Call)
    requires c.Sound() && Proper(c, x)
  {
    var gs, igs, w := Cleared(c.groups, x), Cleared(c.igroups, x), WantedBy(c, x);
    ReadEvents(gs, 0, w, false, FirstHolding(c), x.holding) != [] ||
    ReadEvents(igs, 0, w, true, FirstInput(c), x.input) != []
  }

  /** The time of the communication is the one of the last call which did not fail and read some block. */
  lemma CallIsCommunication(c: Cache, x: Call)
    requires c.Sound() && Proper(c, x)
    ensures Result(c, x).lastComm == if !Result(c, x).failed && ReadsAny(c, x) then Some(x.now) else c.lastComm
  {
    var gs, igs, w := Cleared(c.groups, x), Cleared(c.igroups, x), WantedBy(c, x);
    CountIsOfReads(gs, 0, w, false, FirstHolding(c), x.holding);
    CountIsOfReads(igs, 0, w, true, FirstInput(c), x.input);
  }

  // ---- what is read after a change ----

  /** A block which every scan reads, or with one of the registers. */
  predicate IsConcerned(g: Group, isInput: bool, registers: set<(nat, bool)>) {
    g.divider == 1 || exists r :: r in registers && r.1 == isInput && g.address <= r.0 < g.address + g.count
  }

  predicate AnyConcerned(c: Cache, registers: set<(nat, bool)>) {
    (exists i :: 0 <= i < |c.groups| && IsConcerned(c.groups[i], false, registers)) ||
    (exists i :: 0 <= i < |c.igroups| && IsConcerned(c.igroups[i], true, registers))
  }

  /** read_changed() wants exactly the blocks concerned, or only the first block of the unit if there are none. */
  lemma ChangeWantsExactly(c: Cache, registers: set<(nat, bool)>, isInput: bool, i: nat, now: Time)
    requires i < |c.Of(isInput)|
    ensures
      var first := i == 0 && (isInput ==> c.groups == []);
      Wants(AfterChange(c, registers), c.Of(isInput)[i], isInput,
            (if isInput then FirstInput(c) else FirstHolding(c)) == Some(i), now) <==>
      if AnyConcerned(c, registers) then IsConcerned(c.Of(isInput)[i], isInput, registers) else first
  {
    forall g: Group, b: bool
      ensures Wants(RegisterCaches.Changed(registers), g, b, false, 0) <==> IsConcerned(g, b, registers)
    {
    }
    assert forall k :: 0 <= k < |c.groups| ==>
        (Wants(RegisterCaches.Changed(registers), c.groups[k], false, false, 0) <==>
         IsConcerned(c.groups[k], false, registers));
    assert forall k :: 0 <= k < |c.igroups| ==>
        (Wants(RegisterCaches.Changed(registers), c.igroups[k], true, false, 0) <==>
         IsConcerned(c.igroups[k], true, registers));
  }

  // ---- the phase over the calls ----

  /** The counters of all blocks are those after n completed periodic scans. */
  ghost predicate PhaseIsOf(gs: seq<Group>, n: nat) {
    forall i :: 0 <= i < |gs| ==> gs[i].divider > 0 && gs[i].counter == Phase(gs[i].divider, n)
  }

  /** The completed periodic scans since the last initial one. */
  function Completed(c: Cache, x: Call, n: nat): nat
    requires c.Sound() && Proper(c, x)
  {
    (if x.Scan? && x.initial then 0 else n) + if IsCompleted(c, x) then 1 else 0
  }

  lemma ReadByKeepsPhase(c: Cache, x: Call, isInput: bool, n: nat)
    requires c.Sound() && Proper(c, x) && PhaseIsOf(c.Of(isInput), n)
    ensures PhaseIsOf(ReadBy(c, x, isInput), if x.Scan? && x.initial then 0 else n)
  {
    var gs, igs, w := Cleared(c.groups, x), Cleared(c.igroups, x), WantedBy(c, x);
    ReadKept(gs, 0, w, false, FirstHolding(c), x.holding);
    ReadKept(igs, 0, w, true, FirstInput(c), x.input);
    forall i | 0 <= i < |c.Of(isInput)| {
      PhaseIs(c.Of(isInput)[i].divider, 0);
    }
  }

  lemma TickKeepsPhase(gs: seq<Group>, n: nat)
    requires PhaseIsOf(gs, n)
    ensures PhaseIsOf(TickAll(gs), n + 1)
  {
    forall i | 0 <= i < |gs| {
      PhaseTicks(gs[i].divider, n);
    }
  }

  lemma CallKeepsPhase(c: Cache, x: Call, isInput: bool, n: nat)
    requires c.Sound() && Proper(c, x) && PhaseIsOf(c.Of(isInput), n)
    ensures PhaseIsOf(Result(c, x).Of(isInput), Completed(c, x, n))
  {
    ReadByKeepsPhase(c, x, isInput, n);
    ResultIsRead(c, x, isInput);
    TickKeepsPhase(ReadBy(c, x, isInput), if x.Scan? && x.initial then 0 else n);
  }

  ghost predicate Calls(c: Cache, xs: seq<Call>)
    decreases |xs|
  {
    c.Sound() && (xs != [] ==> Proper(c, xs[0]) && Calls(Result(c, xs[0]), xs[1..]))
  }

  function Final(c: Cache, xs: seq<Call>): Cache
    requires Calls(c, xs)
    decreases |xs|
  {
    if xs == [] then c else Final(Result(c, xs[0]), xs[1..])
  }

  function Count(c: Cache, xs: seq<Call>, n: nat): nat
    requires Calls(c, xs)
    decreases |xs|
  {
    if xs == [] then n else Count(Result(c, xs[0]), xs[1..], Completed(c, xs[0], n))
  }

  lemma {:induction false} CallsKeepPhase(c: Cache, xs: seq<Call>, isInput: bool, n: nat)
    requires Calls(c, xs) && PhaseIsOf(c.Of(isInput), n)
    ensures PhaseIsOf(Final(c, xs).Of(isInput), Count(c, xs, n))
    decreases |xs|
  {
    if xs != [] {
      CallKeepsPhase(c, xs[0], isInput, n);
      CallsKeepPhase(Result(c, xs[0]), xs[1..], isInput, Completed(c, xs[0], n));
    }
  }

  /** Over any scans and reads after changes, failed ones too: the next periodic scan wants a block without an expired
      pin exactly if its divider divides the number of the completed periodic scans since the last initial one. */
  lemma ScansReadInPhase(c: Cache, xs: seq<Call>, isInput: bool, i: nat, isFirst: bool, now: Time)
    requires Calls(c, xs) && i < |Final(c, xs).Of(isInput)|
    requires forall g :: g in c.Of(isInput) ==> g.counter == 0
    requires !PinExpired(Final(c, xs).Of(isInput)[i], now)
    ensures
      var g := Final(c, xs).Of(isInput)[i];
      g.divider > 0 && (Wants(Periodic, g, isInput, isFirst, now) <==> Count(c, xs, 0) % g.divider == 0)
  {
    forall k | 0 <= k < |c.Of(isInput)|
      ensures c.Of(isInput)[k].divider > 0 && c.Of(isInput)[k].counter == Phase(c.Of(isInput)[k].divider, 0)
    {
      assert c.Of(isInput)[k].Valid() && c.Of(isInput)[k] in c.Of(isInput);
      PhaseIs(c.Of(isInput)[k].divider, 0);
    }
    CallsKeepPhase(c, xs, isInput, 0);
    PhaseTicks(Final(c, xs).Of(isInput)[i].divider, Count(c, xs, 0));
  }
}
