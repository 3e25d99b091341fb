/** The pins and the scan counters over any mix of scans, reads and writes of the registers of one kind. */
module CacheRuns {
  import opened Common
  import opened RegisterGroups
  import opened RegisterCaches
  import opened PlainCaches
  import opened Arithmetic

  /** What happens to the blocks between two awaits. A failed request changes nothing, so it is no event. */
  datatype Event =
    | Turn(k: nat, asked: Time, words: seq<Word>, now: Time)     // the periodic scan comes to the block
    | Reread(k: nat, words: seq<Word>, now: Time)                // another scan reads the block
    | Partial(index: nat, words: seq<Word>, now: Time)           // get_register_async()
    | Write(index: nat, words: seq<Word>, cached: bool, until: Option<Time>)  // write_registers(), `until` of its pin
    | Cached(index: nat, words: seq<Word>)                       // the cache set by the caller after all its writes
    | Renew(registers: set<nat>, newUntil: Time)
    | Restart                                                    // clear_pins()
    | Ticked                                                     // the end of a successful periodic scan
    | Reset                                                      // the counters cleared by the first scan

  predicate Enabled(gs: seq<Group>, e: Event) {
    match e
    case Turn(k, asked, words, now) => k < |gs| && |words| == gs[k].count && asked <= now
    case Reread(k, words, _) => k < |gs| && |words| == gs[k].count
    case _ => true
  }

  function Step(gs: seq<Group>, e: Event): seq<Group>
    requires SoundGroups(gs) && Enabled(gs, e)
  {
    match e
    case Turn(k, asked, words, now) =>
      if Wants(Periodic, gs[k], false, false, asked) then BlockRead(gs, k, words, now) else gs
    case Reread(k, words, now) => BlockRead(gs, k, words, now)
    case Partial(index, words, now) => SetRegister(gs, index, words, true, now)
    case Write(index, words, cached, until) =>
      var hs := if cached then SetRegister(gs, index, words, false, 0) else gs;
      if until.Some? then PinAll(hs, index, words, until.value) else UnpinAll(hs, index, |words|)
    case Cached(index, words) => SetRegister(gs, index, words, false, 0)
    case Renew(registers, until) => RenewAll(gs, registers, until)
    case Restart => ClearAllPins(gs)
    case Ticked => TickAll(gs)
    case Reset => ClearCounters(gs)
  }

  /** Whether the event reads the register from the unit. */
  predicate Reads(gs: seq<Group>, e: Event, a: nat)
    requires Enabled(gs, e)
  {
    match e
    case Turn(k, asked, _, _) => Wants(Periodic, gs[k], false, false, asked) && gs[k].Has(a, 1)
    case Reread(k, _, _) => gs[k].Has(a, 1)
    case Partial(index, words, _) => Covers(index, |words|, a)
    case _ => false
  }

  function ReadStart(gs: seq<Group>, e: Event): nat
    requires Enabled(gs, e)
  {
    match e
    case Turn(k, _, _, _) => gs[k].address
    case Reread(k, _, _) => gs[k].address
    case Partial(index, _, _) => index
    case _ => 0
  }

  /** The same event seen by one register of the plain map. */
  function RegisterStep(gs: seq<Group>, r: Register, e: Event, a: nat): Register
    requires Enabled(gs, e)
  {
    match e
    case Turn(k, asked, words, now) => if Reads(gs, e, a) then ReadBack(r, a, gs[k].address, words, now) else r
    case Reread(k, words, now) => if Reads(gs, e, a) then ReadBack(r, a, gs[k].address, words, now) else r
    case Partial(index, words, now) => ReadBack(r, a, index, words, now)
    case Write(index, words, cached, until) =>
      var s := if cached then PlainCaches.Stored(r, a, index, words) else r;
      if until.Some? then Pinned(s, a, index, words, until.value) else Unpinned(s, a, index, |words|)
    case Cached(index, words) => PlainCaches.Stored(r, a, index, words)
    case Renew(registers, until) => Renewed(r, a, registers, until)
    case Restart => r.(pin := None)
    case _ => r
  }

  /** The event is an event of each register. */
  ghost predicate RefinedAt(gs: seq<Group>, e: Event, a: nat)
    requires SoundGroups(gs) && Enabled(gs, e)
  {
    && SoundGroups(Step(gs, e)) && SameShape(gs, Step(gs, e))
    && Plain(Step(gs, e), a) ==
       match Plain(gs, a) case None => None case Some(r) => Some(RegisterStep(gs, r, e, a))
  }

  lemma WriteRefines(gs: seq<Group>, e: Event, a: nat)
    requires SoundGroups(gs) && e.Write?
    ensures RefinedAt(gs, e, a)
  {
    var hs := if e.cached then SetRegister(gs, e.index, e.words, false, 0) else gs;
    StoreRefines(gs, e.index, e.words, 0, a);
    if e.until.Some? {
      PinRefines(hs, e.index, e.words, e.until.value, a);
    } else {
      UnpinRefines(hs, e.index, |e.words|, a);
    }
  }

  lemma ReadRefines(gs: seq<Group>, e: Event, a: nat)
    requires SoundGroups(gs) && Disjoint(gs) && Enabled(gs, e) && (e.Turn? || e.Reread? || e.Partial?)
    ensures RefinedAt(gs, e, a)
  {
    match e
    case Turn(k, _, words, now) => BlockReadRefines(gs, k, words, now, a);
    case Reread(k, words, now) => BlockReadRefines(gs, k, words, now, a);
    case Partial(index, words, now) => PartialReadRefines(gs, index, words, now, a);
  }

  lemma NoteRefines(gs: seq<Group>, e: Event, a: nat)
    requires SoundGroups(gs) && (e.Cached? || e.Renew? || e.Restart? || e.Ticked? || e.Reset?)
    ensures RefinedAt(gs, e, a)
  {
    match e
    case Cached(index, words) => StoreRefines(gs, index, words, 0, a);
    case Renew(registers, until) => RenewRefines(gs, registers, until, a);
    case Restart => ClearPinsRefines(gs, a);
    case Ticked => TicksDoNotMatter(gs, a);
    case Reset => ClearedCountersDoNotMatter(gs, a);
  }

  /** The lists of blocks refine the plain map, step by step. */
  lemma StepRefines(gs: seq<Group>, e: Event, a: nat)
    requires SoundGroups(gs) && Disjoint(gs) && Enabled(gs, e)
    ensures SoundGroups(Step(gs, e)) && Disjoint(Step(gs, e)) && SameShape(gs, Step(gs, e))
    ensures Plain(Step(gs, e), a) ==
            match Plain(gs, a) case None => None case Some(r) => Some(RegisterStep(gs, r, e, a))
  {
    if e.Turn? || e.Reread? || e.Partial? {
      ReadRefines(gs, e, a);
    } else if e.Write? {
      WriteRefines(gs, e, a);
    } else {
      NoteRefines(gs, e, a);
    }
    SameShapeStaysDisjoint(gs, Step(gs, e));
  }

  ghost predicate Run(gs: seq<Group>, es: seq<Event>)
    decreases |es|
  {
    SoundGroups(gs) && Disjoint(gs) && (es == [] || (Enabled(gs, es[0]) && Run(Step(gs, es[0]), es[1..])))
  }

  function After(gs: seq<Group>, es: seq<Event>): (r: seq<Group>)
    requires Run(gs, es)
    ensures SoundGroups(r) && Disjoint(r) && |r| == |gs|
    decreases |es|
  {
    if es == [] then gs else
      StepRefines(gs, es[0], 0); After(Step(gs, es[0]), es[1..])
  }

  // ---- a pin holds ----

  /** The register is pinned to the value and shows it. */
  predicate HeldAt(gs: seq<Group>, a: nat, v: Word)
    requires SoundGroups(gs)
  {
    var r := Plain(gs, a);
    r.Some? && r.value.value == Some(v) && r.value.pin.Some? && r.value.pin.value.value == v
  }

  /** A write or a restart which ends the hold of the register. */
  predicate Releases(e: Event, a: nat) {
    match e
    case Write(index, words, _, _) => Covers(index, |words|, a)
    case Cached(index, words) => Covers(index, |words|, a)
    case Restart => true
    case _ => false
  }

  /** A read comes back when the pin of the register is still kept. */
  predicate BeforeExpiry(gs: seq<Group>, e: Event, a: nat)
    requires SoundGroups(gs)
  {
    (e.Turn? || e.Reread? || e.Partial?) ==>
      Plain(gs, a).Some? && Plain(gs, a).value.pin.Some? && Plain(gs, a).value.pin.value.until > e.now
  }

  ghost predicate HoldsThrough(gs: seq<Group>, es: seq<Event>, a: nat)
    requires Run(gs, es)
    decreases |es|
  {
    es != [] ==> !Releases(es[0], a) && BeforeExpiry(gs, es[0], a) && HoldsThrough(Step(gs, es[0]), es[1..], a)
  }

  lemma {:induction false} PinHolds(gs: seq<Group>, es: seq<Event>, a: nat, v: Word)
    requires Run(gs, es) && HeldAt(gs, a, v) && HoldsThrough(gs, es, a)
    ensures HeldAt(After(gs, es), a, v)
    decreases |es|
  {
    if es != [] {
      StepRefines(gs, es[0], a);
      PinHolds(Step(gs, es[0]), es[1..], a, v);
    }
  }

  /** After a pinned and cached write every lookup of the register returns the written value, over any mix of scans,
      reads and writes elsewhere, until the pin expires or the register is released. */
  lemma PinnedWriteIsSeen(gs: seq<Group>, index: nat, words: seq<Word>, until: Time, es: seq<Event>, a: nat,
                          at: nat, n: nat)
    requires Run(gs, [Write(index, words, true, Some(until))] + es) && Plain(gs, a).Some? && Covers(index, |words|, a)
    requires HoldsThrough(Step(gs, Write(index, words, true, Some(until))), es, a)
    requires Covers(at, n, a)
    ensures var r := GetRegister(After(Step(gs, Write(index, words, true, Some(until))), es), at, n);
            r.Words? ==> |r.words| == n && r.words[a - at] == words[a - index]
  {
    var w := Write(index, words, true, Some(until));
    assert ([w] + es)[1..] == es;
    StepRefines(gs, w, a);
    PinHolds(Step(gs, w), es, a, words[a - index]);
    LookupRefines(After(Step(gs, w), es), at, n);
  }

  // ---- and lets go ----

  /** The pin of the register, if there is one, has expired. */
  predicate ExpiredAt(gs: seq<Group>, a: nat, now: Time)
    requires SoundGroups(gs)
  {
    Plain(gs, a).Some? && (Plain(gs, a).value.pin.Some? ==> Plain(gs, a).value.pin.value.until <= now)
  }

  /** The register is pinned again or written. */
  predicate Repins(e: Event, a: nat) {
    (e.Renew? && a in e.registers) || (!e.Restart? && Releases(e, a))
  }

  predicate NotBefore(e: Event, start: Time) {
    match e
    case Turn(_, asked, _, now) => start <= asked && start <= now
    case Reread(_, _, now) => start <= now
    case Partial(_, _, now) => start <= now
    case _ => true
  }

  predicate Since(es: seq<Event>, a: nat, start: Time) {
    forall e :: e in es ==> !Repins(e, a) && NotBefore(e, start)
  }

  lemma ExpiredStep(gs: seq<Group>, e: Event, a: nat, start: Time)
    requires SoundGroups(gs) && Disjoint(gs) && Enabled(gs, e) && ExpiredAt(gs, a, start)
    requires !Repins(e, a) && NotBefore(e, start)
    ensures SoundGroups(Step(gs, e)) && ExpiredAt(Step(gs, e), a, start)
    ensures Plain(gs, a).value.pin.None? ==> Plain(Step(gs, e), a).value.pin.None?
    ensures Reads(gs, e, a) ==>
              Plain(Step(gs, e), a) == Some(Register(Some(e.words[a - ReadStart(gs, e)]), None))
  {
    StepRefines(gs, e, a);
  }

  lemma {:induction false} ExpiredRun(gs: seq<Group>, es: seq<Event>, a: nat, start: Time)
    requires Run(gs, es) && ExpiredAt(gs, a, start) && Since(es, a, start)
    ensures SoundGroups(After(gs, es)) && ExpiredAt(After(gs, es), a, start)
    ensures Plain(gs, a).value.pin.None? ==> Plain(After(gs, es), a).value.pin.None?
    decreases |es|
  {
    if es != [] {
      ExpiredStep(gs, es[0], a, start);
      ExpiredRun(Step(gs, es[0]), es[1..], a, start);
    }
  }

  /** The turn of a block with an expired pin reads it, whatever its counter. */
  lemma ExpiredPinIsRead(gs: seq<Group>, e: Event, a: nat, start: Time)
    requires SoundGroups(gs) && Disjoint(gs) && ExpiredAt(gs, a, start) && Plain(gs, a).value.pin.Some?
    requires e.Turn? && Enabled(gs, e) && gs[e.k].Has(a, 1) && start <= e.asked
    ensures Reads(gs, e, a)
  {
    PlainOfBlock(gs, e.k, a);
    assert a in gs[e.k].pins && gs[e.k].pins[a].until <= e.asked;
  }

  lemma ExpiredTurn(gs: seq<Group>, e: Event, a: nat, start: Time)
    requires SoundGroups(gs) && Disjoint(gs) && ExpiredAt(gs, a, start) && NotBefore(e, start)
    requires e.Turn? && Enabled(gs, e) && gs[e.k].Has(a, 1)
    ensures SoundGroups(Step(gs, e)) && ExpiredAt(Step(gs, e), a, start) && Plain(Step(gs, e), a).value.pin.None?
    ensures Plain(gs, a).value.pin.Some? ==>
              Plain(Step(gs, e), a) == Some(Register(Some(e.words[a - gs[e.k].address]), None))
  {
    if Plain(gs, a).value.pin.Some? {
      ExpiredPinIsRead(gs, e, a, start);
    }
    ExpiredStep(gs, e, a, start);
  }

  /** The turn of the block in a periodic scan started after the expiry: no pin of the register is left, it shows the
      word of the unit, and no pin comes back by the rest of the run. */
  lemma ExpiredPinLetsGo(gs: seq<Group>, before: seq<Event>, mid: seq<Group>, e: Event, later: seq<Event>, a: nat,
                         start: Time)
    requires Run(gs, before) && mid == After(gs, before) && ExpiredAt(gs, a, start)
    requires Since(before, a, start) && Since([e], a, start) && Since(later, a, start)
    requires e.Turn? && Enabled(mid, e) && mid[e.k].Has(a, 1)
    requires Run(Step(mid, e), later)
    ensures Plain(mid, a).Some?
    ensures Plain(mid, a).value.pin.Some? ==>
              Plain(Step(mid, e), a) == Some(Register(Some(e.words[a - mid[e.k].address]), None))
    ensures Plain(After(Step(mid, e), later), a).Some? && Plain(After(Step(mid, e), later), a).value.pin.None?
  {
    ExpiredRun(gs, before, a, start);
    assert e in [e];
    ExpiredTurn(mid, e, a, start);
    ExpiredRun(Step(mid, e), later, a, start);
  }

  // ---- the phase of the scans ----

  function Ticks(es: seq<Event>): nat {
    if es == [] then 0 else (if es[0].Ticked? then 1 else 0) + Ticks(es[1..])
  }

  /** The counter of a block with the divider d after n successful periodic scans. */
  function Phase(d: nat, n: nat): nat
    requires d > 0
  {
    (d - n % d) % d
  }

  lemma PhaseTicks(d: nat, n: nat)
    requires d > 0
    ensures Phase(d, n + 1) == if Phase(d, n) == 0 then d - 1 else Phase(d, n) - 1
    ensures Phase(d, n) == 0 <==> n % d == 0
  {
    PhaseIs(d, n);
    PhaseIs(d, n + 1);
    RestOfNext(d, n);
  }

  lemma PhaseIs(d: nat, n: nat)
    requires d > 0
    ensures Phase(d, n) == if n % d == 0 then 0 else d - n % d
  {
    RestIsUnique(d, if n % d == 0 then 1 else 0, if n % d == 0 then 0 else d - n % d);
  }

  /** The counter c of a block with the divider d after m more ticks. */
  function Counted(d: nat, c: nat, m: nat): nat
    requires d > 0
    decreases m
  {
    if m == 0 then c else Counted(d, if c == 0 then d - 1 else c - 1, m - 1)
  }

  lemma {:induction false} CountedIsPhase(d: nat, n: nat, m: nat)
    requires d > 0
    ensures Counted(d, Phase(d, n), m) == Phase(d, n + m)
    decreases m
  {
    if m > 0 {
      PhaseTicks(d, n);
      CountedIsPhase(d, n + 1, m - 1);
    }
  }

  /** The first event of a run and the counter after it. */
  lemma CounterNext(gs: seq<Group>, es: seq<Event>, k: nat) returns (hs: seq<Group>)
    requires Run(gs, es) && es != [] && !es[0].Reset? && k < |gs| && gs[k].divider > 0
    ensures Run(hs, es[1..]) && After(gs, es) == After(hs, es[1..])
    ensures k < |hs| && hs[k].divider == gs[k].divider
    ensures hs[k].counter == Counted(gs[k].divider, gs[k].counter, if es[0].Ticked? then 1 else 0)
  {
    hs := Step(gs, es[0]);
    StepRefines(gs, es[0], 0);
    CounterStep(gs, es[0], k);
  }

  lemma {:induction false} CounterRun(gs: seq<Group>, es: seq<Event>, k: nat)
    requires Run(gs, es) && k < |gs| && gs[k].divider > 0
    requires forall e :: e in es ==> !e.Reset?
    ensures k < |After(gs, es)| && After(gs, es)[k].divider == gs[k].divider
    ensures After(gs, es)[k].counter == Counted(gs[k].divider, gs[k].counter, Ticks(es))
    decreases |es|
  {
    if es != [] {
      var hs := CounterNext(gs, es, k);
      CounterRun(hs, es[1..], k);
    }
  }

  lemma PhaseRun(gs: seq<Group>, es: seq<Event>, k: nat, n: nat)
    requires Run(gs, es) && k < |gs| && gs[k].divider > 0 && gs[k].counter == Phase(gs[k].divider, n)
    requires forall e :: e in es ==> !e.Reset?
    ensures k < |After(gs, es)| && After(gs, es)[k].divider == gs[k].divider
    ensures After(gs, es)[k].counter == Phase(gs[k].divider, n + Ticks(es))
  {
    CounterRun(gs, es, k);
    CountedIsPhase(gs[k].divider, n, Ticks(es));
  }

  lemma {:induction false} CounterStep(gs: seq<Group>, e: Event, k: nat)
    requires SoundGroups(gs) && Disjoint(gs) && Enabled(gs, e) && k < |gs| && !e.Reset? && gs[k].divider > 0
    ensures |Step(gs, e)| == |gs|
    ensures Step(gs, e)[k].counter ==
            if !e.Ticked? then gs[k].counter else if gs[k].counter == 0 then gs[k].divider - 1 else gs[k].counter - 1
  {
    StepRefines(gs, e, 0);
    if e.Write? {
      var hs := if e.cached then SetRegister(gs, e.index, e.words, false, 0) else gs;
      StoreRefines(gs, e.index, e.words, 0, 0);
      if e.until.Some? {
        PinEachIs(hs[k], e.index, e.words, e.until.value, 0);
      }
    }
  }

  /** The phase is never shifted: after n successful periodic scans since the counters were cleared, whatever else was
      read or written, a block without an expired pin is read by the next one exactly when its divider divides n. */
  lemma ScansKeepTheirPhase(gs: seq<Group>, es: seq<Event>, k: nat, now: Time)
    requires SoundGroups(gs) && k < |gs| && Run(ClearCounters(gs), es) && forall e :: e in es ==> !e.Reset?
    requires !PinExpired(After(ClearCounters(gs), es)[k], now)
    ensures Wants(Periodic, After(ClearCounters(gs), es)[k], false, false, now) <==> Ticks(es) % gs[k].divider == 0
  {
    assert gs[k].Valid();
    PhaseTicks(gs[k].divider, 0);
    PhaseRun(ClearCounters(gs), es, k, 0);
    PhaseTicks(gs[k].divider, Ticks(es));
  }

  // ---- a whole scan is such a run ----

  /** The turns of the blocks from the k-th one; a block which was not read has no words. */
  function Turns(gs: seq<Group>, k: nat, visits: seq<Visit>): seq<Event>
    requires k <= |gs| == |visits|
    decreases |gs| - k
  {
    if k == |gs| then []
    else
      var words := if visits[k].reply.Some? then visits[k].reply.value else seq(gs[k].count, _ => 0);
      [Turn(k, visits[k].asked, words, visits[k].answered)] + Turns(gs, k + 1, visits)
  }

  predicate ProperVisits(gs: seq<Group>, visits: seq<Visit>) {
    |visits| == |gs| &&
    forall k :: 0 <= k < |gs| ==>
      visits[k].asked <= visits[k].answered && (visits[k].reply.Some? ==> |visits[k].reply.value| == gs[k].count)
  }

  lemma {:induction false} TurnsOfShape(gs: seq<Group>, hs: seq<Group>, k: nat, visits: seq<Visit>)
    requires k <= |gs| == |visits| && SameShape(gs, hs)
    ensures Turns(gs, k, visits) == Turns(hs, k, visits)
    decreases |gs| - k
  {
    if k < |gs| {
      TurnsOfShape(gs, hs, k + 1, visits);
    }
  }

  /** A successful periodic scan does what the turns of its blocks do, one after another. */
  lemma {:induction false} ScanIsTurns(gs: seq<Group>, k: nat, isInput: bool, first: Option<nat>, visits: seq<Visit>)
    requires SoundGroups(gs) && Disjoint(gs) && k <= |gs| && ProperVisits(gs, visits)
    requires !ReadFrom(gs, k, Periodic, isInput, first, visits).failed
    ensures Run(gs, Turns(gs, k, visits))
    ensures After(gs, Turns(gs, k, visits)) == ReadFrom(gs, k, Periodic, isInput, first, visits).groups
    decreases |gs| - k
  {
    if k < |gs| {
      var es := Turns(gs, k, visits);
      var next := Step(gs, es[0]);
      StepRefines(gs, es[0], 0);
      TurnsOfShape(gs, next, k + 1, visits);
      assert es[1..] == Turns(next, k + 1, visits);
      ScanIsTurns(next, k + 1, isInput, first, visits);
      assert Run(gs, es) && After(gs, es) == After(next, es[1..]);
    }
  }
}
