/** The writes of a change, src/evok/modbus/client.py, are events of CacheRuns: what they pin, and until when. */
module ChangeEvents {
  import opened Common
  import opened RegisterGroups
  import opened RegisterCaches
  import opened ClientChanges
  import PlainCaches
  import CacheRuns

  /** What a step of the operation does to the holding registers. */
  function EventsOf(op: Op, periodicScan: bool): seq<CacheRuns.Event> {
    if !Succeeds(op) then []
    else
      match op
      case WriteRegisters(index, words, cached, pinned, _, now) =>
        [CacheRuns.Write(index, words, cached, if pinned && periodicScan then Some(now + REREAD_DELAY) else None)]
      case SetCached(index, words) => [CacheRuns.Cached(index, words)]
      case WriteWithoutResponse(_) => [CacheRuns.Restart]
      case _ => []
  }

  lemma StoreHasNoTime(gs: seq<Group>, index: nat, words: seq<Word>, now: Time)
    requires SoundGroups(gs)
    ensures SetRegister(gs, index, words, false, now) == SetRegister(gs, index, words, false, 0)
  {
    forall i | 0 <= i < |gs|
      ensures Update(gs[i], index, words, false, now) == Update(gs[i], index, words, false, 0)
    {
      assert gs[i].Valid();
      assert KeptPins(gs[i], index, words, false, now) == KeptPins(gs[i], index, words, false, 0);
      var r, s := Update(gs[i], index, words, false, now).values, Update(gs[i], index, words, false, 0).values;
      forall k | 0 <= k < gs[i].count
        ensures r[k] == s[k]
      {
        assert Updated(gs[i], index, words, false, now, gs[i].address + k) ==
               Updated(gs[i], index, words, false, 0, gs[i].address + k);
      }
    }
  }

  lemma {:induction false} OneEvent(gs: seq<Group>, e: CacheRuns.Event)
    requires SoundGroups(gs) && Disjoint(gs) && CacheRuns.Enabled(gs, e)
    ensures CacheRuns.Run(gs, [e]) && CacheRuns.After(gs, [e]) == CacheRuns.Step(gs, e)
  {
    CacheRuns.StepRefines(gs, e, 0);
    assert [e][1..] == [];
    assert CacheRuns.Run(CacheRuns.Step(gs, e), []);
  }

  lemma WriteIsEvent(c: Cache, index: nat, words: seq<Word>, cached: bool, pin: bool, now: Time)
    requires c.Sound()
    ensures Written(c, index, words, cached, pin, now).groups ==
            CacheRuns.Step(c.groups,
                           CacheRuns.Write(index, words, cached, if pin then Some(now + REREAD_DELAY) else None))
  {
    StoreHasNoTime(c.groups, index, words, now);
  }

  /** Every step of an operation is its events, and a failed one is none. */
  lemma OpIsEvents(u: Unit, periodicScan: bool, op: Op)
    requires u.cache.Valid()
    ensures CacheRuns.Run(u.cache.groups, EventsOf(op, periodicScan))
    ensures Do(u, periodicScan, op).cache.groups == CacheRuns.After(u.cache.groups, EventsOf(op, periodicScan))
    ensures var z := Do(u, periodicScan, op).cache;
            && z.igroups == (if Succeeds(op) && op.WriteWithoutResponse?
                             then ClearAllPins(u.cache.igroups) else u.cache.igroups)
            && z.failed == u.cache.failed && z.lastComm == u.cache.lastComm
  {
    var gs := u.cache.groups;
    if Succeeds(op) {
      match op
      case WriteRegisters(index, words, cached, pinned, _, now) =>
        WriteIsEvent(u.cache, index, words, cached, pinned && periodicScan, now);
        OneEvent(gs, EventsOf(op, periodicScan)[0]);
      case SetCached(index, words) => OneEvent(gs, CacheRuns.Cached(index, words));
      case WriteWithoutResponse(_) => OneEvent(gs, CacheRuns.Restart);
      case _ =>
    }
  }

  /** The end of a change is a renewal of the registers it wrote. */
  lemma RenewalIsEvent(u: Unit, end: Time, isInput: bool)
    requires u.cache.Sound()
    ensures Renewed(u, end).Of(isInput) ==
            if u.written.Some? && u.written.value != {}
            then CacheRuns.Step(u.cache.Of(isInput),
                                CacheRuns.Renew(OfKind(u.written.value, isInput), end + REREAD_DELAY))
            else u.cache.Of(isInput)
  {
  }

  lemma WrittenRegister(c: Cache, index: nat, words: seq<Word>, cached: bool, pin: bool, now: Time, a: nat)
    requires c.Valid() && Covers(index, |words|, a) && PlainCaches.Plain(c.groups, a).Some?
    requires Written(c, index, words, cached, pin, now).Sound()
    ensures
      var r := PlainCaches.Plain(Written(c, index, words, cached, pin, now).groups, a);
      var w := words[a - index];
      && r.Some?
      && r.value.value == (if cached then Some(w) else PlainCaches.Plain(c.groups, a).value.value)
      && r.value.pin == if pin then Some(Pin(w, now + REREAD_DELAY)) else None
  {
    WriteIsEvent(c, index, words, cached, pin, now);
    var e := CacheRuns.Write(index, words, cached, if pin then Some(now + REREAD_DELAY) else None);
    CacheRuns.StepRefines(c.groups, e, a);
  }

  /** A pinned write shows its words in the registers of the blocks if they are cached, and pins them until REREAD_DELAY
      after it; without a periodic scan, or without a pin, it drops their pins. */
  lemma WritePins(u: Unit, periodicScan: bool, op: Op, a: nat)
    requires u.cache.Valid() && op.WriteRegisters? && op.ok && Covers(op.index, |op.words|, a)
    requires PlainCaches.Plain(u.cache.groups, a).Some?
    ensures Do(u, periodicScan, op).cache.Sound()
    ensures
      var r := PlainCaches.Plain(Do(u, periodicScan, op).cache.groups, a);
      var w := op.words[a - op.index];
      && r.Some?
      && r.value.value == (if op.cached then Some(w) else PlainCaches.Plain(u.cache.groups, a).value.value)
      && r.value.pin == if op.pinned && periodicScan then Some(Pin(w, op.now + REREAD_DELAY)) else None
  {
    DoStaysSound(u, periodicScan, op);
    WrittenRegister(u.cache, op.index, op.words, op.cached, op.pinned && periodicScan, op.now, a);
  }

  /** The end of a change keeps the pins of its registers until REREAD_DELAY after it, and no other ones. */
  lemma EndRenews(u: Unit, end: Time, isInput: bool, a: nat)
    requires u.cache.Valid() && PlainCaches.Plain(u.cache.Of(isInput), a).Some?
    ensures Renewed(u, end).Sound()
    ensures
      var was := PlainCaches.Plain(u.cache.Of(isInput), a).value;
      var r := PlainCaches.Plain(Renewed(u, end).Of(isInput), a);
      && r.Some? && r.value.value == was.value
      && r.value.pin == match was.pin
                        case None => None
                        case Some(p) =>
                          Some(if u.written.Some? && (a, isInput) in u.written.value
                               then Pin(p.value, end + REREAD_DELAY) else p)
  {
    RenewedStaysSound(u, end);
    RenewalIsEvent(u, end, isInput);
    if u.written.Some? && u.written.value != {} {
      var registers := OfKind(u.written.value, isInput);
      assert a in registers <==> (a, isInput) in u.written.value;
      CacheRuns.StepRefines(u.cache.Of(isInput), CacheRuns.Renew(registers, end + REREAD_DELAY), a);
    }
  }

  // ---- a write of a change until its end ----

  /** A later step writes the register or restarts the unit. */
  predicate Rewrites(op: Op, a: nat) {
    match op
    case WriteRegisters(index, words, _, _, _, _) => Covers(index, |words|, a)
    case SetCached(index, words) => Covers(index, |words|, a)
    case WriteWithoutResponse(_) => true
    case _ => false
  }

  /** The register shows the word of the change, pinned and noted. */
  ghost predicate Keeps(u: Unit, a: nat, w: Word) {
    u.cache.Valid() && CacheRuns.HeldAt(u.cache.groups, a, w) && u.written.Some? && (a, false) in u.written.value
  }

  lemma DoStaysValid(u: Unit, periodicScan: bool, op: Op)
    requires u.cache.Valid()
    ensures Do(u, periodicScan, op).cache.Valid()
  {
    DoStaysSound(u, periodicScan, op);
    PlainCaches.SameShapeStaysDisjoint(u.cache.groups, Do(u, periodicScan, op).cache.groups);
    PlainCaches.SameShapeStaysDisjoint(u.cache.igroups, Do(u, periodicScan, op).cache.igroups);
  }

  lemma OtherStepKeeps(u: Unit, periodicScan: bool, op: Op, a: nat, w: Word)
    requires Keeps(u, a, w) && !Rewrites(op, a)
    ensures Keeps(Do(u, periodicScan, op), a, w)
  {
    DoStaysValid(u, periodicScan, op);
    OpIsEvents(u, periodicScan, op);
    var es := EventsOf(op, periodicScan);
    if es != [] {
      CacheRuns.StepRefines(u.cache.groups, es[0], a);
      OneEvent(u.cache.groups, es[0]);
      assert es == [es[0]];
    }
  }

  lemma {:induction false} OperationKeeps(u: Unit, periodicScan: bool, ops: seq<Op>, a: nat, w: Word)
    requires Keeps(u, a, w) && forall op :: op in ops ==> !Rewrites(op, a)
    ensures Keeps(Perform(u, periodicScan, ops), a, w)
    decreases |ops|
  {
    if ops != [] {
      OtherStepKeeps(u, periodicScan, ops[0], a, w);
      if Succeeds(ops[0]) {
        OperationKeeps(Do(u, periodicScan, ops[0]), periodicScan, ops[1..], a, w);
      }
    }
  }

  /** A register written and pinned in a change, and not again before its end, shows its word and is pinned until
      REREAD_DELAY after the end, however long the change was and also if its operation failed later. */
  lemma WrittenUntilAfterEnd(u: Unit, op: Op, later: seq<Op>, end: Time, a: nat)
    requires u.cache.Valid() && u.written.Some? && PlainCaches.Plain(u.cache.groups, a).Some?
    requires op.WriteRegisters? && op.ok && op.cached && op.pinned && Covers(op.index, |op.words|, a)
    requires forall x :: x in later ==> !Rewrites(x, a)
    ensures Renewed(Perform(u, true, [op] + later), end).Sound()
    ensures PlainCaches.Plain(Renewed(Perform(u, true, [op] + later), end).groups, a) ==
            Some(PlainCaches.Register(Some(op.words[a - op.index]),
                                      Some(Pin(op.words[a - op.index], end + REREAD_DELAY))))
  {
    var w, v := op.words[a - op.index], Do(u, true, op);
    WritePins(u, true, op, a);
    DoStaysValid(u, true, op);
    assert Keeps(v, a, w);
    OperationKeeps(v, true, later, a, w);
    PerformNext(u, true, [op] + later);
    assert ([op] + later)[1..] == later;
    EndRenews(Perform(v, true, later), end, false, a);
  }

  // ---- a write in the whole change ----

  /** The reads of the blocks are answered before the pin expires. */
  predicate AnsweredBefore(visits: seq<Visit>, until: Time) {
    forall k :: 0 <= k < |visits| && visits[k].reply.Some? ==> visits[k].answered < until
  }

  /** A read before the expiry keeps a pinned register. */
  lemma {:induction false} ReadKeepsPinned(gs: seq<Group>, k: nat, w: Wanted, isInput: bool, first: Option<nat>,
                                           visits: seq<Visit>, a: nat, r: PlainCaches.Register)
    requires SoundGroups(gs) && Disjoint(gs) && k <= |gs| == |visits| && PlainCaches.Plain(gs, a) == Some(r)
    requires r.pin.Some? && r.value == Some(r.pin.value.value) && AnsweredBefore(visits, r.pin.value.until)
    ensures PlainCaches.Plain(ReadFrom(gs, k, w, isInput, first, visits).groups, a) == Some(r)
    decreases |gs| - k
  {
    if k < |gs| {
      if !Wants(w, gs[k], isInput, first == Some(k), visits[k].asked) {
        ReadKeepsPinned(gs, k + 1, w, isInput, first, visits, a, r);
      } else if visits[k].reply.Some? {
        var hs := PlainCaches.BlockRead(gs, k, visits[k].reply.value, visits[k].answered);
        PlainCaches.BlockReadRefines(gs, k, visits[k].reply.value, visits[k].answered, a);
        PlainCaches.SameShapeStaysDisjoint(gs, hs);
        ReadKeepsPinned(hs, k + 1, w, isInput, first, visits, a, r);
      }
    }
  }

  lemma FinishKeepsPinned(u: Unit, read: bool, devices: set<Register>, end: Time, last: Replies, a: nat,
                          r: PlainCaches.Register)
    requires u.cache.Valid() && Answers(u.cache, last) && AnsweredBefore(last.holding, end + REREAD_DELAY)
    requires Renewed(u, end).Sound() && PlainCaches.Plain(Renewed(u, end).groups, a) == Some(r)
    requires r.pin.Some? && r.pin.value.until == end + REREAD_DELAY && r.value == Some(r.pin.value.value)
    ensures SoundGroups(Finish(u, read, devices, end, last).cache.groups)
    ensures PlainCaches.Plain(Finish(u, read, devices, end, last).cache.groups, a) == Some(r)
  {
    RenewedStaysSound(u, end);
    var c := Renewed(u, end);
    PlainCaches.SameShapeStaysDisjoint(u.cache.groups, c.groups);
    if read {
      var w := WantedAfter(u.(cache := c), devices);
      ReadKeepsPinned(c.groups, 0, w, false, FirstHolding(c), last.holding, a, r);
    }
  }

  lemma {:induction false} PerformOfBoth(u: Unit, ops: seq<Op>, later: seq<Op>)
    requires u.cache.Sound() && forall op :: op in ops ==> Succeeds(op)
    ensures Perform(u, true, ops + later) == Perform(Perform(u, true, ops), true, later)
    decreases |ops|
  {
    if ops == [] {
      assert ops + later == later;
    } else {
      PerformNext(u, true, ops);
      PerformNext(u, true, ops + later);
      assert (ops + later)[1..] == ops[1..] + later;
      PerformOfBoth(Do(u, true, ops[0]), ops[1..], later);
    }
  }

  lemma {:induction false} StaysNoting(u: Unit, ops: seq<Op>, a: nat)
    requires u.cache.Valid() && u.written.Some? && forall op :: op in ops ==> !op.WriteWithoutResponse?
    requires PlainCaches.Plain(u.cache.groups, a).Some?
    ensures Perform(u, true, ops).cache.Valid() && Perform(u, true, ops).written.Some?
    ensures PlainCaches.Plain(Perform(u, true, ops).cache.groups, a).Some?
    decreases |ops|
  {
    if ops != [] {
      PerformNext(u, true, ops);
      DoStaysValid(u, true, ops[0]);
      OpIsEvents(u, true, ops[0]);
      PlainCaches.SameShapeFinds(u.cache.groups, Do(u, true, ops[0]).cache.groups, a, 1);
      if Succeeds(ops[0]) {
        StaysNoting(Do(u, true, ops[0]), ops[1..], a);
      }
    }
  }

  /** A register written and pinned in a change of a unit with a periodic scan, and not again before the end of the
      change, shows its word after the change, also after its read, and is pinned until REREAD_DELAY after the
      operation. */
  lemma ChangeKeepsItsWrites(u: Unit, checkAvailable: bool, read: bool, devices: set<Register>, before: seq<Op>, op: Op,
                             later: seq<Op>, first: Replies, end: Time, last: Replies, a: nat)
    requires u.cache.Valid() && Answers(u.cache, first) && Answers(u.cache, last)
    requires PlainCaches.Plain(u.cache.groups, a).Some? && AnsweredBefore(last.holding, end + REREAD_DELAY)
    requires forall x :: x in before ==> Succeeds(x) && !x.WriteWithoutResponse?
    requires op.WriteRegisters? && op.ok && op.cached && op.pinned && Covers(op.index, |op.words|, a)
    requires forall x :: x in later ==> !Rewrites(x, a)
    requires Change(u, true, checkAvailable, read, Some(devices), before + ([op] + later), first, end, last).1 !=
             UnitUnavailable
    ensures
      var z := Change(u, true, checkAvailable, read, Some(devices), before + ([op] + later), first, end, last).0;
      var w := op.words[a - op.index];
      SoundGroups(z.cache.groups) &&
      PlainCaches.Plain(z.cache.groups, a) == Some(PlainCaches.Register(Some(w), Some(Pin(w, end + REREAD_DELAY))))
  {
    var start := Start(u, Some(devices));
    var w := op.words[a - op.index];
    StaysNoting(start, before, a);
    PerformOfBoth(start, before, [op] + later);
    WrittenUntilAfterEnd(Perform(start, true, before), op, later, end, a);
    var done := Perform(start, true, before + ([op] + later));
    PlainCaches.SameShapeStaysDisjoint(start.cache.groups, done.cache.groups);
    PlainCaches.SameShapeStaysDisjoint(start.cache.igroups, done.cache.igroups);
    FinishKeepsPinned(done, read, devices, end, last, a,
                      PlainCaches.Register(Some(w), Some(Pin(w, end + REREAD_DELAY))));
  }

  // ---- without a periodic scan ----

  lemma {:induction false} PinsStayWithin(u: Unit, ops: seq<Op>)
    requires u.cache.Sound()
    ensures PinsWithin(Perform(u, false, ops).cache.groups, u.cache.groups)
    ensures PinsWithin(Perform(u, false, ops).cache.igroups, u.cache.igroups)
    decreases |ops|
  {
    if ops != [] {
      PerformNext(u, false, ops);
      if Succeeds(ops[0]) {
        PinsStayWithin(Do(u, false, ops[0]), ops[1..]);
      }
    }
  }

  /** A change of a unit without a periodic scan pins nothing: nobody would read the unit when the pin has expired. */
  lemma NoScanNoPins(u: Unit, checkAvailable: bool, read: bool, devices: Option<set<Register>>, ops: seq<Op>,
                     first: Replies, end: Time, last: Replies)
    requires u.cache.Sound() && Answers(u.cache, first) && Answers(u.cache, last)
    ensures var z := Change(u, false, checkAvailable, read, devices, ops, first, end, last).0;
            PinsWithin(z.cache.groups, u.cache.groups) && PinsWithin(z.cache.igroups, u.cache.igroups)
  {
    var seen := Seen(u, false, checkAvailable, first);
    ReadPinsNothing(u.cache.groups, 0, All, false, FirstHolding(u.cache), first.holding);
    ReadPinsNothing(u.cache.igroups, 0, All, true, FirstInput(u.cache), first.input);
    PinsStayWithin(Start(seen, devices), ops);
    FinishPinsNothing(Perform(Start(seen, devices), false, ops), read, DevicesOf(devices), end, last);
  }
}
