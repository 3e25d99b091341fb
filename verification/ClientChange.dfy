/** The change protocol of a unit, src/evok/modbus/client.py: the writes of an operation, then the read of the blocks
    they concern. The lock and the session of the unit, which keep other changes and the scans out, are in the modules
    SessionRuns and Deadlock. */
module ClientChanges {
  import opened Common
  import opened RegisterGroups
  import opened RegisterCaches

  const REREAD_DELAY: Time := 1000   // ms

  type Register = (nat, bool)        // the address and whether it is an input register

  /** What is sent to the unit successfully, in order. */
  datatype Entry = Wrote(address: nat) | Restarted | ReadBlock(isInput: bool, k: nat)

  datatype Answer = Responded | NoResponse | Failed

  /** One step of an operation; `ok` is the success of its request, a failed one ends the operation. */
  datatype Op =
    | WriteRegisters(index: nat, words: seq<Word>, cached: bool, pinned: bool, ok: bool, now: Time)
    | WriteCoil(ok: bool)
    | SetCached(index: nat, words: seq<Word>)
    | WriteWithoutResponse(answer: Answer)        // the coil after which the unit restarts
    | Refuse                                      // another error, e.g. of the value

  /** `written` are the registers written by the running change, None reads all blocks after it. */
  datatype Unit = Unit(cache: Cache, written: Option<set<Register>>, log: seq<Entry>)

  function Wrotes(index: nat, n: nat): (r: seq<Entry>)
    ensures |r| == n && forall i :: 0 <= i < n ==> r[i] == Wrote(index + i)
  {
    seq(n, i requires 0 <= i < n => Wrote(index + i))
  }

  function Addresses(index: nat, n: nat): (r: set<Register>)
    ensures forall a: nat, b: bool :: (a, b) in r <==> Covers(index, n, a) && !b
  {
    if n == 0 then {} else Addresses(index, n - 1) + {(index + n - 1, false)}
  }

  /** The cache after write_registers(): set if the caller wants it, then pinned, or an older pin dropped. */
  function Written(c: Cache, index: nat, words: seq<Word>, cached: bool, pin: bool, now: Time): (r: Cache)
    requires c.Sound()
  {
    var s := if cached then c.(groups := SetRegister(c.groups, index, words, false, now)) else c;
    s.(groups := if pin then PinAll(s.groups, index, words, now + REREAD_DELAY) else UnpinAll(s.groups, index, |words|))
  }

  function Do(u: Unit, periodicScan: bool, op: Op): Unit
    requires u.cache.Sound()
  {
    match op
    case WriteRegisters(index, words, cached, pinned, ok, now) =>
      if !ok then u
      else Unit(Written(u.cache, index, words, cached, pinned && periodicScan, now),
                if u.written.Some? then Some(u.written.value + Addresses(index, |words|)) else None,
                u.log + Wrotes(index, |words|))
    case SetCached(index, words) =>
      u.(cache := u.cache.(groups := SetRegister(u.cache.groups, index, words, false, 0)))
    case WriteWithoutResponse(answer) =>
      if answer.Failed? then u
      else Unit(u.cache.(groups := ClearAllPins(u.cache.groups), igroups := ClearAllPins(u.cache.igroups)),
                None, u.log + [Restarted])
    case _ => u
  }

  predicate Succeeds(op: Op) {
    match op
    case WriteRegisters(_, _, _, _, ok, _) => ok
    case WriteCoil(ok) => ok
    case SetCached(_, _) => true
    case WriteWithoutResponse(answer) => !answer.Failed?
    case Refuse => false
  }

  lemma DoStaysSound(u: Unit, periodicScan: bool, op: Op)
    requires u.cache.Sound()
    ensures Do(u, periodicScan, op).cache.Sound()
    ensures |Do(u, periodicScan, op).cache.groups| == |u.cache.groups|
    ensures |Do(u, periodicScan, op).cache.igroups| == |u.cache.igroups|
    ensures SameBlocks(u.cache, Do(u, periodicScan, op).cache)
  {
    if op.WriteRegisters? {
      WrittenStaysSound(u.cache, op.index, op.words, op.cached, op.pinned && periodicScan, op.now);
    }
  }

  lemma WrittenStaysSound(c: Cache, index: nat, words: seq<Word>, cached: bool, pin: bool, now: Time)
    requires c.Sound()
    ensures Written(c, index, words, cached, pin, now).Sound()
    ensures SameBlocks(c, Written(c, index, words, cached, pin, now))
  {
    var s := if cached then SetRegister(c.groups, index, words, false, now) else c.groups;
    forall i | 0 <= i < |s|
      ensures var r := PinEach(s[i], index, words, now + REREAD_DELAY); r.Valid() && r == s[i].(pins := r.pins)
    {
      assert s[i].Valid();
      PinEachStaysValid(s[i], index, words, now + REREAD_DELAY);
    }
  }

  lemma {:induction false} PinEachStaysValid(g: Group, index: nat, words: seq<Word>, until: Time)
    requires g.Valid()
    ensures var r := PinEach(g, index, words, until); r.Valid() && r == g.(pins := r.pins)
    decreases |words|
  {
    if words != [] {
      PinEachStaysValid(PinRegister(g, index, words[0], until), index + 1, words[1..], until);
    }
  }

  predicate SameBlock(g: Group, h: Group) {
    h.address == g.address && h.count == g.count && h.divider == g.divider
  }

  predicate SameBlocks(c: Cache, d: Cache) {
    && |d.groups| == |c.groups| && (forall i :: 0 <= i < |c.groups| ==> SameBlock(c.groups[i], d.groups[i]))
    && |d.igroups| == |c.igroups| && (forall i :: 0 <= i < |c.igroups| ==> SameBlock(c.igroups[i], d.igroups[i]))
  }

  /** The operation up to its first failed step. */
  function Perform(u: Unit, periodicScan: bool, ops: seq<Op>): (r: Unit)
    requires u.cache.Sound()
    ensures r.cache.Sound() && SameBlocks(u.cache, r.cache)
    decreases |ops|
  {
    if ops == [] then u
    else
      DoStaysSound(u, periodicScan, ops[0]);
      var v := Do(u, periodicScan, ops[0]);
      if Succeeds(ops[0]) then Perform(v, periodicScan, ops[1..]) else v
  }

  // ---- the read after the operation ----

  function BlocksRead(gs: seq<Group>, k: nat, w: Wanted, isInput: bool, first: Option<nat>,
                      visits: seq<Visit>): seq<Entry>
    requires k <= |gs| == |visits|
    decreases |gs| - k
  {
    if k == |gs| then []
    else if !Wants(w, gs[k], isInput, first == Some(k), visits[k].asked)
    then BlocksRead(gs, k + 1, w, isInput, first, visits)
    else if visits[k].reply.None? then []
    else [ReadBlock(isInput, k)] + BlocksRead(gs, k + 1, w, isInput, first, visits)
  }

  /** The responses of the unit to the read of its blocks. */
  datatype Replies = Replies(holding: seq<Visit>, input: seq<Visit>, end: Time)

  predicate Answers(c: Cache, r: Replies) {
    |r.holding| == |c.groups| && |r.input| == |c.igroups|
  }

  function ReadLog(c: Cache, w: Wanted, r: Replies): seq<Entry>
    requires c.Sound() && Answers(c, r)
  {
    BlocksRead(c.groups, 0, w, false, FirstHolding(c), r.holding) +
    if ReadFrom(c.groups, 0, w, false, FirstHolding(c), r.holding).failed then []
    else BlocksRead(c.igroups, 0, w, true, FirstInput(c), r.input)
  }

  /** Which blocks the change reads: all after a restart or without the names of its devices, else the blocks of
      the written registers and of the states of the devices. */
  function WantedAfter(u: Unit, devices: set<Register>): Wanted {
    if u.written.None? then All else AfterChange(u.cache, u.written.value + devices)
  }

  function Renewed(u: Unit, end: Time): Cache {
    if u.written.Some? && u.written.value != {} then
      u.cache.(groups := RenewAll(u.cache.groups, OfKind(u.written.value, false), end + REREAD_DELAY),
               igroups := RenewAll(u.cache.igroups, OfKind(u.written.value, true), end + REREAD_DELAY))
    else u.cache
  }

  lemma RenewedStaysSound(u: Unit, end: Time)
    requires u.cache.Sound()
    ensures Renewed(u, end).Sound() && SameBlocks(u.cache, Renewed(u, end))
  {
  }

  /** The end of _change(), also after a failed operation. */
  function Finish(u: Unit, read: bool, devices: set<Register>, end: Time, r: Replies): Unit
    requires u.cache.Sound() && Answers(u.cache, r)
  {
    RenewedStaysSound(u, end);
    var c := Renewed(u, end);
    var w := WantedAfter(u.(cache := c), devices);
    if !read then Unit(c, None, u.log)
    else Unit(ReadGroups(c, w, r.holding, r.input, r.end), None, u.log + ReadLog(c, w, r))
  }

  datatype Outcome = Done | UnitUnavailable | OperationFailed

  function Start(u: Unit, devices: Option<set<Register>>): Unit {
    u.(written := if devices.None? then None else Some({}))
  }

  function DevicesOf(devices: Option<set<Register>>): set<Register> {
    if devices.None? then {} else devices.value
  }

  /** The read of a unit which failed its last scan and has no periodic scan, before the operation. */
  function Seen(u: Unit, periodicScan: bool, checkAvailable: bool, first: Replies): (r: Unit)
    requires u.cache.Sound() && Answers(u.cache, first)
    ensures r.cache.Sound() && |r.cache.groups| == |u.cache.groups| && |r.cache.igroups| == |u.cache.igroups|
  {
    if checkAvailable && u.cache.failed && !periodicScan
    then u.(cache := ReadGroups(u.cache, All, first.holding, first.input, first.end),
    log := u.log + ReadLog(u.cache, All, first))
    else u
  }

  /** _change(): `first` are the replies to the read before the operation, `last` to the one after it at `end`. */
  function Change(u: Unit, periodicScan: bool, checkAvailable: bool, read: bool, devices: Option<set<Register>>,
                  ops: seq<Op>, first: Replies, end: Time, last: Replies): (r: (Unit, Outcome))
    requires u.cache.Sound() && Answers(u.cache, first) && Answers(u.cache, last)
  {
    var seen := Seen(u, periodicScan, checkAvailable, first);
    if checkAvailable && seen.cache.failed then (seen, UnitUnavailable)
    else
      var done := Perform(Start(seen, devices), periodicScan, ops);
      (Finish(done, read, DevicesOf(devices), end, last),
       if forall op :: op in ops ==> Succeeds(op) then Done else OperationFailed)
  }

  // ---- every block that matters is read after the last write ----

  lemma {:induction false} AllWantedAreRead(gs: seq<Group>, hs: seq<Group>, k: nat, w: Wanted, isInput: bool,
                                            first: Option<nat>, visits: seq<Visit>, i: nat)
    requires SoundGroups(gs) && k <= i < |gs| == |visits| && !w.Periodic?
    requires |hs| == |gs| && SameBlock(hs[i], gs[i])
    requires !ReadFrom(gs, k, w, isInput, first, visits).failed && Wants(w, hs[i], isInput, first == Some(i), 0)
    ensures ReadBlock(isInput, i) in BlocksRead(gs, k, w, isInput, first, visits)
    decreases |gs| - k
  {
    SameBlockIsWanted(hs[i], gs[i], w, isInput, first == Some(i), 0, visits[i].asked);
    if Wants(w, gs[k], isInput, first == Some(k), visits[k].asked) {
      var g := Update(gs[k], gs[k].address, visits[k].reply.value, true, visits[k].answered);
      if k < i {
        AllWantedAreRead(gs[k := g], hs, k + 1, w, isInput, first, visits, i);
        ReadBlocksStay(gs, gs[k := g], k + 1, w, isInput, first, visits);
      }
    } else {
      AllWantedAreRead(gs, hs, k + 1, w, isInput, first, visits, i);
    }
  }

  lemma SameBlockIsWanted(g: Group, h: Group, w: Wanted, isInput: bool, isFirst: bool, s: Time, t: Time)
    requires SameBlock(g, h) && !w.Periodic?
    ensures Wants(w, g, isInput, isFirst, s) == Wants(w, h, isInput, isFirst, t)
  {
  }

  lemma {:induction false} ReadBlocksStay(gs: seq<Group>, hs: seq<Group>, k: nat, w: Wanted, isInput: bool,
                                          first: Option<nat>, visits: seq<Visit>)
    requires |gs| == |hs| == |visits| && k <= |gs| && forall i :: k <= i < |gs| ==> gs[i] == hs[i]
    ensures BlocksRead(gs, k, w, isInput, first, visits) == BlocksRead(hs, k, w, isInput, first, visits)
    decreases |gs| - k
  {
    if k < |gs| {
      ReadBlocksStay(gs, hs, k + 1, w, isInput, first, visits);
    }
  }

  predicate Wanted0(c: Cache, w: Wanted, isInput: bool, i: nat) {
    i < |c.Of(isInput)| &&
    Wants(w, c.Of(isInput)[i], isInput, (if isInput then FirstInput(c) else FirstHolding(c)) == Some(i), 0)
  }

  lemma SuccessfulReadIsComplete(c: Cache, w: Wanted, r: Replies, isInput: bool, i: nat)
    requires c.Sound() && Answers(c, r) && !w.Periodic?
    requires !ReadGroups(c, w, r.holding, r.input, r.end).failed && Wanted0(c, w, isInput, i)
    ensures ReadBlock(isInput, i) in ReadLog(c, w, r)
  {
    if isInput {
      AllWantedAreRead(c.igroups, c.igroups, 0, w, true, FirstInput(c), r.input, i);
    } else {
      AllWantedAreRead(c.groups, c.groups, 0, w, false, FirstHolding(c), r.holding, i);
    }
  }

  /** The operation notes every register it wrote, unless the unit restarted: then all blocks are read. */
  lemma {:induction false} OperationNotesWrites(u: Unit, periodicScan: bool, ops: seq<Op>, a: nat)
    requires u.cache.Sound()
    ensures u.log <= Perform(u, periodicScan, ops).log
    ensures Perform(u, periodicScan, ops).written.Some? ==>
              u.written.Some? && u.written.value <= Perform(u, periodicScan, ops).written.value
    ensures Perform(u, periodicScan, ops).written.Some? ==>
              Restarted !in Perform(u, periodicScan, ops).log[|u.log|..]
    ensures Perform(u, periodicScan, ops).written.Some? && WroteAfter(Perform(u, periodicScan, ops).log, |u.log|, a) ==>
              (a, false) in Perform(u, periodicScan, ops).written.value
    decreases |ops|
  {
    if ops != [] {
      DoStaysSound(u, periodicScan, ops[0]);
      var v := Do(u, periodicScan, ops[0]);
      var z := Perform(u, periodicScan, ops);
      DoNotes(u, periodicScan, ops[0], a);
      if Succeeds(ops[0]) {
        OperationNotesWrites(v, periodicScan, ops[1..], a);
        assert z.log[|u.log|..] == v.log[|u.log|..] + z.log[|v.log|..];
      }
    }
  }

  lemma DoNotes(u: Unit, periodicScan: bool, op: Op, a: nat)
    requires u.cache.Sound()
    ensures u.log <= Do(u, periodicScan, op).log
    ensures var v := Do(u, periodicScan, op);
            v.written.Some? ==> u.written.Some? && u.written.value <= v.written.value &&
                                Restarted !in v.log[|u.log|..] &&
                                (Wrote(a) in v.log[|u.log|..] ==> (a, false) in v.written.value)
  {
    var v := Do(u, periodicScan, op);
    if op.WriteRegisters? && op.ok {
      assert v.log[|u.log|..] == Wrotes(op.index, |op.words|);
    }
  }

  /** The block was read after the last write and the last restart in the log. */
  predicate ReadLast(log: seq<Entry>, isInput: bool, k: nat) {
    exists j :: 0 <= j < |log| && log[j] == ReadBlock(isInput, k) && forall i :: j < i < |log| ==> log[i].ReadBlock?
  }

  lemma {:induction false} OnlyReads(gs: seq<Group>, k: nat, w: Wanted, isInput: bool, first: Option<nat>,
                                     visits: seq<Visit>)
    requires k <= |gs| == |visits|
    ensures forall e :: e in BlocksRead(gs, k, w, isInput, first, visits) ==> e.ReadBlock?
    decreases |gs| - k
  {
    if k < |gs| {
      OnlyReads(gs, k + 1, w, isInput, first, visits);
    }
  }

  lemma ReadInTailIsLast(log: seq<Entry>, tail: seq<Entry>, isInput: bool, k: nat)
    requires (forall e :: e in tail ==> e.ReadBlock?) && ReadBlock(isInput, k) in tail
    ensures ReadLast(log + tail, isInput, k)
  {
    var j :| 0 <= j < |tail| && tail[j] == ReadBlock(isInput, k);
    assert (log + tail)[|log| + j] == ReadBlock(isInput, k);
    forall i | |log| + j < i < |log + tail| ensures (log + tail)[i].ReadBlock? {
      assert (log + tail)[i] == tail[i - |log|];
    }
  }

  predicate HoldsAny(c: Cache, isInput: bool, k: nat, registers: set<Register>) {
    k < |c.Of(isInput)| && RegisterCaches.Holds(c.Of(isInput)[k], isInput, registers)
  }

  /** The register was written after the first `from` entries of the log. */
  predicate WroteAfter(log: seq<Entry>, from: nat, a: nat) {
    from <= |log| && Wrote(a) in log[from..]
  }

  /** The read of Finish() covers the blocks it wants. */
  lemma FinishReads(u: Unit, devices: set<Register>, end: Time, r: Replies, isInput: bool, k: nat)
    requires u.cache.Sound() && Answers(u.cache, r)
    requires !Finish(u, true, devices, end, r).cache.failed
    requires Wanted0(Renewed(u, end), WantedAfter(u.(cache := Renewed(u, end)), devices), isInput, k)
    ensures ReadLast(Finish(u, true, devices, end, r).log, isInput, k)
  {
    RenewedStaysSound(u, end);
    var c := Renewed(u, end);
    var w := WantedAfter(u.(cache := c), devices);
    SuccessfulReadIsComplete(c, w, r, isInput, k);
    OnlyReads(c.groups, 0, w, false, FirstHolding(c), r.holding);
    OnlyReads(c.igroups, 0, w, true, FirstInput(c), r.input);
    ReadInTailIsLast(u.log, ReadLog(c, w, r), isInput, k);
  }

  lemma HeldBlockIsWanted(u: Unit, devices: set<Register>, end: Time, isInput: bool, k: nat)
    requires u.cache.Sound()
    requires k < |u.cache.Of(isInput)|
    requires u.written.None? || HoldsAny(u.cache, isInput, k, u.written.value + devices)
    ensures Wanted0(Renewed(u, end), WantedAfter(u.(cache := Renewed(u, end)), devices), isInput, k)
  {
    RenewedStaysSound(u, end);
    var c := Renewed(u, end);
    if u.written.Some? {
      var registers := u.written.value + devices;
      var g := c.Of(isInput)[k];
      var x :| x in registers && x.1 == isInput && u.cache.Of(isInput)[k].Has(x.0, 1);
      assert g.Has(x.0, 1) && RegisterCaches.Holds(g, isInput, registers);
      assert Wants(Changed(registers), g, isInput, false, 0);
      assert AfterChange(c, registers) == Changed(registers);
    }
  }

  /** The block is to be read: the unit restarted after the first `from` entries of the log, the change names no devices
      or one with a register of the block, or a register of the block was written. */
  ghost predicate Concerned(c: Cache, log: seq<Entry>, from: nat, devices: Option<set<Register>>, isInput: bool,
                            k: nat)
  {
    from <= |log| &&
    (|| Restarted in log[from..]
     || devices.None?
     || HoldsAny(c, isInput, k, devices.value)
     || exists a: nat :: WroteAfter(log, from, a) && HoldsAny(c, isInput, k, {(a, false)}))
  }

  /** The reads after the operation concern no block. */
  lemma ConcernedByOperation(c: Cache, log: seq<Entry>, after: seq<Entry>, from: nat, devices: Option<set<Register>>,
                             isInput: bool, k: nat)
    requires from <= |log| && Concerned(c, after, from, devices, isInput, k)
    requires forall e: Entry :: !e.ReadBlock? && e in after[from..] ==> e in log[from..]
    ensures Concerned(c, log, from, devices, isInput, k)
  {
    if a: nat :| WroteAfter(after, from, a) && HoldsAny(c, isInput, k, {(a, false)}) {
      assert WroteAfter(log, from, a);
    }
  }

  /** After the operation all blocks are to be read, or the noted registers hold every block concerned. */
  lemma ConcernedIsNoted(u: Unit, periodicScan: bool, ops: seq<Op>, devices: Option<set<Register>>, isInput: bool,
                         k: nat)
    requires u.cache.Sound() && (devices.None? ==> u.written.None?)
    requires Concerned(u.cache, Perform(u, periodicScan, ops).log, |u.log|, devices, isInput, k)
    ensures var done := Perform(u, periodicScan, ops);
            done.written.None? || HoldsAny(u.cache, isInput, k, done.written.value + DevicesOf(devices))
  {
    var done := Perform(u, periodicScan, ops);
    OperationNotesWrites(u, periodicScan, ops, 0);
    if done.written.Some? {
      var registers := done.written.value + DevicesOf(devices);
      if a: nat :| WroteAfter(done.log, |u.log|, a) && HoldsAny(u.cache, isInput, k, {(a, false)}) {
        OperationNotesWrites(u, periodicScan, ops, a);
        assert (a, false) in registers && u.cache.Of(isInput)[k].Has(a, 1);
      } else {
        var x :| x in devices.value && x.1 == isInput && u.cache.Of(isInput)[k].Has(x.0, 1);
        assert x in registers;
      }
    }
  }

  lemma HeldInSameBlocks(c: Cache, d: Cache, isInput: bool, k: nat, registers: set<Register>)
    requires SameBlocks(c, d)
    ensures HoldsAny(c, isInput, k, registers) == HoldsAny(d, isInput, k, registers)
  {
  }

  lemma ConcernedInSameBlocks(c: Cache, d: Cache, log: seq<Entry>, from: nat, devices: Option<set<Register>>,
                              isInput: bool, k: nat)
    requires SameBlocks(c, d) && Concerned(c, log, from, devices, isInput, k)
    ensures Concerned(d, log, from, devices, isInput, k)
  {
    if devices.Some? {
      HeldInSameBlocks(c, d, isInput, k, devices.value);
    }
    if a: nat :| WroteAfter(log, from, a) && HoldsAny(c, isInput, k, {(a, false)}) {
      HeldInSameBlocks(c, d, isInput, k, {(a, false)});
    }
  }

  /** The operation and the read after it. */
  lemma OperationIsRead(u: Unit, periodicScan: bool, devices: Option<set<Register>>, ops: seq<Op>, end: Time,
                        r: Replies, isInput: bool, k: nat)
    requires u.cache.Sound() && Answers(u.cache, r) && (devices.None? ==> u.written.None?) && k < |u.cache.Of(isInput)|
    requires var z := Finish(Perform(u, periodicScan, ops), true, DevicesOf(devices), end, r);
             !z.cache.failed && Concerned(u.cache, z.log, |u.log|, devices, isInput, k)
    ensures ReadLast(Finish(Perform(u, periodicScan, ops), true, DevicesOf(devices), end, r).log, isInput, k)
  {
    var done, ds := Perform(u, periodicScan, ops), DevicesOf(devices);
    OperationNotesWrites(u, periodicScan, ops, 0);
    FinishOnlyReads(done, ds, end, r, |u.log|);
    ConcernedByOperation(u.cache, done.log, Finish(done, true, ds, end, r).log, |u.log|, devices, isInput, k);
    ConcernedIsNoted(u, periodicScan, ops, devices, isInput, k);
    if done.written.Some? {
      HeldInSameBlocks(u.cache, done.cache, isInput, k, done.written.value + ds);
    }
    HeldBlockIsWanted(done, ds, end, isInput, k);
    FinishReads(done, ds, end, r, isInput, k);
  }

  /** After every change, also one whose operation failed, either the unit has an error of the read, or every block
      with a register written by the operation or a register of a changed device was read after the last write; a
      restart of the unit inside the change, or a change which names no devices, read all blocks. */
  lemma ChangeReadsWhatItWrote(u: Unit, periodicScan: bool, checkAvailable: bool, devices: Option<set<Register>>,
                               ops: seq<Op>, first: Replies, end: Time, last: Replies, isInput: bool, k: nat)
    requires u.cache.Sound() && Answers(u.cache, first) && Answers(u.cache, last) && k < |u.cache.Of(isInput)|
    requires var (z, outcome) := Change(u, periodicScan, checkAvailable, true, devices, ops, first, end, last);
             var before := |Seen(u, periodicScan, checkAvailable, first).log|;
             outcome != UnitUnavailable && !z.cache.failed && Concerned(u.cache, z.log, before, devices, isInput, k)
    ensures ReadLast(Change(u, periodicScan, checkAvailable, true, devices, ops, first, end, last).0.log, isInput, k)
  {
    var seen := Start(Seen(u, periodicScan, checkAvailable, first), devices);
    var z := Change(u, periodicScan, checkAvailable, true, devices, ops, first, end, last).0;
    SeenKeepsBlocks(u, periodicScan, checkAvailable, first);
    ConcernedInSameBlocks(u.cache, seen.cache, z.log, |seen.log|, devices, isInput, k);
    OperationIsRead(seen, periodicScan, devices, ops, end, last, isInput, k);
  }

  lemma {:induction false} ReadKeepsBlocks(gs: seq<Group>, k: nat, w: Wanted, isInput: bool, first: Option<nat>,
                                           visits: seq<Visit>)
    requires SoundGroups(gs) && k <= |gs| == |visits|
    ensures forall i :: 0 <= i < |gs| ==> SameBlock(gs[i], ReadFrom(gs, k, w, isInput, first, visits).groups[i])
    decreases |gs| - k
  {
    if k < |gs| {
      if !Wants(w, gs[k], isInput, first == Some(k), visits[k].asked) {
        ReadKeepsBlocks(gs, k + 1, w, isInput, first, visits);
      } else if visits[k].reply.Some? {
        var g := Update(gs[k], gs[k].address, visits[k].reply.value, true, visits[k].answered);
        ReadKeepsBlocks(gs[k := g], k + 1, w, isInput, first, visits);
        assert forall i :: 0 <= i < |gs| ==> SameBlock(gs[i], gs[k := g][i]);
      }
    }
  }

  lemma SeenKeepsBlocks(u: Unit, periodicScan: bool, checkAvailable: bool, first: Replies)
    requires u.cache.Sound() && Answers(u.cache, first)
    ensures SameBlocks(u.cache, Seen(u, periodicScan, checkAvailable, first).cache)
  {
    ReadKeepsBlocks(u.cache.groups, 0, All, false, FirstHolding(u.cache), first.holding);
    ReadKeepsBlocks(u.cache.igroups, 0, All, true, FirstInput(u.cache), first.input);
  }

  lemma FinishOnlyReads(u: Unit, devices: set<Register>, end: Time, r: Replies, from: nat)
    requires u.cache.Sound() && Answers(u.cache, r) && from <= |u.log|
    ensures var z := Finish(u, true, devices, end, r);
            u.log <= z.log && forall e: Entry :: !e.ReadBlock? && e in z.log[from..] ==> e in u.log[from..]
  {
    RenewedStaysSound(u, end);
    var c := Renewed(u, end);
    var w := WantedAfter(u.(cache := c), devices);
    var z := Finish(u, true, devices, end, r);
    OnlyReads(c.groups, 0, w, false, FirstHolding(c), r.holding);
    OnlyReads(c.igroups, 0, w, true, FirstInput(c), r.input);
    assert z.log[from..] == u.log[from..] + ReadLog(c, w, r);
  }

  /** At least one block is read, if the unit has any: the read after a failed write finds whether it responds. */
  lemma ChangeReadsSomething(u: Unit, periodicScan: bool, checkAvailable: bool, devices: Option<set<Register>>,
                             ops: seq<Op>, first: Replies, end: Time, last: Replies) returns (isInput: bool, k: nat)
    requires u.cache.Sound() && Answers(u.cache, first) && Answers(u.cache, last)
    requires u.cache.groups != [] || u.cache.igroups != []
    requires var (z, outcome) := Change(u, periodicScan, checkAvailable, true, devices, ops, first, end, last);
             outcome != UnitUnavailable && !z.cache.failed
    ensures ReadLast(Change(u, periodicScan, checkAvailable, true, devices, ops, first, end, last).0.log, isInput, k)
  {
    var seen := Start(Seen(u, periodicScan, checkAvailable, first), devices);
    var done := Perform(seen, periodicScan, ops);
    var ds := DevicesOf(devices);
    var c := Renewed(done, end);
    RenewedStaysSound(done, end);
    var w := WantedAfter(done.(cache := c), ds);
    isInput, k := SomeBlockIsWanted(c, w, if done.written.None? then {} else done.written.value + ds);
    FinishReads(done, ds, end, last, isInput, k);
  }

  lemma SomeBlockIsWanted(c: Cache, w: Wanted, registers: set<Register>) returns (isInput: bool, k: nat)
    requires c.groups != [] || c.igroups != []
    requires w == All || w == AfterChange(c, registers)
    ensures Wanted0(c, w, isInput, k)
  {
    if w.Changed? {
      if i :| 0 <= i < |c.groups| && Wants(w, c.groups[i], false, false, 0) {
        return false, i;
      }
      var i :| 0 <= i < |c.igroups| && Wants(w, c.igroups[i], true, false, 0);
      return true, i;
    }
    if c.groups != [] {
      return false, 0;
    }
    return true, 0;
  }

  // ---- the refusal of an unavailable unit ----

  /** A block was asked for in vain. */
  predicate Unanswered(visits: seq<Visit>) {
    exists k :: 0 <= k < |visits| && visits[k].reply.None?
  }

  lemma {:induction false} AllFailsUnanswered(gs: seq<Group>, k: nat, isInput: bool, first: Option<nat>,
                                              visits: seq<Visit>)
    requires SoundGroups(gs) && k <= |gs| == |visits|
    ensures ReadFrom(gs, k, All, isInput, first, visits).failed <==> Unanswered(visits[k..])
    decreases |gs| - k
  {
    if k < |gs| {
      if visits[k].reply.None? {
        assert visits[k..][0] == visits[k];
      } else {
        var g := Update(gs[k], gs[k].address, visits[k].reply.value, true, visits[k].answered);
        AllFailsUnanswered(gs[k := g], k + 1, isInput, first, visits);
        assert visits[k..] == [visits[k]] + visits[k + 1..];
      }
    }
  }

  /** The unit is still unavailable: its last scan failed, and nobody reads it again before the next periodic scan, or
      its read before the operation fails. */
  predicate Unavailable(u: Unit, periodicScan: bool, first: Replies) {
    u.cache.failed && (periodicScan || Unanswered(first.holding) || Unanswered(first.input))
  }

  lemma SeenIsAvailable(u: Unit, periodicScan: bool, first: Replies)
    requires u.cache.Sound() && Answers(u.cache, first)
    ensures Seen(u, periodicScan, true, first).cache.failed <==> Unavailable(u, periodicScan, first)
  {
    AllFailsUnanswered(u.cache.groups, 0, false, FirstHolding(u.cache), first.holding);
    AllFailsUnanswered(u.cache.igroups, 0, true, FirstInput(u.cache), first.input);
    assert first.holding[0..] == first.holding && first.input[0..] == first.input;
  }

  lemma SeenOnlyReads(u: Unit, periodicScan: bool, checkAvailable: bool, first: Replies)
    requires u.cache.Sound() && Answers(u.cache, first)
    ensures var seen := Seen(u, periodicScan, checkAvailable, first);
            u.log <= seen.log && forall e :: e in seen.log[|u.log|..] ==> e.ReadBlock?
  {
    OnlyReads(u.cache.groups, 0, All, false, FirstHolding(u.cache), first.holding);
    OnlyReads(u.cache.igroups, 0, All, true, FirstInput(u.cache), first.input);
  }

  /** The outcome of a change: refused exactly if it is to check a unit which is unavailable, and then only blocks were
      read; else done exactly if every step of the operation succeeds. */
  lemma ChangeIsRefusedExactly(u: Unit, periodicScan: bool, checkAvailable: bool, read: bool,
                               devices: Option<set<Register>>, ops: seq<Op>, first: Replies, end: Time, last: Replies)
    requires u.cache.Sound() && Answers(u.cache, first) && Answers(u.cache, last)
    ensures
      var (z, outcome) := Change(u, periodicScan, checkAvailable, read, devices, ops, first, end, last);
      && (outcome == UnitUnavailable <==> checkAvailable && Unavailable(u, periodicScan, first))
      && (outcome == UnitUnavailable ==>
            u.log <= z.log && (forall e :: e in z.log[|u.log|..] ==> e.ReadBlock?) && z.cache.failed)
      && (outcome != UnitUnavailable ==> (outcome == Done <==> forall op :: op in ops ==> Succeeds(op)))
  {
    SeenIsAvailable(u, periodicScan, first);
    SeenOnlyReads(u, periodicScan, checkAvailable, first);
  }

  // ---- the operation up to its first failed step ----

  /** What a successful step sends. */
  function SentBy(op: Op): seq<Entry> {
    match op
    case WriteRegisters(index, words, _, _, _, _) => Wrotes(index, |words|)
    case WriteWithoutResponse(_) => [Restarted]
    case _ => []
  }

  function SentByAll(ops: seq<Op>): seq<Entry> {
    if ops == [] then [] else SentBy(ops[0]) + SentByAll(ops[1..])
  }

  lemma FailedStepSendsNothing(u: Unit, periodicScan: bool, op: Op)
    requires u.cache.Sound()
    ensures Do(u, periodicScan, op).log == if Succeeds(op) then u.log + SentBy(op) else u.log
    ensures !Succeeds(op) ==> Do(u, periodicScan, op) == u
  {
  }

  lemma {:induction false} PerformNext(u: Unit, periodicScan: bool, ops: seq<Op>)
    requires u.cache.Sound() && ops != []
    ensures Do(u, periodicScan, ops[0]).cache.Sound()
    ensures Perform(u, periodicScan, ops) ==
            if Succeeds(ops[0]) then Perform(Do(u, periodicScan, ops[0]), periodicScan, ops[1..]) else u
  {
    DoStaysSound(u, periodicScan, ops[0]);
    FailedStepSendsNothing(u, periodicScan, ops[0]);
  }

  /** Exactly the steps before the first failed one are done. */
  lemma {:induction false} PerformsUpToFailure(u: Unit, periodicScan: bool, ops: seq<Op>, n: nat)
    requires u.cache.Sound() && n <= |ops| && forall i :: 0 <= i < n ==> Succeeds(ops[i])
    requires n < |ops| ==> !Succeeds(ops[n])
    ensures Perform(u, periodicScan, ops) == Perform(u, periodicScan, ops[..n])
    decreases |ops|
  {
    if n > 0 {
      PerformNext(u, periodicScan, ops);
      PerformNext(u, periodicScan, ops[..n]);
      PerformsUpToFailure(Do(u, periodicScan, ops[0]), periodicScan, ops[1..], n - 1);
      assert ops[..n][1..] == ops[1..][..n - 1];
    } else if ops != [] {
      PerformNext(u, periodicScan, ops);
    }
  }

  lemma Regrouped(a: seq<Entry>, b: seq<Entry>, c: seq<Entry>)
    ensures a + b + c == a + (b + c)
  {
  }

  lemma {:induction false} PerformSends(u: Unit, periodicScan: bool, ops: seq<Op>)
    requires u.cache.Sound() && forall i :: 0 <= i < |ops| ==> Succeeds(ops[i])
    ensures Perform(u, periodicScan, ops).log == u.log + SentByAll(ops)
    decreases |ops|
  {
    if ops != [] {
      var v := Do(u, periodicScan, ops[0]);
      FailedStepSendsNothing(u, periodicScan, ops[0]);
      PerformNext(u, periodicScan, ops);
      PerformSends(v, periodicScan, ops[1..]);
      Regrouped(u.log, SentBy(ops[0]), SentByAll(ops[1..]));
    }
  }

  /** The first failed step ends the operation: the unit is sent what the steps before it send, in their order. */
  lemma OperationEndsAtFailure(u: Unit, periodicScan: bool, ops: seq<Op>, n: nat)
    requires u.cache.Sound() && n <= |ops| && forall i :: 0 <= i < n ==> Succeeds(ops[i])
    requires n < |ops| ==> !Succeeds(ops[n])
    ensures Perform(u, periodicScan, ops) == Perform(u, periodicScan, ops[..n])
    ensures Perform(u, periodicScan, ops).log == u.log + SentByAll(ops[..n])
  {
    PerformsUpToFailure(u, periodicScan, ops, n);
    PerformSends(u, periodicScan, ops[..n]);
  }

  /** What a change which is not refused sends: the writes of its operation up to the first failed step, and after them
      only reads, none if it is not to read. At its end no written registers are noted. */
  lemma ChangeSends(u: Unit, periodicScan: bool, checkAvailable: bool, read: bool, devices: Option<set<Register>>,
                    ops: seq<Op>, first: Replies, end: Time, last: Replies, n: nat) returns (tail: seq<Entry>)
    requires u.cache.Sound() && Answers(u.cache, first) && Answers(u.cache, last)
    requires Change(u, periodicScan, checkAvailable, read, devices, ops, first, end, last).1 != UnitUnavailable
    requires n <= |ops| && (forall i :: 0 <= i < n ==> Succeeds(ops[i])) && (n < |ops| ==> !Succeeds(ops[n]))
    ensures
      var z := Change(u, periodicScan, checkAvailable, read, devices, ops, first, end, last).0;
      && z.log == Seen(u, periodicScan, checkAvailable, first).log + SentByAll(ops[..n]) + tail
      && (forall e :: e in tail ==> e.ReadBlock?) && (!read ==> tail == []) && z.written == None
  {
    var seen := Start(Seen(u, periodicScan, checkAvailable, first), devices);
    var done := Perform(seen, periodicScan, ops);
    OperationEndsAtFailure(seen, periodicScan, ops, n);
    RenewedStaysSound(done, end);
    var c := Renewed(done, end);
    tail := [];
    if read {
      var w := WantedAfter(done.(cache := c), DevicesOf(devices));
      tail := ReadLog(c, w, last);
      OnlyReads(c.groups, 0, w, false, FirstHolding(c), last.holding);
      OnlyReads(c.igroups, 0, w, true, FirstInput(c), last.input);
    }
  }

  // ---- the pins after a restart ----

  /** The register was written after the last restart in the log. */
  predicate WroteSinceRestart(log: seq<Entry>, a: nat) {
    exists j :: 0 <= j < |log| && log[j] == Wrote(a) && forall i :: j < i < |log| ==> log[i] != Restarted
  }

  /** Since a restart in the log, every pin is of a register written after it. */
  ghost predicate PinsAreNew(u: Unit, from: nat) {
    from <= |u.log| &&
    (Restarted in u.log[from..] ==>
       && (forall g, a :: g in u.cache.groups && a in g.pins ==> WroteSinceRestart(u.log, a))
       && (forall g :: g in u.cache.igroups ==> g.pins == map[]))
  }

  lemma WritesStaySinceRestart(log: seq<Entry>, index: nat, n: nat, a: nat)
    ensures WroteSinceRestart(log, a) || Covers(index, n, a) ==> WroteSinceRestart(log + Wrotes(index, n), a)
  {
    var z := log + Wrotes(index, n);
    if Covers(index, n, a) {
      assert z[|log| + (a - index)] == Wrote(a);
    } else if WroteSinceRestart(log, a) {
      var j :| 0 <= j < |log| && log[j] == Wrote(a) && forall i :: j < i < |log| ==> log[i] != Restarted;
      assert z[j] == Wrote(a);
    }
  }

  lemma {:induction false} PinEachPins(g: Group, index: nat, words: seq<Word>, until: Time)
    ensures forall a :: a in PinEach(g, index, words, until).pins ==> a in g.pins || Covers(index, |words|, a)
    decreases |words|
  {
    if words != [] {
      PinEachPins(PinRegister(g, index, words[0], until), index + 1, words[1..], until);
    }
  }

  lemma DoKeepsPinsNew(u: Unit, periodicScan: bool, op: Op, from: nat)
    requires u.cache.Sound() && PinsAreNew(u, from)
    ensures PinsAreNew(Do(u, periodicScan, op), from)
  {
    var v := Do(u, periodicScan, op);
    if op.WriteRegisters? && op.ok {
      assert v.log[from..] == u.log[from..] + Wrotes(op.index, |op.words|);
      if Restarted in v.log[from..] {
        forall g, a | g in v.cache.groups && a in g.pins ensures WroteSinceRestart(v.log, a) {
          var i :| 0 <= i < |v.cache.groups| && v.cache.groups[i] == g;
          var h := u.cache.groups[i];
          assert h in u.cache.groups;
          var s := if op.cached then Update(h, op.index, op.words, false, op.now) else h;
          PinEachPins(s, op.index, op.words, op.now + REREAD_DELAY);
          WritesStaySinceRestart(u.log, op.index, |op.words|, a);
        }
      }
    } else if op.SetCached? {
      forall g, a | g in v.cache.groups && a in g.pins && Restarted in u.log[from..]
        ensures WroteSinceRestart(v.log, a)
      {
        var i :| 0 <= i < |v.cache.groups| && v.cache.groups[i] == g;
        assert u.cache.groups[i] in u.cache.groups && a in u.cache.groups[i].pins;
      }
    }
  }

  lemma {:induction false} OperationKeepsPinsNew(u: Unit, periodicScan: bool, ops: seq<Op>, from: nat)
    requires u.cache.Sound() && PinsAreNew(u, from)
    ensures PinsAreNew(Perform(u, periodicScan, ops), from)
    decreases |ops|
  {
    if ops != [] {
      DoStaysSound(u, periodicScan, ops[0]);
      DoKeepsPinsNew(u, periodicScan, ops[0], from);
      if Succeeds(ops[0]) {
        OperationKeepsPinsNew(Do(u, periodicScan, ops[0]), periodicScan, ops[1..], from);
      }
    }
  }

  lemma ReadsStaySinceRestart(log: seq<Entry>, tail: seq<Entry>, a: nat)
    requires WroteSinceRestart(log, a) && forall e :: e in tail ==> e.ReadBlock?
    ensures WroteSinceRestart(log + tail, a)
  {
    var z := log + tail;
    var j :| 0 <= j < |log| && log[j] == Wrote(a) && forall i :: j < i < |log| ==> log[i] != Restarted;
    assert z[j] == Wrote(a);
    forall i | j < i < |z|
      ensures z[i] != Restarted
    {
      assert i >= |log| ==> z[i] in tail;
    }
  }

  /** A read pins nothing. */
  lemma {:induction false} ReadPinsNothing(gs: seq<Group>, k: nat, w: Wanted, isInput: bool, first: Option<nat>,
                                           visits: seq<Visit>)
    requires SoundGroups(gs) && k <= |gs| == |visits|
    ensures forall i :: 0 <= i < |gs| ==>
              ReadFrom(gs, k, w, isInput, first, visits).groups[i].pins.Keys <= gs[i].pins.Keys
    decreases |gs| - k
  {
    if k < |gs| {
      if !Wants(w, gs[k], isInput, first == Some(k), visits[k].asked) {
        ReadPinsNothing(gs, k + 1, w, isInput, first, visits);
      } else if visits[k].reply.Some? {
        var g := Update(gs[k], gs[k].address, visits[k].reply.value, true, visits[k].answered);
        ReadPinsNothing(gs[k := g], k + 1, w, isInput, first, visits);
        assert forall i :: 0 <= i < |gs| ==> gs[k := g][i].pins.Keys <= gs[i].pins.Keys;
      }
    }
  }

  /** No block has a pin which the same block does not have before. */
  ghost predicate PinsWithin(hs: seq<Group>, gs: seq<Group>) {
    |hs| == |gs| && forall i :: 0 <= i < |gs| ==> hs[i].pins.Keys <= gs[i].pins.Keys
  }

  lemma FinishPinsNothing(u: Unit, read: bool, devices: set<Register>, end: Time, r: Replies)
    requires u.cache.Sound() && Answers(u.cache, r)
    ensures var z := Finish(u, read, devices, end, r);
            PinsWithin(z.cache.groups, u.cache.groups) && PinsWithin(z.cache.igroups, u.cache.igroups)
  {
    RenewedStaysSound(u, end);
    var c := Renewed(u, end);
    if read {
      var w := WantedAfter(u.(cache := c), devices);
      ReadPinsNothing(c.groups, 0, w, false, FirstHolding(c), r.holding);
      ReadPinsNothing(c.igroups, 0, w, true, FirstInput(c), r.input);
    }
  }

  lemma PinsStayNew(u: Unit, z: Unit, tail: seq<Entry>, from: nat)
    requires PinsAreNew(u, from) && z.log == u.log + tail && forall e :: e in tail ==> e.ReadBlock?
    requires PinsWithin(z.cache.groups, u.cache.groups) && PinsWithin(z.cache.igroups, u.cache.igroups)
    ensures PinsAreNew(z, from)
  {
    assert z.log[from..] == u.log[from..] + tail;
    if Restarted in z.log[from..] {
      forall g, a | g in z.cache.groups && a in g.pins
        ensures WroteSinceRestart(z.log, a)
      {
        var i :| 0 <= i < |z.cache.groups| && z.cache.groups[i] == g;
        assert u.cache.groups[i] in u.cache.groups && a in u.cache.groups[i].pins.Keys;
        ReadsStaySinceRestart(u.log, tail, a);
      }
      forall g | g in z.cache.igroups
        ensures g.pins == map[]
      {
        var i :| 0 <= i < |z.cache.igroups| && z.cache.igroups[i] == g;
        assert u.cache.igroups[i] in u.cache.igroups;
      }
    }
  }

  lemma FinishKeepsPinsNew(u: Unit, read: bool, devices: set<Register>, end: Time, r: Replies, from: nat)
    requires u.cache.Sound() && Answers(u.cache, r) && PinsAreNew(u, from)
    ensures PinsAreNew(Finish(u, read, devices, end, r), from)
  {
    RenewedStaysSound(u, end);
    FinishPinsNothing(u, read, devices, end, r);
    var z := Finish(u, read, devices, end, r);
    if read {
      var c := Renewed(u, end);
      var w := WantedAfter(u.(cache := c), devices);
      OnlyReads(c.groups, 0, w, false, FirstHolding(c), r.holding);
      OnlyReads(c.igroups, 0, w, true, FirstInput(c), r.input);
      PinsStayNew(u, z, ReadLog(c, w, r), from);
    } else {
      assert u.log + [] == u.log;
      PinsStayNew(u, z, [], from);
    }
  }

  /** After a change with a restart of its unit no pin set before the restart is left, also after its read: every pinned
      register was written after the last restart. */
  lemma NoPinOutlivesRestart(u: Unit, periodicScan: bool, checkAvailable: bool, read: bool,
                             devices: Option<set<Register>>, ops: seq<Op>, first: Replies, end: Time,
                             last: Replies, g: Group, a: nat)
    requires u.cache.Sound() && Answers(u.cache, first) && Answers(u.cache, last)
    requires var (z, outcome) := Change(u, periodicScan, checkAvailable, read, devices, ops, first, end, last);
             var before := |Seen(u, periodicScan, checkAvailable, first).log|;
             outcome != UnitUnavailable && before <= |z.log| && Restarted in z.log[before..] &&
             g in z.cache.groups + z.cache.igroups && a in g.pins
    ensures WroteSinceRestart(Change(u, periodicScan, checkAvailable, read, devices, ops, first, end, last).0.log, a)
  {
    var seen := Start(Seen(u, periodicScan, checkAvailable, first), devices);
    OperationKeepsPinsNew(seen, periodicScan, ops, |seen.log|);
    FinishKeepsPinsNew(Perform(seen, periodicScan, ops), read, DevicesOf(devices), end, last, |seen.log|);
  }
}
