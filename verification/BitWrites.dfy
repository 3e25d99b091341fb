/** The read-modify-write of a bit of a register (AccessorBit, src/evok/modbus/client.py) on a unit which sets a written
    register with a delay. */
module BitWrites {
  import opened Common
  import opened RegisterGroups
  import opened RegisterCaches
  import opened PlainCaches
  import opened ClientChanges
  import opened Bits
  import CacheRuns

  /** The word sent by write_raw(): the register is read from the unit, the value kept in the cache goes first, the
      words of the unit are used for a register out of the blocks. */
  function WordOf(l: Lookup, reply: Word): Word {
    if l.Words? && |l.words| == 1 then l.words[0] else reply
  }

  function BitWord(c: Cache, op: BitOp, index: nat, reply: Word, now: Time): Word
    requires c.Sound() && SoundGroups(SetRegister(c.groups, index, [reply], true, now))
  {
    Apply(op, WordOf(GetRegister(SetRegister(c.groups, index, [reply], true, now), index, 1), reply))
  }

  /** What one register of the plain map answers to such a read. */
  function Current(r: PlainCaches.Register, a: nat, reply: Word, now: Time): Option<Word> {
    ReadBack(r, a, a, [reply], now).value
  }

  lemma BitWordOfRegister(c: Cache, op: BitOp, index: nat, reply: Word, now: Time)
    requires c.Valid()
    ensures SoundGroups(SetRegister(c.groups, index, [reply], true, now))
    ensures Plain(c.groups, index).Some? ==>
              Current(Plain(c.groups, index).value, index, reply, now).Some? &&
              BitWord(c, op, index, reply, now) ==
                Apply(op, Current(Plain(c.groups, index).value, index, reply, now).value)
    ensures Plain(c.groups, index).None? ==> BitWord(c, op, index, reply, now) == Apply(op, reply)
  {
    var hs := SetRegister(c.groups, index, [reply], true, now);
    PartialReadRefines(c.groups, index, [reply], now, index);
    SameShapeStaysDisjoint(c.groups, hs);
    LookupRefines(hs, index, 1);
    if Plain(c.groups, index).Some? {
      assert hs[Find(hs, index, 1).value].Has(index, 1);
      assert InOneBlock(hs, index, 1);
      forall a: nat | index <= a < index + 1 ensures KnownAt(hs, a) {
        assert a == index;
      }
      assert Plain(hs, index).value.value == Some(GetRegister(hs, index, 1).words[index - index]);
    } else {
      forall i | 0 <= i < |hs| ensures !hs[i].Has(index, 1) {
        assert !c.groups[i].Has(index, 1);
      }
    }
  }

  // ---- a unit with a delay ----

  /** A word received by the unit and when. The unit sets its words in their order, each within `delay`. */
  datatype Sent = Sent(word: Word, time: Time)

  /** A read served at the time may return the word if every later one may be not set yet. */
  ghost predicate CanRead(history: seq<Sent>, delay: nat, served: Time, w: Word) {
    exists k :: 0 <= k < |history| && history[k].word == w &&
                forall i :: k < i < |history| ==> history[i].time + delay > served
  }

  /** One register of a block: what the cache has, what the unit received, and the time of the last event. */
  datatype State = State(register: PlainCaches.Register, history: seq<Sent>, clock: Time)

  /** The requests on the bus do not overlap. A read is served and its response comes within `request`. */
  datatype Event =
    | Bit(op: BitOp, served: Time, answered: Time, reply: Word, sent: Time, done: Time)  // a pinned write of some bits
    | Read(index: nat, words: seq<Word>, served: Time, answered: Time)                   // another read of the register
    | Elsewhere(now: Time)                                                                // a partial read elsewhere
    | Renew(end: Time)                                                                    // the end of a change

  ghost predicate Enabled(s: State, e: Event, a: nat, delay: nat, request: nat) {
    match e
    case Bit(_, served, answered, reply, sent, done) =>
      s.clock <= served <= answered <= served + request && answered <= sent <= done &&
        CanRead(s.history, delay, served, reply)
    case Read(index, words, served, answered) =>
      s.clock <= served <= answered <= served + request && Covers(index, |words|, a) &&
      CanRead(s.history, delay, served, words[a - index])
    case Elsewhere(now) => s.clock <= now
    case Renew(end) => s.clock <= end
  }

  function Latest(s: State): Word
    requires s.history != []
  {
    s.history[|s.history| - 1].word
  }

  /** The word a read-modify-write sends. */
  function SentWord(s: State, e: Event, a: nat): Word
    requires e.Bit?
  {
    var current := Current(s.register, a, e.reply, e.answered);
    Apply(e.op, if current.Some? then current.value else e.reply)
  }

  function Step(s: State, e: Event, a: nat): State {
    match e
    case Bit(op, _, answered, reply, sent, done) =>
      var w := SentWord(s, e, a);
      State(Pinned(Stored(ReadBack(s.register, a, a, [reply], answered), a, a, [w]), a, a, [w], done + REREAD_DELAY),
            s.history + [Sent(w, sent)], done)
    case Read(index, words, _, answered) =>
      s.(register := ReadBack(s.register, a, index, words, answered), clock := answered)
    case Elsewhere(now) => s.(register := ReadBack(s.register, a, a + 1, [], now), clock := now)
    case Renew(end) => s.(register := PlainCaches.Renewed(s.register, a, {a}, end + REREAD_DELAY), clock := end)
  }

  /** The events of the cache which an event of the register is. */
  function CacheEvents(s: State, e: Event, a: nat): seq<CacheRuns.Event> {
    match e
    case Bit(_, _, answered, reply, _, done) =>
      [CacheRuns.Partial(a, [reply], answered),
       CacheRuns.Write(a, [SentWord(s, e, a)], true, Some(done + REREAD_DELAY))]
    case Read(index, words, _, answered) => [CacheRuns.Partial(index, words, answered)]
    case Elsewhere(now) => [CacheRuns.Partial(a + 1, [], now)]
    case Renew(end) => [CacheRuns.Renew({a}, end + REREAD_DELAY)]
  }

  /** What they do to the register in the cache. */
  function RegisterAfter(gs: seq<Group>, r: PlainCaches.Register, es: seq<CacheRuns.Event>,
                         a: nat): PlainCaches.Register
    requires forall e :: e in es ==> CacheRuns.Enabled(gs, e)
    decreases |es|
  {
    if es == [] then r else RegisterAfter(gs, CacheRuns.RegisterStep(gs, r, es[0], a), es[1..], a)
  }

  /** The register of the model is the one of the cache: a bit write is its partial read and then its pinned write. */
  lemma StepIsOfCache(gs: seq<Group>, s: State, e: Event, a: nat)
    ensures forall x :: x in CacheEvents(s, e, a) ==> CacheRuns.Enabled(gs, x)
    ensures Step(s, e, a).register == RegisterAfter(gs, s.register, CacheEvents(s, e, a), a)
  {
    var xs := CacheEvents(s, e, a);
    assert xs == [xs[0]] + xs[1..];
    var y := CacheRuns.RegisterStep(gs, s.register, xs[0], a);
    assert RegisterAfter(gs, s.register, xs, a) == RegisterAfter(gs, y, xs[1..], a);
    if e.Bit? {
      assert xs[1..] == [xs[1]] && xs[1..][1..] == [];
      assert RegisterAfter(gs, y, [xs[1]], a) == RegisterAfter(gs, CacheRuns.RegisterStep(gs, y, xs[1], a), [], a);
    } else {
      assert xs[1..] == [];
    }
  }

  ghost predicate Run(s: State, es: seq<Event>, a: nat, delay: nat, request: nat)
    decreases |es|
  {
    es != [] ==> Enabled(s, es[0], a, delay, request) && Run(Step(s, es[0], a), es[1..], a, delay, request)
  }

  /** Each word sent is the last one with the bits of its operation changed. */
  predicate NothingLost(s: State, es: seq<Event>, a: nat)
    requires s.history != []
    decreases |es|
  {
    es != [] ==>
      && (es[0].Bit? ==> SentWord(s, es[0], a) == Apply(es[0].op, Latest(s)))
      && NothingLost(Step(s, es[0], a), es[1..], a)
  }

  /** The unit set its word long ago and nothing is pinned. */
  predicate Quiet(s: State, delay: nat) {
    |s.history| == 1 && s.register.pin.None? && s.history[0].time + delay <= s.clock
  }

  ghost predicate NeverLoses(a: nat, delay: nat, request: nat) {
    forall s, es :: Quiet(s, delay) && Run(s, es, a, delay, request) ==> NothingLost(s, es, a)
  }

  /** The pin keeps the latest word, or the unit has set it. */
  predicate Kept(s: State, delay: nat) {
    s.history != [] &&
    var last := s.history[|s.history| - 1];
    last.time <= s.clock &&
    match s.register.pin
    case Some(p) => p.value == last.word && p.until >= last.time + REREAD_DELAY
    case None => last.time + delay <= s.clock
  }

  lemma SettledRead(s: State, delay: nat, served: Time, w: Word)
    requires s.history != [] && CanRead(s.history, delay, served, w)
    requires s.history[|s.history| - 1].time + delay <= served
    ensures w == Latest(s)
  {
  }

  lemma StepKeeps(s: State, e: Event, a: nat, delay: nat, request: nat)
    requires Kept(s, delay) && Enabled(s, e, a, delay, request) && (delay == 0 || delay + request <= REREAD_DELAY)
    ensures Kept(Step(s, e, a), delay)
    ensures e.Bit? ==> SentWord(s, e, a) == Apply(e.op, Latest(s))
  {
    var last := s.history[|s.history| - 1];
    if e.Bit? || e.Read? {
      if s.register.pin.None? || s.register.pin.value.until <= e.answered {
        SettledRead(s, delay, e.served, if e.Bit? then e.reply else e.words[a - e.index]);
      }
    }
  }

  lemma {:induction false} RunKeeps(s: State, es: seq<Event>, a: nat, delay: nat, request: nat)
    requires Kept(s, delay) && Run(s, es, a, delay, request) && (delay == 0 || delay + request <= REREAD_DELAY)
    ensures NothingLost(s, es, a)
    decreases |es|
  {
    if es != [] {
      StepKeeps(s, es[0], a, delay, request);
      RunKeeps(Step(s, es[0], a), es[1..], a, delay, request);
    }
  }

  /** Two writes of different bits: the second read is served just before the unit sets the first word, and answered
      when its pin has expired. */
  lemma SlowUnitLosesBit(a: nat, delay: nat, request: nat) returns (s: State, es: seq<Event>)
    requires delay > 0 && delay + request > REREAD_DELAY
    ensures Quiet(s, delay) && Run(s, es, a, delay, request) && !NothingLost(s, es, a)
  {
    var long: int := 0 - delay;
    s := State(PlainCaches.Register(None, None), [Sent(0, long)], 0);
    var e := Bit(BitOp(1, true), 0, 0, 0, 0, 0);
    var f := Bit(BitOp(2, true), delay - 1, delay - 1 + request, 0, delay - 1 + request, delay - 1 + request);
    es := [e, f];
    assert s.history[0].word == 0;
    assert Enabled(s, e, a, delay, request);
    var t := Step(s, e, a);
    assert SentWord(s, e, a) == 1;
    assert t == State(PlainCaches.Register(Some(1), Some(Pin(1, REREAD_DELAY))), [Sent(0, long), Sent(1, 0)], 0);
    assert t.history[0].word == 0;
    assert CanRead(t.history, delay, delay - 1, 0);
    assert Enabled(t, f, a, delay, request);
    assert Current(t.register, a, 0, f.answered) == Some(0);
    assert SentWord(t, f, a) == 2 && Apply(f.op, Latest(t)) == 3;
    assert es[1..] == [f] && [f][1..] == [];
    assert Run(Step(t, f, a), [], a, delay, request);
    assert Run(t, [f], a, delay, request);
    assert !NothingLost(t, [f], a);
  }

  /** No bit is lost, in any run with scans in between, exactly when the unit sets its registers at once or its delay
      and one request fit in the time the written registers are kept. */
  lemma NoLostBitsExactly(a: nat, delay: nat, request: nat)
    ensures NeverLoses(a, delay, request) <==> delay == 0 || delay + request <= REREAD_DELAY
  {
    if delay == 0 || delay + request <= REREAD_DELAY {
      forall s, es | Quiet(s, delay) && Run(s, es, a, delay, request) ensures NothingLost(s, es, a) {
        RunKeeps(s, es, a, delay, request);
      }
    } else {
      var s, es := SlowUnitLosesBit(a, delay, request);
    }
  }

  // ---- the register is the fold of the operations ----

  function Fold(w: Word, es: seq<Event>): Word
    decreases |es|
  {
    if es == [] then w else Fold(if es[0].Bit? then Apply(es[0].op, w) else w, es[1..])
  }

  function After(s: State, es: seq<Event>, a: nat): State
    decreases |es|
  {
    if es == [] then s else After(Step(s, es[0], a), es[1..], a)
  }

  lemma {:induction false} LatestIsFold(s: State, es: seq<Event>, a: nat)
    requires s.history != [] && NothingLost(s, es, a)
    ensures After(s, es, a).history != [] && Latest(After(s, es, a)) == Fold(Latest(s), es)
    decreases |es|
  {
    if es != [] {
      LatestIsFold(Step(s, es[0], a), es[1..], a);
    }
  }

  /** Every word of the unit is the fold of all operations so far. */
  lemma EveryWordIsFold(s: State, es: seq<Event>, a: nat, delay: nat, request: nat)
    requires Quiet(s, delay) && Run(s, es, a, delay, request) && (delay == 0 || delay + request <= REREAD_DELAY)
    ensures After(s, es, a).history != [] && Latest(After(s, es, a)) == Fold(s.history[0].word, es)
  {
    RunKeeps(s, es, a, delay, request);
    LatestIsFold(s, es, a);
  }

  // ---- each bit is what its last operation made it ----

  /** The value given to the bit by the last operation whose mask has it. */
  function LastValue(es: seq<Event>, b: Word): Option<bool> {
    if es == [] then None
    else
      var later := LastValue(es[1..], b);
      if later.None? && es[0].Bit? && es[0].op.mask & b != 0 then Some(es[0].op.on) else later
  }

  lemma {:induction false} FoldOfBit(w: Word, es: seq<Event>, b: Word)
    requires IsBit(b)
    ensures Fold(w, es) & b == match LastValue(es, b) case None => w & b case Some(on) => if on then b else 0
    decreases |es|
  {
    if es != [] {
      if es[0].Bit? {
        AppliedBit(es[0].op, w, b);
        FoldOfBit(Apply(es[0].op, w), es[1..], b);
      } else {
        FoldOfBit(w, es[1..], b);
      }
    }
  }

  /** On a unit which is fast enough, after any run every bit of its register has the value of the last operation whose
      mask has it, or its first value if there was none. */
  lemma BitsAreAsWritten(s: State, es: seq<Event>, a: nat, delay: nat, request: nat, b: Word)
    requires Quiet(s, delay) && Run(s, es, a, delay, request) && (delay == 0 || delay + request <= REREAD_DELAY)
    requires IsBit(b)
    ensures After(s, es, a).history != []
    ensures Latest(After(s, es, a)) & b ==
            match LastValue(es, b) case None => s.history[0].word & b case Some(on) => if on then b else 0
  {
    EveryWordIsFold(s, es, a, delay, request);
    FoldOfBit(s.history[0].word, es, b);
  }

  /** Out of the blocks nothing is kept: the word of a slow unit goes back without the bit just written. */
  lemma OutOfBlocksLosesBit(c: Cache, index: nat, now: Time)
    requires c.Valid() && Plain(c.groups, index).None?
    ensures BitWordOfSlowUnit(c, index, now) != Apply(BitOp(2, true), Apply(BitOp(1, true), 0))
  {
    BitWordOfRegister(c, BitOp(2, true), index, 0, now);
  }

  /** The word sent for the second bit when the unit still returns the register from before the first one. */
  ghost function BitWordOfSlowUnit(c: Cache, index: nat, now: Time): Word
    requires c.Valid()
  {
    BitWordOfRegister(c, BitOp(2, true), index, 0, now);
    BitWord(c, BitOp(2, true), index, 0, now)
  }
}
