/** The register blocks refine a plain map from addresses to registers: every operation on the lists of blocks is an
    operation on each register by itself. One kind of registers (holding or input) at a time. */
module PlainCaches {
  import opened Common
  import opened RegisterGroups
  import opened RegisterCaches

  /** A register of the plain map: its cached value, None before the first read, and its pin. */
  datatype Register = Register(value: Option<Word>, pin: Option<Pin>)

  function RegisterOf(g: Group, a: nat): Register
    requires |g.values| == g.count && g.Has(a, 1)
  {
    Register(g.At(a), if a in g.pins then Some(g.pins[a]) else None)
  }

  /** The plain map: None is an address out of the blocks. */
  function Plain(gs: seq<Group>, a: nat): Option<Register>
    requires SoundGroups(gs)
  {
    match Find(gs, a, 1)
    case None => None
    case Some(i) => assert gs[i].Valid(); Some(RegisterOf(gs[i], a))
  }

  lemma OnlyOneBlock(gs: seq<Group>, i: nat, j: nat, a: nat)
    requires Disjoint(gs) && i < |gs| && j < |gs| && gs[i].Has(a, 1) && gs[j].Has(a, 1)
    ensures i == j
  {
    assert Overlaps(gs[i], gs[j]) && Overlaps(gs[j], gs[i]);
  }

  /** The map has what the block of the address has, wherever the block stands in the list. */
  lemma PlainOfBlock(gs: seq<Group>, i: nat, a: nat)
    requires SoundGroups(gs) && Disjoint(gs) && i < |gs| && gs[i].Has(a, 1)
    ensures gs[i].Valid() && Plain(gs, a) == Some(RegisterOf(gs[i], a))
  {
    assert gs[i].Valid();
    OnlyOneBlock(gs, i, Find(gs, a, 1).value, a);
  }

  /** The order of the blocks does not matter. */
  lemma OrderDoesNotMatter(gs: seq<Group>, hs: seq<Group>, a: nat)
    requires SoundGroups(gs) && Disjoint(gs) && SoundGroups(hs) && Disjoint(hs)
    requires forall g :: g in gs <==> g in hs
    ensures Plain(gs, a) == Plain(hs, a)
  {
    assert forall j :: 0 <= j < |hs| ==> hs[j] in gs;
    if Find(gs, a, 1).Some? {
      var g := gs[Find(gs, a, 1).value];
      assert g in hs;
      var j :| 0 <= j < |hs| && hs[j] == g;
      PlainOfBlock(hs, j, a);
    }
  }

  // ---- the operations on one register ----

  function Stored(r: Register, a: nat, index: nat, words: seq<Word>): Register {
    if Covers(index, |words|, a) then r.(value := Some(words[a - index])) else r
  }

  /** A read of the range: an unexpired pin wins, an expired pin of the range goes. */
  function ReadBack(r: Register, a: nat, index: nat, words: seq<Word>, now: Time): Register {
    if r.pin.Some? && r.pin.value.until > now then r.(value := Some(r.pin.value.value))
    else if Covers(index, |words|, a) then Register(Some(words[a - index]), None)
    else r
  }

  function Pinned(r: Register, a: nat, index: nat, words: seq<Word>, until: Time): Register {
    if Covers(index, |words|, a) then r.(pin := Some(Pin(words[a - index], until))) else r
  }

  function Unpinned(r: Register, a: nat, index: nat, n: nat): Register {
    if Covers(index, n, a) then r.(pin := None) else r
  }

  function Renewed(r: Register, a: nat, registers: set<nat>, until: Time): Register {
    if a in registers && r.pin.Some? then r.(pin := Some(r.pin.value.(until := until))) else r
  }

  // ---- the blocks refine the map ----

  /** Lists of blocks at the same addresses. */
  predicate SameShape(gs: seq<Group>, hs: seq<Group>) {
    |gs| == |hs| &&
    forall i :: 0 <= i < |gs| ==>
      hs[i].address == gs[i].address && hs[i].count == gs[i].count && hs[i].divider == gs[i].divider
  }

  lemma {:induction false} SameShapeFinds(gs: seq<Group>, hs: seq<Group>, a: nat, n: nat)
    requires SameShape(gs, hs)
    ensures Find(gs, a, n) == Find(hs, a, n)
    decreases |gs|
  {
    if gs != [] && !gs[0].Has(a, n) {
      SameShapeFinds(gs[1..], hs[1..], a, n);
    }
  }

  lemma SameShapeStaysDisjoint(gs: seq<Group>, hs: seq<Group>)
    requires SameShape(gs, hs) && Disjoint(gs)
    ensures Disjoint(hs)
  {
    forall i, j | 0 <= i < j < |hs| ensures !Overlaps(hs[i], hs[j]) {
      assert !Overlaps(gs[i], gs[j]);
    }
  }

  lemma UpdateRefines(g: Group, index: nat, words: seq<Word>, read: bool, now: Time, a: nat)
    requires g.Valid() && g.Has(a, 1)
    ensures RegisterOf(Update(g, index, words, read, now), a) ==
            if read then ReadBack(RegisterOf(g, a), a, index, words, now) else Stored(RegisterOf(g, a), a, index, words)
  {
    var u := Update(g, index, words, read, now);
    assert g.address + (a - g.address) == a;
    assert u.At(a) == Updated(g, index, words, read, now, a);
    assert a in u.pins <==> a in KeptPins(g, index, words, read, now);
  }

  lemma StoreRefines(gs: seq<Group>, index: nat, words: seq<Word>, now: Time, a: nat)
    requires SoundGroups(gs)
    ensures SoundGroups(SetRegister(gs, index, words, false, now)) &&
            SameShape(gs, SetRegister(gs, index, words, false, now))
    ensures Plain(SetRegister(gs, index, words, false, now), a) ==
            match Plain(gs, a) case None => None case Some(r) => Some(Stored(r, a, index, words))
  {
    SameShapeFinds(gs, SetRegister(gs, index, words, false, now), a, 1);
    if Find(gs, a, 1).Some? {
      UpdateRefines(gs[Find(gs, a, 1).value], index, words, false, now, a);
    }
  }

  lemma PartialReadRefines(gs: seq<Group>, index: nat, words: seq<Word>, now: Time, a: nat)
    requires SoundGroups(gs)
    ensures SoundGroups(SetRegister(gs, index, words, true, now)) &&
            SameShape(gs, SetRegister(gs, index, words, true, now))
    ensures Plain(SetRegister(gs, index, words, true, now), a) ==
            match Plain(gs, a) case None => None case Some(r) => Some(ReadBack(r, a, index, words, now))
  {
    SameShapeFinds(gs, SetRegister(gs, index, words, true, now), a, 1);
    if Find(gs, a, 1).Some? {
      UpdateRefines(gs[Find(gs, a, 1).value], index, words, true, now, a);
    }
  }

  function BlockRead(gs: seq<Group>, k: nat, words: seq<Word>, now: Time): seq<Group>
    requires SoundGroups(gs) && k < |gs|
  {
    gs[k := Update(gs[k], gs[k].address, words, true, now)]
  }

  lemma BlockReadRefines(gs: seq<Group>, k: nat, words: seq<Word>, now: Time, a: nat)
    requires SoundGroups(gs) && Disjoint(gs) && k < |gs|
    ensures SoundGroups(BlockRead(gs, k, words, now)) && SameShape(gs, BlockRead(gs, k, words, now))
    ensures Plain(BlockRead(gs, k, words, now), a) ==
            match Plain(gs, a)
            case None => None
            case Some(r) => Some(if gs[k].Has(a, 1) then ReadBack(r, a, gs[k].address, words, now) else r)
  {
    SameShapeFinds(gs, BlockRead(gs, k, words, now), a, 1);
    if Find(gs, a, 1).Some? && gs[k].Has(a, 1) {
      OnlyOneBlock(gs, k, Find(gs, a, 1).value, a);
      UpdateRefines(gs[k], gs[k].address, words, true, now, a);
    }
  }

  lemma {:induction false} PinEachIs(g: Group, index: nat, words: seq<Word>, until: Time, a: nat)
    requires g.Valid()
    ensures var r := PinEach(g, index, words, until);
            r.Valid() && r == g.(pins := r.pins) &&
            (g.Has(a, 1) ==> RegisterOf(r, a) == Pinned(RegisterOf(g, a), a, index, words, until))
    decreases |words|
  {
    if words != [] {
      PinEachIs(PinRegister(g, index, words[0], until), index + 1, words[1..], until, a);
    }
  }

  lemma PinRefines(gs: seq<Group>, index: nat, words: seq<Word>, until: Time, a: nat)
    requires SoundGroups(gs)
    ensures SoundGroups(PinAll(gs, index, words, until)) && SameShape(gs, PinAll(gs, index, words, until))
    ensures Plain(PinAll(gs, index, words, until), a) ==
            match Plain(gs, a) case None => None case Some(r) => Some(Pinned(r, a, index, words, until))
  {
    forall i | 0 <= i < |gs| {
      PinEachIs(gs[i], index, words, until, a);
    }
    SameShapeFinds(gs, PinAll(gs, index, words, until), a, 1);
  }

  lemma UnpinRefines(gs: seq<Group>, index: nat, n: nat, a: nat)
    requires SoundGroups(gs)
    ensures SoundGroups(UnpinAll(gs, index, n)) && SameShape(gs, UnpinAll(gs, index, n))
    ensures Plain(UnpinAll(gs, index, n), a) ==
            match Plain(gs, a) case None => None case Some(r) => Some(Unpinned(r, a, index, n))
  {
    SameShapeFinds(gs, UnpinAll(gs, index, n), a, 1);
  }

  lemma RenewRefines(gs: seq<Group>, registers: set<nat>, until: Time, a: nat)
    requires SoundGroups(gs)
    ensures SoundGroups(RenewAll(gs, registers, until)) && SameShape(gs, RenewAll(gs, registers, until))
    ensures Plain(RenewAll(gs, registers, until), a) ==
            match Plain(gs, a) case None => None case Some(r) => Some(Renewed(r, a, registers, until))
  {
    SameShapeFinds(gs, RenewAll(gs, registers, until), a, 1);
  }

  lemma ClearPinsRefines(gs: seq<Group>, a: nat)
    requires SoundGroups(gs)
    ensures SoundGroups(ClearAllPins(gs)) && SameShape(gs, ClearAllPins(gs))
    ensures Plain(ClearAllPins(gs), a) == match Plain(gs, a) case None => None case Some(r) => Some(r.(pin := None))
  {
    SameShapeFinds(gs, ClearAllPins(gs), a, 1);
  }

  lemma TicksDoNotMatter(gs: seq<Group>, a: nat)
    requires SoundGroups(gs)
    ensures SameShape(gs, TickAll(gs)) && Plain(TickAll(gs), a) == Plain(gs, a)
  {
    SameShapeFinds(gs, TickAll(gs), a, 1);
  }

  lemma ClearedCountersDoNotMatter(gs: seq<Group>, a: nat)
    requires SoundGroups(gs)
    ensures SameShape(gs, ClearCounters(gs)) && Plain(ClearCounters(gs), a) == Plain(gs, a)
  {
    SameShapeFinds(gs, ClearCounters(gs), a, 1);
  }

  // ---- the lookups ----

  predicate KnownAt(gs: seq<Group>, a: nat)
    requires SoundGroups(gs)
  {
    Plain(gs, a).Some? && Plain(gs, a).value.value.Some?
  }

  predicate InOneBlock(gs: seq<Group>, index: nat, n: nat) {
    exists i :: 0 <= i < |gs| && gs[i].Has(index, n)
  }

  /** A lookup succeeds exactly when the range lies in one block and all its registers are known; it returns the values
      of the map. */
  lemma LookupRefines(gs: seq<Group>, index: nat, n: nat)
    requires SoundGroups(gs) && Disjoint(gs)
    ensures GetRegister(gs, index, n).UnknownRegister? <==> !InOneBlock(gs, index, n)
    ensures GetRegister(gs, index, n).Words? <==>
            InOneBlock(gs, index, n) && forall a: nat :: index <= a < index + n ==> KnownAt(gs, a)
    ensures GetRegister(gs, index, n).Words? ==>
              |GetRegister(gs, index, n).words| == n &&
              forall a: nat :: index <= a < index + n ==>
                Plain(gs, a).value.value == Some(GetRegister(gs, index, n).words[a - index])
  {
    if Find(gs, index, n).Some? {
      var i := Find(gs, index, n).value;
      var g := gs[i];
      var slice := g.values[index - g.address..index - g.address + n];
      forall a: nat | index <= a < index + n
        ensures Plain(gs, a).Some? && Plain(gs, a).value.value == slice[a - index]
      {
        PlainOfBlock(gs, i, a);
      }
      SliceKnown(gs, index, n, slice);
    }
  }

  lemma SliceKnown(gs: seq<Group>, index: nat, n: nat, slice: seq<Option<Word>>)
    requires SoundGroups(gs) && |slice| == n
    requires forall a: nat :: index <= a < index + n ==>
             Plain(gs, a).Some? && Plain(gs, a).value.value == slice[a - index]
    ensures Known(slice).Some? <==> forall a: nat :: index <= a < index + n ==> KnownAt(gs, a)
  {
    if Known(slice).None? {
      var k :| 0 <= k < n && slice[k].None?;
      assert !KnownAt(gs, index + k);
    }
  }
}
