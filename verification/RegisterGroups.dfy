/** A block of cached registers with the pins of its written registers, src/evok/modbus/cache.py. */
module RegisterGroups {
  import opened Common

  type Word = bv16
  type Time = int   // time.monotonic()

  const MAX_READ_COUNT := 125

  datatype Pin = Pin(value: Word, until: Time)

  datatype Group = Group(
    address: nat,
    count: nat,
    divider: nat,
    counter: nat,
    values: seq<Option<Word>>,
    pins: map<nat, Pin>)
  {
    /** What _make_group() and the methods of the group keep; a block fits one read request and the address space. */
    ghost predicate Valid() {
      && 1 <= count <= MAX_READ_COUNT && address + count <= 0x10000
      && |values| == count
      && counter < divider
      && forall a :: a in pins ==> Has(a, 1)
    }

    predicate Has(a: nat, n: nat) {
      address <= a && a + n <= address + count
    }

    function At(a: nat): Option<Word>
      requires |values| == count && Has(a, 1)
    {
      values[a - address]
    }
  }

  predicate Covers(start: nat, n: nat, a: nat) {
    start <= a < start + n
  }

  predicate Keeps(g: Group, a: nat, now: Time) {
    a in g.pins && g.pins[a].until > now
  }

  /** The value of a register after update(): an unexpired pin wins over a read, else the new value if it is given. */
  function Updated(g: Group, start: nat, words: seq<Word>, read: bool, now: Time, a: nat): Option<Word>
    requires |g.values| == g.count && g.Has(a, 1)
  {
    if read && Keeps(g, a, now) then Some(g.pins[a].value)
    else if Covers(start, |words|, a) then Some(words[a - start])
    else g.At(a)
  }

  /** The pins after update(): a read drops the expired pins of the registers it returned. */
  function KeptPins(g: Group, start: nat, words: seq<Word>, read: bool, now: Time): map<nat, Pin> {
    map a | a in g.pins && !(read && g.pins[a].until <= now && Covers(start, |words|, a)) :: g.pins[a]
  }

  /** The pins while a read drops the expired ones, the ones of `rest` are still to be looked at. */
  function PartlyKept(g: Group, start: nat, words: seq<Word>, now: Time, rest: set<nat>): map<nat, Pin> {
    map a | a in g.pins && (a in rest || !(g.pins[a].until <= now && Covers(start, |words|, a))) :: g.pins[a]
  }

  /** The value of a register while the pins are put back. */
  function PartlyUpdated(g: Group, start: nat, words: seq<Word>, now: Time, rest: set<nat>, a: nat): Option<Word>
    requires |g.values| == g.count && g.Has(a, 1)
  {
    Updated(g, start, words, a !in rest, now, a)
  }

  function Update(g: Group, start: nat, words: seq<Word>, read: bool, now: Time): (r: Group)
    requires g.Valid()
    ensures r.Valid()
  {
    g.(values := seq(g.count, i requires 0 <= i < g.count => Updated(g, start, words, read, now, g.address + i)),
    pins := KeptPins(g, start, words, read, now))
  }

  function PinRegister(g: Group, a: nat, value: Word, until: Time): Group {
    if g.Has(a, 1) then g.(pins := g.pins[a := Pin(value, until)]) else g
  }

  function Unpin(g: Group, index: nat, n: nat): Group {
    g.(pins := map a | a in g.pins && !Covers(index, n, a) :: g.pins[a])
  }

  function Renew(g: Group, registers: set<nat>, until: Time): Group {
    g.(pins := map a | a in g.pins :: if a in registers then Pin(g.pins[a].value, until) else g.pins[a])
  }

  predicate PinExpired(g: Group, now: Time) {
    exists a :: a in g.pins && g.pins[a].until <= now
  }

  function Tick(g: Group): Group {
    g.(counter := if g.counter > 0 then g.counter - 1 else if g.divider > 0 then g.divider - 1 else 0)
  }

  class RegisterGroup {
    const address: nat
    const count: nat
    const divider: nat
    var counter: nat
    var values: seq<Option<Word>>
    var pins: map<nat, Pin>

    ghost function View(): Group
      reads this
    {
      Group(address, count, divider, counter, values, pins)
    }

    constructor (address: nat, count: nat, divider: nat)
      requires 1 <= count <= MAX_READ_COUNT && address + count <= 0x10000 && divider >= 1
      ensures View() == Group(address, count, divider, 0, seq(count, _ => None), map[])
      ensures View().Valid()
    {
      this.address, this.count, this.divider := address, count, divider;
      counter := 0;
      values := seq(count, _ => None);
      pins := map[];
    }

    /** update(): `now` is the time of the call. */
    method DoUpdate(start: nat, words: seq<Word>, read: bool, now: Time)
      requires View().Valid()
      modifies this`values, this`pins
      ensures View() == Update(old(View()), start, words, read, now)
    {
      ghost var g := View();
      StoreWords(start, words);
      if read {
        ApplyPins(start, words, now, g);
      }
      forall k | 0 <= k < count ensures values[k] == Updated(g, start, words, read, now, address + k) {
      }
      assert values == Update(g, start, words, read, now).values;
      assert pins == KeptPins(g, start, words, read, now);
    }

    method StoreWords(start: nat, words: seq<Word>)
      requires View().Valid()
      modifies this`values
      ensures |values| == count
      ensures forall k :: 0 <= k < count ==> values[k] == Stored(old(values), start, words, k)
    {
      for i := 0 to |words|
        invariant |values| == count
        invariant forall k :: 0 <= k < count ==> values[k] == Stored(old(values), start, words[..i], k)
      {
        if address <= start + i < address + count {
          values := values[start + i - address := Some(words[i])];
        }
      }
      assert words[..|words|] == words;
    }

    function Stored(before: seq<Option<Word>>, start: nat, words: seq<Word>, k: nat): Option<Word>
      requires k < |before|
    {
      if Covers(start, |words|, address + k) then Some(words[address + k - start]) else before[k]
    }

    /** After the words of a read are stored: the pinned values are put back, the expired pins of the read dropped. */
    method ApplyPins(start: nat, words: seq<Word>, now: Time, ghost g: Group)
      requires g.Valid() && g.address == address && g.count == count && pins == g.pins && |values| == count
      requires forall k :: 0 <= k < count ==> values[k] == Stored(g.values, start, words, k)
      modifies this`values, this`pins
      ensures |values| == count && pins == KeptPins(g, start, words, true, now)
      ensures forall k :: 0 <= k < count ==> values[k] == Updated(g, start, words, true, now, address + k)
    {
      var rest := pins.Keys;
      while rest != {}
        invariant rest <= g.pins.Keys && |values| == count
        invariant forall k :: 0 <= k < count ==> values[k] == PartlyUpdated(g, start, words, now, rest, address + k)
        invariant pins == PartlyKept(g, start, words, now, rest)
        decreases |rest|
      {
        var a :| a in rest;
        assert g.Has(a, 1);
        ApplyPin(a, start, |words|, now);
        rest := rest - {a};
      }
    }

    method ApplyPin(a: nat, start: nat, n: nat, now: Time)
      requires a in pins && address <= a < address + count == address + |values|
      modifies this`values, this`pins
      ensures values == if old(Keeps(View(), a, now)) then old(values)[a - address := Some(old(pins)[a].value)]
                        else old(values)
      ensures pins == if old(Keeps(View(), a, now)) || !Covers(start, n, a) then old(pins) else old(pins) - {a}
    {
      if pins[a].until > now {
        values := values[a - address := Some(pins[a].value)];
      } else if start <= a < start + n {
        pins := pins - {a};
      }
    }

    method DoPin(a: nat, value: Word, until: Time)
      modifies this`pins
      ensures View() == PinRegister(old(View()), a, value, until)
    {
      if address <= a && a + 1 <= address + count {
        pins := pins[a := Pin(value, until)];
      }
    }

    method IsPinExpired(now: Time) returns (r: bool)
      ensures r == PinExpired(View(), now)
    {
      var rest := pins.Keys;
      while rest != {}
        invariant rest <= pins.Keys
        invariant forall a :: a in pins && a !in rest ==> pins[a].until > now
        decreases |rest|
      {
        var a :| a in rest;
        if pins[a].until <= now {
          return true;
        }
        rest := rest - {a};
      }
      return false;
    }

    method DoUnpin(index: nat, n: nat)
      modifies this`pins
      ensures View() == Unpin(old(View()), index, n)
    {
      ghost var g := View();
      for i := 0 to n
        invariant pins == Unpin(g, index, i).pins
      {
        pins := pins - {index + i};
      }
    }

    method DoRenew(registers: set<nat>, until: Time)
      modifies this`pins
      ensures View() == Renew(old(View()), registers, until)
    {
      pins := map a | a in pins :: if a in registers then Pin(pins[a].value, until) else pins[a];
    }

    method DoTick()
      requires divider > 0
      modifies this`counter
      ensures View() == Tick(old(View()))
    {
      counter := if counter == 0 then divider - 1 else counter - 1;
    }
  }
}
