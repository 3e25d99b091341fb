/** The register blocks of a unit, src/evok/modbus/cache.py. */
module RegisterCaches {
  import opened Common
  import opened RegisterGroups

  // ---- the blocks of a hardware definition ----

  /** A field of a block: missing, an integer, or something else (a text, a flag). */
  datatype Field = Missing | Number(n: int) | Other

  datatype Kind = Holding | Input | Unknown

  datatype Block = Block(start: Field, count: Field, divider: Field, frequency: Field, kind: Kind)

  predicate AtLeast(f: Field, minimum: int) {
    f.Number? && f.n >= minimum
  }

  /** _make_group(); None is its ValueError. The divider may be given by its old name, not by both. */
  function MakeGroup(b: Block): (r: Option<Group>)
    ensures r.Some? ==> r.value.Valid()
  {
    var divider := if b.frequency.Missing? then b.divider else b.frequency;
    if !b.frequency.Missing? && !b.divider.Missing? then None
    else if b.kind.Unknown? then None
    else if !AtLeast(b.start, 0) || !AtLeast(b.count, 1) || !AtLeast(divider, 1) then None
    else if b.count.n > MAX_READ_COUNT || b.start.n + b.count.n > 0x10000 then None
    else Some(Group(b.start.n, b.count.n, divider.n, 0, seq(b.count.n, _ => None), map[]))
  }

  /** Exactly one of the names of the divider is given. */
  predicate HasDivider(b: Block, n: int) {
    (b.divider == Number(n) && b.frequency.Missing?) || (b.frequency == Number(n) && b.divider.Missing?)
  }

  /** A definition is accepted exactly with these numbers, and gives an unread block with them. */
  lemma MadeGroup(b: Block)
    ensures MakeGroup(b).Some? <==>
            !b.kind.Unknown? &&
            exists n, start, count ::
              HasDivider(b, n) && n >= 1 && b.start == Number(start) && b.count == Number(count) &&
              0 <= start && 1 <= count <= MAX_READ_COUNT && start + count <= 0x10000
    ensures MakeGroup(b).Some? ==>
              var g := MakeGroup(b).value;
              && b.start == Number(g.address) && b.count == Number(g.count) && HasDivider(b, g.divider)
              && g.counter == 0 && g.pins == map[] && forall v :: v in g.values ==> v == None
  {
    if MakeGroup(b).Some? {
      var g := MakeGroup(b).value;
      assert HasDivider(b, g.divider) && b.start == Number(g.address) && b.count == Number(g.count);
    }
  }

  predicate Overlaps(g: Group, h: Group) {
    g.address < h.address + h.count && h.address < g.address + g.count
  }

  ghost predicate SoundGroups(gs: seq<Group>) {
    forall i :: 0 <= i < |gs| ==> gs[i].Valid()
  }

  ghost predicate Disjoint(gs: seq<Group>) {
    (forall i, j :: 0 <= i < j < |gs| ==> !Overlaps(gs[i], gs[j]))
  }

  datatype Cache = Cache(groups: seq<Group>, igroups: seq<Group>, failed: bool, lastComm: Option<Time>)
  {
    ghost predicate Sound() {
      SoundGroups(groups) && SoundGroups(igroups)
    }

    /** What the constructor establishes. */
    ghost predicate Valid() {
      Sound() && Disjoint(groups) && Disjoint(igroups)
    }

    function Of(isInput: bool): seq<Group> {
      if isInput then igroups else groups
    }
  }

  predicate FitsBeside(gs: seq<Group>, g: Group) {
    forall i :: 0 <= i < |gs| ==> !Overlaps(g, gs[i])
  }

  /** A block added to the map; None is the ValueError of an invalid block or of one which overlaps another of its
      kind. */
  function WithBlock(c: Cache, b: Block): (r: Option<Cache>)
    requires c.Valid()
    ensures r.Some? ==> r.value.Valid()
  {
    match MakeGroup(b)
    case None => None
    case Some(g) =>
      if !FitsBeside(c.Of(b.kind.Input?), g) then None
      else if b.kind.Input? then Some(c.(igroups := c.igroups + [g]))
      else Some(c.(groups := c.groups + [g]))
  }

  /** A block is added last to the blocks of its kind, exactly if it has no register of another one of them. */
  lemma BlockIsAdded(c: Cache, b: Block)
    requires c.Valid() && MakeGroup(b).Some?
    ensures var g := MakeGroup(b).value;
            WithBlock(c, b).Some? <==>
            !exists h, a: nat :: h in c.Of(b.kind.Input?) && g.Has(a, 1) && h.Has(a, 1)
    ensures WithBlock(c, b).Some? ==>
              var g, z := MakeGroup(b).value, WithBlock(c, b).value;
              && z.Of(b.kind.Input?) == c.Of(b.kind.Input?) + [g] && z.Of(!b.kind.Input?) == c.Of(!b.kind.Input?)
              && z.failed == c.failed && z.lastComm == c.lastComm
  {
    var g, gs := MakeGroup(b).value, c.Of(b.kind.Input?);
    forall i | 0 <= i < |gs|
      ensures Overlaps(g, gs[i]) <==> exists a: nat :: g.Has(a, 1) && gs[i].Has(a, 1)
    {
      assert gs[i].Valid();
      OverlapIsCommon(g, gs[i]);
    }
  }

  lemma OverlapIsCommon(g: Group, h: Group)
    requires g.Valid() && h.Valid()
    ensures Overlaps(g, h) <==> exists a: nat :: g.Has(a, 1) && h.Has(a, 1)
  {
    var a := if g.address < h.address then h.address else g.address;
    if Overlaps(g, h) {
      assert g.Has(a, 1) && h.Has(a, 1);
    }
  }

  // ---- what is done to the blocks of one kind ----

  function SetRegister(gs: seq<Group>, index: nat, words: seq<Word>, read: bool, now: Time): seq<Group>
    requires SoundGroups(gs)
  {
    seq(|gs|, i requires 0 <= i < |gs| => Update(gs[i], index, words, read, now))
  }

  function PinEach(g: Group, index: nat, words: seq<Word>, until: Time): Group
    decreases |words|
  {
    if words == [] then g else PinEach(PinRegister(g, index, words[0], until), index + 1, words[1..], until)
  }

  function PinAll(gs: seq<Group>, index: nat, words: seq<Word>, until: Time): seq<Group> {
    seq(|gs|, i requires 0 <= i < |gs| => PinEach(gs[i], index, words, until))
  }

  function UnpinAll(gs: seq<Group>, index: nat, n: nat): seq<Group> {
    seq(|gs|, i requires 0 <= i < |gs| => Unpin(gs[i], index, n))
  }

  function OfKind(registers: set<(nat, bool)>, isInput: bool): set<nat> {
    set r | r in registers && r.1 == isInput :: r.0
  }

  function RenewAll(gs: seq<Group>, registers: set<nat>, until: Time): seq<Group> {
    seq(|gs|, i requires 0 <= i < |gs| => Renew(gs[i], registers, until))
  }

  function ClearAllPins(gs: seq<Group>): seq<Group> {
    seq(|gs|, i requires 0 <= i < |gs| => gs[i].(pins := map[]))
  }

  function TickAll(gs: seq<Group>): (r: seq<Group>)
    ensures SoundGroups(gs) ==> SoundGroups(r)
  {
    seq(|gs|, i requires 0 <= i < |gs| => Tick(gs[i]))
  }

  function ClearCounters(gs: seq<Group>): (r: seq<Group>)
    ensures SoundGroups(gs) ==> SoundGroups(r)
  {
    seq(|gs|, i requires 0 <= i < |gs| => gs[i].(counter := 0))
  }

  datatype Lookup = Words(words: seq<Word>) | UnknownRegister | NoCachedValue

  function Known(values: seq<Option<Word>>): (r: Option<seq<Word>>)
    ensures r.Some? <==> forall i :: 0 <= i < |values| ==> values[i].Some?
    ensures r.Some? ==> |r.value| == |values| && forall i :: 0 <= i < |values| ==> values[i] == Some(r.value[i])
  {
    if values == [] then Some([])
    else
      var rest := Known(values[1..]);
      if values[0].Some? && rest.Some? then Some([values[0].value] + rest.value) else None
  }

  /** _find_group(): the place of the first block which has the whole range. */
  function Find(gs: seq<Group>, index: nat, n: nat): (r: Option<nat>)
    ensures r.Some? ==> r.value < |gs| && gs[r.value].Has(index, n)
    ensures r.None? ==> forall i :: 0 <= i < |gs| ==> !gs[i].Has(index, n)
  {
    if gs == [] then None
    else if gs[0].Has(index, n) then Some(0)
    else match Find(gs[1..], index, n) case None => None case Some(i) => Some(i + 1)
  }

  /** get_register() */
  function GetRegister(gs: seq<Group>, index: nat, n: nat): Lookup
    requires SoundGroups(gs)
  {
    match Find(gs, index, n)
    case None => UnknownRegister
    case Some(i) =>
      assert gs[i].Valid();
      match Known(gs[i].values[index - gs[i].address..index - gs[i].address + n])
      case Some(words) => Words(words)
      case None => NoCachedValue
  }

  // ---- the scans ----

  /** Which blocks a scan reads: all, the ones whose turn it is, the ones of a change, or only the first block. */
  datatype Wanted = All | Periodic | Changed(registers: set<(nat, bool)>) | FirstOnly

  predicate Holds(g: Group, isInput: bool, registers: set<(nat, bool)>) {
    exists r :: r in registers && r.1 == isInput && g.Has(r.0, 1)
  }

  predicate Wants(w: Wanted, g: Group, isInput: bool, isFirst: bool, now: Time) {
    match w
    case All => true
    case Periodic => g.counter == 0 || PinExpired(g, now)
    case Changed(registers) => g.divider == 1 || Holds(g, isInput, registers)
    case FirstOnly => isFirst
  }

  /** A block in a scan: when it is asked for, and the time and the words of the response, None is its failure. */
  datatype Visit = Visit(asked: Time, answered: Time, reply: Option<seq<Word>>)

  datatype Reading = Reading(groups: seq<Group>, count: nat, failed: bool)

  /** The loop of _read_groups() over the blocks of one kind, from the k-th one; `first` is the place of the first
      block of the unit, if it is of this kind. */
  function ReadFrom(gs: seq<Group>, k: nat, w: Wanted, isInput: bool, first: Option<nat>,
                    visits: seq<Visit>): (r: Reading)
    requires k <= |gs| == |visits| && SoundGroups(gs)
    ensures |r.groups| == |gs| && SoundGroups(r.groups)
    decreases |gs| - k
  {
    if k == |gs| then Reading(gs, 0, false)
    else if !Wants(w, gs[k], isInput, first == Some(k), visits[k].asked)
    then ReadFrom(gs, k + 1, w, isInput, first, visits)
    else if visits[k].reply.None? then Reading(gs, 0, true)
    else
      var g := Update(gs[k], gs[k].address, visits[k].reply.value, true, visits[k].answered);
      var rest := ReadFrom(gs[k := g], k + 1, w, isInput, first, visits);
      rest.(count := rest.count + 1)
  }

  /** The reading after n blocks read before. */
  function Further(r: Reading, n: nat): Reading {
    r.(count := r.count + n)
  }

  /** What the rest of the loop reads, from the k-th block, or nothing after a failure. */
  ghost predicate LeftIs(left: Reading, gs: seq<Group>, k: nat, w: Wanted, isInput: bool, first: Option<nat>,
                         visits: seq<Visit>, failed: bool)
    requires k <= |gs| == |visits| && SoundGroups(gs)
  {
    left == if failed then Reading(gs, 0, true) else ReadFrom(gs, k, w, isInput, first, visits)
  }

  lemma LeftAtEnd(left: Reading, gs: seq<Group>, k: nat, w: Wanted, isInput: bool, first: Option<nat>,
                  visits: seq<Visit>, failed: bool)
    requires k <= |gs| == |visits| && SoundGroups(gs) && LeftIs(left, gs, k, w, isInput, first, visits, failed)
    requires failed || k == |gs|
    ensures left == Reading(gs, 0, failed)
  {
  }

  /** One block of the loop. */
  lemma ReadFromNext(gs: seq<Group>, k: nat, w: Wanted, isInput: bool, first: Option<nat>, visits: seq<Visit>)
    requires k < |gs| == |visits| && SoundGroups(gs)
    ensures var r := ReadFrom(gs, k, w, isInput, first, visits);
            if !Wants(w, gs[k], isInput, first == Some(k), visits[k].asked)
            then r == ReadFrom(gs, k + 1, w, isInput, first, visits)
            else if visits[k].reply.None? then r == Reading(gs, 0, true)
            else
              var next := gs[k := Update(gs[k], gs[k].address, visits[k].reply.value, true, visits[k].answered)];
              SoundGroups(next) && r == Further(ReadFrom(next, k + 1, w, isInput, first, visits), 1)
  {
  }

  function FirstHolding(c: Cache): Option<nat> {
    if c.groups != [] then Some(0) else None
  }

  function FirstInput(c: Cache): Option<nat> {
    if c.groups == [] && c.igroups != [] then Some(0) else None
  }

  function Concluded(c: Cache, read: nat, bad: bool, now: Time): Cache {
    c.(failed := bad, lastComm := if !bad && read > 0 then Some(now) else c.lastComm)
  }

  function ReadGroups(c: Cache, w: Wanted, visits: seq<Visit>, ivisits: seq<Visit>, now: Time): (r: Cache)
    requires c.Sound() && |visits| == |c.groups| && |ivisits| == |c.igroups|
    ensures r.Sound() && |r.groups| == |c.groups| && |r.igroups| == |c.igroups|
  {
    var h := ReadFrom(c.groups, 0, w, false, FirstHolding(c), visits);
    if h.failed then Concluded(c.(groups := h.groups), h.count, true, now)
    else
      var i := ReadFrom(c.igroups, 0, w, true, FirstInput(c), ivisits);
      Concluded(c.(groups := h.groups, igroups := i.groups), h.count + i.count, i.failed, now)
  }

  function DoScan(c: Cache, initial: bool, all: bool, visits: seq<Visit>, ivisits: seq<Visit>, now: Time): (r: Cache)
    requires c.Sound() && |visits| == |c.groups| && |ivisits| == |c.igroups|
    ensures r.Sound()
  {
    var start := if initial then c.(groups := ClearCounters(c.groups), igroups := ClearCounters(c.igroups)) else c;
    var r := ReadGroups(start, if all then All else Periodic, visits, ivisits, now);
    if r.failed || all then r else r.(groups := TickAll(r.groups), igroups := TickAll(r.igroups))
  }

  /** The blocks read after a change; at least one if the unit has any. */
  function AfterChange(c: Cache, registers: set<(nat, bool)>): Wanted {
    var w := Changed(registers);
    if (exists i :: 0 <= i < |c.groups| && Wants(w, c.groups[i], false, false, 0)) ||
       (exists i :: 0 <= i < |c.igroups| && Wants(w, c.igroups[i], true, false, 0)) then w
    else FirstOnly
  }

  function ReadChanged(c: Cache, registers: set<(nat, bool)>, visits: seq<Visit>, ivisits: seq<Visit>, now: Time): Cache
    requires c.Sound() && |visits| == |c.groups| && |ivisits| == |c.igroups|
  {
    ReadGroups(c, AfterChange(c, registers), visits, ivisits, now)
  }

  // ---- the object ----

  ghost function Views(gs: seq<RegisterGroup>): (r: seq<Group>)
    reads gs
    ensures |r| == |gs| && forall i :: 0 <= i < |gs| ==> r[i] == gs[i].View()
  {
    seq(|gs|, i requires 0 <= i < |gs| reads gs => gs[i].View())
  }

  class ModbusCacheMap {
    var groups: seq<RegisterGroup>
    var igroups: seq<RegisterGroup>
    var failed: bool
    var lastComm: Option<Time>

    ghost function View(): Cache
      reads this, groups, igroups
    {
      Cache(Views(groups), Views(igroups), failed, lastComm)
    }

    ghost predicate Distinct()
      reads this
    {
      && (forall i, j :: 0 <= i < j < |groups| ==> groups[i] != groups[j])
      && (forall i, j :: 0 <= i < j < |igroups| ==> igroups[i] != igroups[j])
      && (forall i, j :: 0 <= i < |groups| && 0 <= j < |igroups| ==> groups[i] != igroups[j])
    }

    ghost predicate Valid()
      reads this, groups, igroups
    {
      Distinct() && View().Sound()
    }

    constructor ()
      ensures Valid() && View() == Cache([], [], false, None) && View().Valid()
      ensures groups == igroups == []
    {
      groups, igroups, failed, lastComm := [], [], false, None;
    }

    /** One block of the register map, an item of the loop of the constructor. */
    method AddBlock(b: Block) returns (ok: bool)
      requires Valid() && View().Valid()
      modifies this`groups, this`igroups
      ensures Valid() && View().Valid()
      ensures ok == WithBlock(old(View()), b).Some?
      ensures View() == if ok then WithBlock(old(View()), b).value else old(View())
      ensures forall g :: g in groups + igroups ==> g in old(groups + igroups) || fresh(g)
    {
      var made := MakeGroup(b);
      if made.None? {
        return false;
      }
      var fits := FitsAmong(made.value, if b.kind.Input? then igroups else groups);
      if !fits {
        return false;
      }
      AppendNew(made.value.address, made.value.count, made.value.divider, b.kind.Input?);
      return true;
    }

    method AppendNew(address: nat, count: nat, divider: nat, isInput: bool)
      requires Distinct() && 1 <= count <= MAX_READ_COUNT && address + count <= 0x10000 && divider >= 1
      modifies this`groups, this`igroups
      ensures Distinct()
      ensures var g := Group(address, count, divider, 0, seq(count, _ => None), map[]);
              View() == if isInput then old(View()).(igroups := old(View()).igroups + [g])
                        else old(View()).(groups := old(View()).groups + [g])
      ensures forall g :: g in groups + igroups ==> g in old(groups + igroups) || fresh(g)
    {
      var group := new RegisterGroup(address, count, divider);
      Append(group, isInput);
    }

    method Append(group: RegisterGroup, isInput: bool)
      requires Distinct() && group !in groups && group !in igroups
      modifies this`groups, this`igroups
      ensures Distinct()
      ensures View() == if isInput then old(View()).(igroups := old(View()).igroups + [group.View()])
                        else old(View()).(groups := old(View()).groups + [group.View()])
      ensures forall g :: g in groups + igroups ==> g in old(groups + igroups) || g == group
    {
      if isInput {
        igroups := igroups + [group];
        assert Views(igroups) == old(Views(igroups)) + [group.View()];
      } else {
        groups := groups + [group];
        assert Views(groups) == old(Views(groups)) + [group.View()];
      }
    }

    method FitsAmong(g: Group, others: seq<RegisterGroup>) returns (r: bool)
      ensures r == FitsBeside(Views(others), g)
    {
      for i := 0 to |others|
        invariant forall k :: 0 <= k < i ==> !Overlaps(g, Views(others)[k])
      {
        if g.address < others[i].address + others[i].count && others[i].address < g.address + g.count {
          assert Overlaps(g, Views(others)[i]);
          return false;
        }
      }
      return true;
    }

    // The blocks of one kind, each changed in place.

    method UpdateAll(gs: seq<RegisterGroup>, index: nat, words: seq<Word>, read: bool, now: Time)
      requires forall i, j :: 0 <= i < j < |gs| ==> gs[i] != gs[j]
      requires forall i :: 0 <= i < |gs| ==> gs[i].View().Valid()
      modifies gs
      ensures Views(gs) == SetRegister(old(Views(gs)), index, words, read, now)
    {
      for i := 0 to |gs|
        invariant forall k :: 0 <= k < i ==> gs[k].View() == Update(old(gs[k].View()), index, words, read, now)
        invariant forall k :: i <= k < |gs| ==> gs[k].View() == old(gs[k].View())
      {
        gs[i].DoUpdate(index, words, read, now);
      }
    }

    method DoSetRegister(index: nat, words: seq<Word>, isInput: bool, read: bool, now: Time)
      requires Valid()
      modifies if isInput then igroups else groups
      ensures Valid()
      ensures View() ==
                        if isInput
                        then old(View()).(igroups := SetRegister(old(View()).igroups, index, words, read, now))
                        else old(View()).(groups := SetRegister(old(View()).groups, index, words, read, now))
    {
      if isInput {
        UpdateAll(igroups, index, words, read, now);
        assert Views(groups) == old(Views(groups));
      } else {
        UpdateAll(groups, index, words, read, now);
        assert Views(igroups) == old(Views(igroups));
      }
    }

    method PinEachGroup(gs: seq<RegisterGroup>, index: nat, words: seq<Word>, until: Time)
      requires forall i, j :: 0 <= i < j < |gs| ==> gs[i] != gs[j]
      modifies gs
      ensures Views(gs) == PinAll(old(Views(gs)), index, words, until)
    {
      for i := 0 to |words|
        invariant forall k :: 0 <= k < |gs| ==>
                    PinEach(gs[k].View(), index + i, words[i..], until) ==
                    PinEach(old(gs[k].View()), index, words, until)
      {
        assert words[i..][1..] == words[i + 1..] && words[i..][0] == words[i];
        label before:
        for j := 0 to |gs|
          invariant forall k :: 0 <= k < j ==>
                      gs[k].View() == PinRegister(old@before(gs[k].View()), index + i, words[i], until)
          invariant forall k :: j <= k < |gs| ==> gs[k].View() == old@before(gs[k].View())
        {
          gs[j].DoPin(index + i, words[i], until);
        }
      }
    }

    method DoPin(index: nat, words: seq<Word>, until: Time, isInput: bool)
      requires Distinct()
      modifies if isInput then igroups else groups
      ensures View() == if isInput then old(View()).(igroups := PinAll(old(View()).igroups, index, words, until))
                        else old(View()).(groups := PinAll(old(View()).groups, index, words, until))
    {
      if isInput {
        PinEachGroup(igroups, index, words, until);
        assert Views(groups) == old(Views(groups));
      } else {
        PinEachGroup(groups, index, words, until);
        assert Views(igroups) == old(Views(igroups));
      }
    }

    method DoUnpin(index: nat, n: nat, isInput: bool)
      requires Distinct()
      modifies if isInput then igroups else groups
      ensures View() == if isInput then old(View()).(igroups := UnpinAll(old(View()).igroups, index, n))
                        else old(View()).(groups := UnpinAll(old(View()).groups, index, n))
    {
      var gs := if isInput then igroups else groups;
      for i := 0 to |gs|
        invariant forall k :: 0 <= k < i ==> gs[k].View() == Unpin(old(gs[k].View()), index, n)
        invariant forall k :: i <= k < |gs| ==> gs[k].View() == old(gs[k].View())
      {
        gs[i].DoUnpin(index, n);
      }
      assert Views(gs) == UnpinAll(old(Views(gs)), index, n);
      assert Views(if isInput then groups else igroups) == old(Views(if isInput then groups else igroups));
    }

    method RenewEach(gs: seq<RegisterGroup>, registers: set<nat>, until: Time)
      requires forall i, j :: 0 <= i < j < |gs| ==> gs[i] != gs[j]
      modifies gs
      ensures Views(gs) == RenewAll(old(Views(gs)), registers, until)
    {
      for i := 0 to |gs|
        invariant forall k :: 0 <= k < i ==> gs[k].View() == Renew(old(gs[k].View()), registers, until)
        invariant forall k :: i <= k < |gs| ==> gs[k].View() == old(gs[k].View())
      {
        gs[i].DoRenew(registers, until);
      }
    }

    method DoRenewPins(registers: set<(nat, bool)>, until: Time)
      requires Distinct()
      modifies groups, igroups
      ensures View() == old(View()).(groups := RenewAll(old(View()).groups, OfKind(registers, false), until),
                        igroups := RenewAll(old(View()).igroups, OfKind(registers, true), until))
    {
      RenewEach(groups, OfKind(registers, false), until);
      assert Views(igroups) == old(Views(igroups));
      label renewed:
      RenewEach(igroups, OfKind(registers, true), until);
      assert Views(groups) == old@renewed(Views(groups));
    }

    method DoClearPins()
      requires Distinct()
      modifies groups, igroups
      ensures View() == old(View()).(groups := ClearAllPins(old(View()).groups),
                        igroups := ClearAllPins(old(View()).igroups))
    {
      var all := groups + igroups;
      for i := 0 to |all|
        invariant forall k :: 0 <= k < i ==> all[k].View() == old(all[k].View()).(pins := map[])
        invariant forall k :: i <= k < |all| ==> all[k].View() == old(all[k].View())
      {
        assert all[i] in groups || all[i] in igroups;
        all[i].pins := map[];
      }
      assert forall k :: 0 <= k < |groups| ==> all[k] == groups[k];
      assert forall k :: 0 <= k < |igroups| ==> all[|groups| + k] == igroups[k];
    }

    method FindBlock(gs: seq<RegisterGroup>, index: nat, n: nat) returns (r: Option<nat>)
      ensures r == Find(Views(gs), index, n)
    {
      ghost var all := Views(gs);
      for i := 0 to |gs|
        invariant Find(all, index, n) == match Find(all[i..], index, n) case None => None case Some(k) => Some(k + i)
      {
        assert all[i..][0] == gs[i].View() && all[i..][1..] == all[i + 1..];
        if gs[i].address <= index && index + n <= gs[i].address + gs[i].count {
          return Some(i);
        }
      }
      return None;
    }

    method DoGetRegister(index: nat, n: nat, isInput: bool) returns (r: Lookup)
      requires Valid()
      ensures r == GetRegister(View().Of(isInput), index, n)
    {
      r := GetFrom(if isInput then igroups else groups, index, n);
    }

    method GetFrom(gs: seq<RegisterGroup>, index: nat, n: nat) returns (r: Lookup)
      requires SoundGroups(Views(gs))
      ensures r == GetRegister(Views(gs), index, n)
    {
      var k := FindBlock(gs, index, n);
      if k.None? {
        return UnknownRegister;
      }
      var g := gs[k.value];
      assert Views(gs)[k.value].Valid();
      var known := Known(g.values[index - g.address..index - g.address + n]);
      return if known.Some? then Words(known.value) else NoCachedValue;
    }

    method IsWanted(g: RegisterGroup, w: Wanted, isInput: bool, isFirst: bool, now: Time) returns (r: bool)
      ensures r == Wants(w, g.View(), isInput, isFirst, now)
    {
      match w
      case All => r := true;
      case Periodic =>
        r := g.IsPinExpired(now);
        r := r || g.counter == 0;
      case Changed(registers) =>
        r := g.divider == 1 ||
             exists x :: x in registers && x.1 == isInput && g.address <= x.0 && x.0 + 1 <= g.address + g.count;
      case FirstOnly => r := isFirst;
    }

    /** One block of the loop of _read_groups(). */
    method Visited(gs: seq<RegisterGroup>, k: nat, w: Wanted, isInput: bool, isFirst: bool, visit: Visit)
      returns (wanted: bool, bad: bool)
      requires forall i, j :: 0 <= i < j < |gs| ==> gs[i] != gs[j]
      requires k < |gs| && Views(gs)[k].Valid()
      modifies gs[k]
      ensures wanted == Wants(w, old(Views(gs))[k], isInput, isFirst, visit.asked)
      ensures bad == (wanted && visit.reply.None?)
      ensures Views(gs) ==
              if wanted && !bad
              then old(Views(gs))[k := Update(old(Views(gs))[k], old(Views(gs))[k].address,
                                              visit.reply.value, true, visit.answered)]
              else old(Views(gs))
    {
      wanted := IsWanted(gs[k], w, isInput, isFirst, visit.asked);
      bad := wanted && visit.reply.None?;
      if wanted && !bad {
        gs[k].DoUpdate(gs[k].address, visit.reply.value, true, visit.answered);
      }
    }

    /** The same in terms of what is left of the loop: n is 1 if the block was read. */
    method Next(gs: seq<RegisterGroup>, k: nat, w: Wanted, isInput: bool, first: Option<nat>, visits: seq<Visit>,
                ghost left: Reading) returns (n: nat, bad: bool, ghost after: Reading)
      requires forall i, j :: 0 <= i < j < |gs| ==> gs[i] != gs[j]
      requires k < |gs| == |visits| && SoundGroups(Views(gs)) &&
               LeftIs(left, Views(gs), k, w, isInput, first, visits, false)
      modifies gs[k]
      ensures SoundGroups(Views(gs)) && LeftIs(after, Views(gs), k + 1, w, isInput, first, visits, bad)
      ensures left == Further(after, n)
    {
      ReadFromNext(Views(gs), k, w, isInput, first, visits);
      assert Views(gs)[k].Valid();
      var wanted;
      wanted, bad := Visited(gs, k, w, isInput, first == Some(k), visits[k]);
      n := if wanted && !bad then 1 else 0;
      after := if bad then Reading(Views(gs), 0, true) else ReadFrom(Views(gs), k + 1, w, isInput, first, visits);
    }

    /** The loop of _read_groups() over the blocks of one kind. */
    method ReadKind(gs: seq<RegisterGroup>, w: Wanted, isInput: bool, first: Option<nat>, visits: seq<Visit>)
      returns (count: nat, bad: bool)
      requires forall i, j :: 0 <= i < j < |gs| ==> gs[i] != gs[j]
      requires SoundGroups(Views(gs))
      requires |visits| == |gs|
      modifies gs
      ensures Reading(Views(gs), count, bad) == ReadFrom(old(Views(gs)), 0, w, isInput, first, visits)
    {
      count, bad := 0, false;
      ghost var left := ReadFrom(Views(gs), 0, w, isInput, first, visits);
      ghost var whole := left;
      var k: nat := 0;
      while k < |gs| && !bad
        invariant k <= |gs| && SoundGroups(Views(gs))
        invariant LeftIs(left, Views(gs), k, w, isInput, first, visits, bad)
        invariant whole == Further(left, count)
      {
        var n;
        n, bad, left := Next(gs, k, w, isInput, first, visits, left);
        k, count := k + 1, count + n;
      }
      LeftAtEnd(left, Views(gs), k, w, isInput, first, visits, bad);
    }

    method ReadOf(isInput: bool, w: Wanted, first: Option<nat>, visits: seq<Visit>) returns (count: nat, bad: bool)
      requires Valid() && |visits| == |if isInput then igroups else groups|
      modifies if isInput then igroups else groups
      ensures var r := ReadFrom(old(View()).Of(isInput), 0, w, isInput, first, visits);
              count == r.count && bad == r.failed &&
              View() == if isInput then old(View()).(igroups := r.groups) else old(View()).(groups := r.groups)
      ensures Valid()
    {
      if isInput {
        count, bad := ReadKind(igroups, w, true, first, visits);
        assert Views(groups) == old(Views(groups));
      } else {
        count, bad := ReadKind(groups, w, false, first, visits);
        assert Views(igroups) == old(Views(igroups));
      }
    }

    method Conclude(read: nat, bad: bool, now: Time)
      requires Valid()
      modifies this`failed, this`lastComm
      ensures Valid()
      ensures View() == Concluded(old(View()), read, bad, now)
    {
      if !bad && read > 0 {
        lastComm := Some(now);
      }
      failed := bad;
    }

    method DoReadGroups(w: Wanted, visits: seq<Visit>, ivisits: seq<Visit>, now: Time) returns (ok: bool)
      requires Valid() && |visits| == |groups| && |ivisits| == |igroups|
      modifies this`failed, this`lastComm, groups, igroups
      ensures Valid()
      ensures View() == ReadGroups(old(View()), w, visits, ivisits, now)
      ensures ok == !failed
    {
      ghost var c := View();
      var read, bad := ReadOf(false, w, if groups != [] then Some(0) else None, visits);
      var iread := 0;
      if !bad {
        iread, bad := ReadOf(true, w, if groups == [] && igroups != [] then Some(0) else None, ivisits);
      }
      Conclude(read + iread, bad, now);
      return !bad;
    }

    method SetCounters(gs: seq<RegisterGroup>, clear: bool)
      requires forall i, j :: 0 <= i < j < |gs| ==> gs[i] != gs[j]
      requires forall i :: 0 <= i < |gs| ==> gs[i].View().Valid()
      modifies gs
      ensures Views(gs) == if clear then ClearCounters(old(Views(gs))) else TickAll(old(Views(gs)))
    {
      for i := 0 to |gs|
        invariant forall k :: 0 <= k < i ==>
                    gs[k].View() == if clear then old(gs[k].View()).(counter := 0) else Tick(old(gs[k].View()))
        invariant forall k :: i <= k < |gs| ==> gs[k].View() == old(gs[k].View())
      {
        assert gs[i].View().Valid();
        if clear {
          gs[i].counter := 0;
        } else {
          gs[i].DoTick();
        }
      }
    }

    method SetCountersOf(isInput: bool, clear: bool)
      requires Valid()
      modifies if isInput then igroups else groups
      ensures var r := if clear then ClearCounters(old(View()).Of(isInput)) else TickAll(old(View()).Of(isInput));
              View() == if isInput then old(View()).(igroups := r) else old(View()).(groups := r)
    {
      if isInput {
        SetCounters(igroups, clear);
        assert Views(groups) == old(Views(groups));
      } else {
        SetCounters(groups, clear);
        assert Views(igroups) == old(Views(igroups));
      }
    }

    method SetAllCounters(clear: bool)
      requires Valid()
      modifies groups, igroups
      ensures Valid()
      ensures View() == old(View()).(
                        groups := if clear then ClearCounters(old(View()).groups) else TickAll(old(View()).groups),
                        igroups := if clear then ClearCounters(old(View()).igroups) else TickAll(old(View()).igroups))
    {
      SetCountersOf(false, clear);
      SetCountersOf(true, clear);
    }

    method DoScanNow(initial: bool, all: bool, visits: seq<Visit>, ivisits: seq<Visit>, now: Time) returns (ok: bool)
      requires Valid() && |visits| == |groups| && |ivisits| == |igroups|
      modifies this`failed, this`lastComm, groups, igroups
      ensures Valid()
      ensures View() == DoScan(old(View()), initial, all, visits, ivisits, now)
      ensures ok == !failed
    {
      if initial {
        SetAllCounters(true);
      }
      ok := DoReadGroups(if all then All else Periodic, visits, ivisits, now);
      if ok && !all {
        SetAllCounters(false);
      }
    }

    method DoReadChanged(registers: set<(nat, bool)>, visits: seq<Visit>, ivisits: seq<Visit>, now: Time)
      returns (ok: bool)
      requires Valid() && |visits| == |groups| && |ivisits| == |igroups|
      modifies this`failed, this`lastComm, groups, igroups
      ensures Valid()
      ensures View() == ReadChanged(old(View()), registers, visits, ivisits, now)
      ensures ok == !failed
    {
      var w := Changed(registers);
      var any := AnyWanted(groups, w, false);
      var iany := AnyWanted(igroups, w, true);
      ok := DoReadGroups(if any || iany then w else FirstOnly, visits, ivisits, now);
    }

    method AnyWanted(gs: seq<RegisterGroup>, w: Wanted, isInput: bool) returns (r: bool)
      ensures r == exists i :: 0 <= i < |gs| && Wants(w, Views(gs)[i], isInput, false, 0)
    {
      for i := 0 to |gs|
        invariant forall k :: 0 <= k < i ==> !Wants(w, Views(gs)[k], isInput, false, 0)
      {
        var wanted := IsWanted(gs[i], w, isInput, false, 0);
        if wanted {
          assert Wants(w, Views(gs)[i], isInput, false, 0);
          return true;
        }
      }
      return false;
    }
  }
}
