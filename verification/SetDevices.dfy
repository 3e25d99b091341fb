/** set_devices() of src/evok/modbus/base.py: the assignments are grouped by the units, checked and done in the order
    of the groups; an error leaves the states of the assignments done before it. */
module SetDevices {
  import opened Common
  import opened Aliases
  import opened AliasRuns
  import opened AliasPlanners

  /** An assignment: the unit of the device (the device itself, if it is not on a unit), the device and its alias. */
  datatype Assignment = Assignment(unit: nat, item: Item)

  datatype Entry = Entry(index: nat, item: Item)

  datatype Group = Group(unit: nat, entries: seq<Entry>)

  /** units.setdefault(unit, []).append(entry) of an ordered dict */
  function Append(groups: seq<Group>, unit: nat, entry: Entry): seq<Group> {
    if groups == [] then [Group(unit, [entry])]
    else if groups[0].unit == unit then [groups[0].(entries := groups[0].entries + [entry])] + groups[1..]
    else [groups[0]] + Append(groups[1..], unit, entry)
  }

  function Groups(items: seq<Assignment>): seq<Group>
    decreases |items|
  {
    if items == [] then []
    else
      var n := |items| - 1;
      Append(Groups(items[..n]), items[n].unit, Entry(n, items[n].item))
  }

  /** The order in which the assignments are done. */
  function Order(groups: seq<Group>): seq<Entry> {
    if groups == [] then [] else groups[0].entries + Order(groups[1..])
  }

  // ---- the grouping ----

  /** The units in the order of their first assignments. */
  function Units(items: seq<Assignment>): (r: seq<nat>)
    ensures forall i, j :: 0 <= i < j < |r| ==> r[i] != r[j]
    decreases |items|
  {
    if items == [] then []
    else
      var before, u := Units(items[..|items| - 1]), items[|items| - 1].unit;
      if u in before then before else before + [u]
  }

  lemma {:induction false} UnitsAreOfItems(items: seq<Assignment>, u: nat)
    ensures u in Units(items) <==> exists k :: 0 <= k < |items| && items[k].unit == u
    decreases |items|
  {
    if items != [] {
      UnitsAreOfItems(items[..|items| - 1], u);
    }
  }

  /** The assignments of a unit in their order. */
  function EntriesOf(items: seq<Assignment>, u: nat): seq<Entry>
    decreases |items|
  {
    if items == [] then []
    else
      var n := |items| - 1;
      var before := EntriesOf(items[..n], u);
      if items[n].unit == u then before + [Entry(n, items[n].item)] else before
  }

  lemma {:induction false} EntriesAreOfUnit(items: seq<Assignment>, u: nat, e: Entry)
    ensures e in EntriesOf(items, u) <==> e.index < |items| && items[e.index] == Assignment(u, e.item)
    ensures multiset(EntriesOf(items, u))[e] <= 1
    decreases |items|
  {
    if items != [] {
      EntriesAreOfUnit(items[..|items| - 1], u, e);
    }
  }

  /** The group of each unit, each with all assignments of the unit in their order. */
  function GroupsOf(items: seq<Assignment>, units: seq<nat>): (r: seq<Group>)
    ensures |r| == |units| && forall g :: 0 <= g < |r| ==> r[g] == Group(units[g], EntriesOf(items, units[g]))
  {
    seq(|units|, g requires 0 <= g < |units| => Group(units[g], EntriesOf(items, units[g])))
  }

  lemma {:induction false} AppendNew(groups: seq<Group>, unit: nat, entry: Entry)
    requires forall g :: 0 <= g < |groups| ==> groups[g].unit != unit
    ensures Append(groups, unit, entry) == groups + [Group(unit, [entry])]
  {
    if groups != [] {
      AppendNew(groups[1..], unit, entry);
    }
  }

  lemma {:induction false} AppendAt(groups: seq<Group>, g: nat, entry: Entry)
    requires g < |groups| && forall h :: 0 <= h < g ==> groups[h].unit != groups[g].unit
    ensures Append(groups, groups[g].unit, entry) == groups[g := groups[g].(entries := groups[g].entries + [entry])]
  {
    if g > 0 {
      AppendAt(groups[1..], g - 1, entry);
    }
  }

  lemma {:induction false} UnknownUnit(items: seq<Assignment>, u: nat)
    requires u !in Units(items)
    ensures EntriesOf(items, u) == []
    decreases |items|
  {
    if items != [] {
      UnknownUnit(items[..|items| - 1], u);
    }
  }

  lemma {:induction false} EntriesOfMore(rest: seq<Assignment>, x: Assignment, u: nat)
    ensures EntriesOf(rest + [x], u) ==
            if x.unit == u then EntriesOf(rest, u) + [Entry(|rest|, x.item)] else EntriesOf(rest, u)
  {
    assert (rest + [x])[..|rest|] == rest;
  }

  lemma {:induction false} UnitsOfMore(rest: seq<Assignment>, x: Assignment)
    ensures Units(rest + [x]) == if x.unit in Units(rest) then Units(rest) else Units(rest) + [x.unit]
  {
    assert (rest + [x])[..|rest|] == rest;
  }

  lemma {:induction false} KnownGroups(rest: seq<Assignment>, x: Assignment)
    ensures forall g :: 0 <= g < |Units(rest)| ==>
              var u := Units(rest)[g];
              EntriesOf(rest + [x], u) ==
              if x.unit == u then EntriesOf(rest, u) + [Entry(|rest|, x.item)] else EntriesOf(rest, u)
  {
    forall g | 0 <= g < |Units(rest)| {
      EntriesOfMore(rest, x, Units(rest)[g]);
    }
  }

  lemma {:induction false} GrownGroup(rest: seq<Assignment>, x: Assignment, g: nat)
    requires g < |Units(rest)| && Units(rest)[g] == x.unit
    ensures var before, entry := GroupsOf(rest, Units(rest)), Entry(|rest|, x.item);
            GroupsOf(rest + [x], Units(rest)) ==
            before[g := before[g].(entries := before[g].entries + [entry])]
  {
    KnownGroups(rest, x);
  }

  lemma {:induction false} NewGroup(rest: seq<Assignment>, x: Assignment)
    requires x.unit !in Units(rest)
    ensures GroupsOf(rest + [x], Units(rest) + [x.unit]) ==
            GroupsOf(rest, Units(rest)) + [Group(x.unit, [Entry(|rest|, x.item)])]
  {
    KnownGroups(rest, x);
    assert forall g :: 0 <= g < |Units(rest)| ==> Units(rest)[g] in Units(rest);
    EntriesOfMore(rest, x, x.unit);
    UnknownUnit(rest, x.unit);
    assert EntriesOf(rest + [x], x.unit) == [Entry(|rest|, x.item)];
  }

  lemma {:induction false} GroupsOfMore(rest: seq<Assignment>, x: Assignment)
    ensures Append(GroupsOf(rest, Units(rest)), x.unit, Entry(|rest|, x.item)) ==
            GroupsOf(rest + [x], Units(rest + [x]))
  {
    var before, entry := GroupsOf(rest, Units(rest)), Entry(|rest|, x.item);
    UnitsOfMore(rest, x);
    if x.unit in Units(rest) {
      var g :| 0 <= g < |Units(rest)| && Units(rest)[g] == x.unit;
      GrownGroup(rest, x, g);
      AppendAt(before, g, entry);
    } else {
      AppendNew(before, x.unit, entry);
      NewGroup(rest, x);
    }
  }

  /** The dictionary built one assignment after another has a group for each unit, in the order of their first
      assignments, with exactly the assignments of the unit in their order. */
  lemma {:induction false} GroupsAreByUnit(items: seq<Assignment>)
    ensures Groups(items) == GroupsOf(items, Units(items))
    decreases |items|
  {
    if items != [] {
      var rest, x := items[..|items| - 1], items[|items| - 1];
      assert rest + [x] == items;
      GroupsAreByUnit(rest);
      GroupsOfMore(rest, x);
    }
  }

  lemma {:induction false} OrderOfUnits(items: seq<Assignment>, units: seq<nat>, e: Entry)
    requires forall i, j :: 0 <= i < j < |units| ==> units[i] != units[j]
    ensures multiset(Order(GroupsOf(items, units)))[e] ==
            if e.index < |items| && items[e.index].item == e.item && items[e.index].unit in units then 1 else 0
  {
    if units != [] {
      var groups := GroupsOf(items, units);
      assert groups[1..] == GroupsOf(items, units[1..]);
      OrderOfUnits(items, units[1..], e);
      EntriesAreOfUnit(items, units[0], e);
      assert units == [units[0]] + units[1..];
    }
  }

  /** Every assignment is done, and only once. */
  lemma EveryAssignmentOnce(items: seq<Assignment>, e: Entry)
    ensures multiset(Order(Groups(items)))[e] == if e.index < |items| && items[e.index].item == e.item then 1 else 0
  {
    GroupsAreByUnit(items);
    OrderOfUnits(items, Units(items), e);
    if e.index < |items| {
      UnitsAreOfItems(items, items[e.index].unit);
    }
  }

  // ---- the changes ----

  /** All assignments of the unit are done, or none of them. */
  ghost predicate Whole(items: seq<Assignment>, done: seq<Entry>, u: nat) {
    (forall e :: e in EntriesOf(items, u) ==> e in done) || (forall e :: e in EntriesOf(items, u) ==> e !in done)
  }

  lemma FirstUnit(items: seq<Assignment>, units: seq<nat>, n: nat, u: nat)
    requires units != [] && u != units[0] && n <= |Order(GroupsOf(items, units))|
    ensures
      var order, rest := Order(GroupsOf(items, units)), Order(GroupsOf(items, units[1..]));
      var first := EntriesOf(items, units[0]);
      if n < |first| then Whole(items, order[..n], u)
      else n - |first| <= |rest| && Whole(items, order[..n], units[0]) &&
           (Whole(items, rest[..n - |first|], u) ==> Whole(items, order[..n], u))
  {
    var groups, first := GroupsOf(items, units), EntriesOf(items, units[0]);
    assert groups[1..] == GroupsOf(items, units[1..]);
    var rest := Order(groups[1..]);
    forall e | e in EntriesOf(items, u)
      ensures e !in first
    {
      EntriesAreOfUnit(items, u, e);
      EntriesAreOfUnit(items, units[0], e);
    }
    if n < |first| {
      assert (first + rest)[..n] == first[..n];
    } else {
      assert (first + rest)[..n] == first + rest[..n - |first|];
    }
  }

  lemma {:induction false} OneUnitOf(items: seq<Assignment>, units: seq<nat>, n: nat) returns (failed: nat)
    requires forall i, j :: 0 <= i < j < |units| ==> units[i] != units[j]
    requires units != [] && n <= |Order(GroupsOf(items, units))|
    ensures failed in units
    ensures forall u :: u in units && u != failed ==> Whole(items, Order(GroupsOf(items, units))[..n], u)
  {
    failed := units[0];
    var first := EntriesOf(items, units[0]);
    if |units| == 1 || n < |first| {
      forall u | u in units && u != failed
        ensures Whole(items, Order(GroupsOf(items, units))[..n], u)
      {
        FirstUnit(items, units, n, u);
      }
    } else {
      FirstUnit(items, units, n, units[1]);
      failed := OneUnitOf(items, units[1..], n - |first|);
      forall u | u in units && u != failed
        ensures Whole(items, Order(GroupsOf(items, units))[..n], u)
      {
        if u == units[0] {
          FirstUnit(items, units, n, failed);
        } else {
          assert u in units[1..];
          FirstUnit(items, units, n, u);
        }
      }
    }
  }

  /** Wherever an error stops the assignments, it leaves at most one unit partly done: of every other unit all
      assignments are done, or none. */
  lemma OneUnitIsPartial(items: seq<Assignment>, n: nat) returns (failed: nat)
    requires n <= |Order(Groups(items))|
    ensures forall u :: u in Units(items) && u != failed ==> Whole(items, Order(Groups(items))[..n], u)
  {
    GroupsAreByUnit(items);
    failed := 0;
    if items != [] {
      UnitsAreOfItems(items, items[0].unit);
      failed := OneUnitOf(items, Units(items), n);
    }
  }

  // ---- the aliases of the batch ----

  function Batch(entries: seq<Entry>): (r: seq<Item>) {
    seq(|entries|, i requires 0 <= i < |entries| => entries[i].item)
  }

  lemma BatchOfBoth(a: seq<Entry>, b: seq<Entry>)
    ensures Batch(a + b) == Batch(a) + Batch(b)
  {
  }

  lemma {:induction false} PlanOfBoth(r: Registry, p: Plan, a: seq<Item>, b: seq<Item>)
    requires Known(r, a) && Known(r, b)
    ensures Known(r, a + b)
    ensures PlanAll(r, p, a + b) == if PlanAll(r, p, a).Some? then PlanAll(r, PlanAll(r, p, a).value, b) else None
    decreases |a|
  {
    if a == [] {
      assert a + b == b;
    } else {
      assert (a + b)[1..] == a[1..] + b && (a + b)[0] == a[0];
      var next := PlanItem(r, p, a[0]);
      if next.Some? {
        PlanOfBoth(r, next.value, a[1..], b);
      }
    }
  }

  // ---- the methods ----

  method GroupByUnit(items: seq<Assignment>) returns (units: seq<Group>)
    ensures units == Groups(items)
  {
    units := [];
    for index := 0 to |items|
      invariant units == Groups(items[..index])
    {
      assert items[..index + 1][..index] == items[..index];
      units := Append(units, items[index].unit, Entry(index, items[index].item));
    }
    assert items[..|items|] == items;
  }

  predicate AllKnown(r: Registry, groups: seq<Group>) {
    Known(r, Batch(Order(groups)))
  }

  lemma KnownOfFirst(r: Registry, groups: seq<Group>)
    requires groups != [] && AllKnown(r, groups)
    ensures Known(r, Batch(groups[0].entries)) && AllKnown(r, groups[1..])
    ensures Batch(Order(groups)) == Batch(groups[0].entries) + Batch(Order(groups[1..]))
  {
    BatchOfBoth(groups[0].entries, Order(groups[1..]));
    forall i | i in Batch(groups[0].entries) || i in Batch(Order(groups[1..]))
      ensures i in Batch(Order(groups))
    {
    }
  }

  /** _check_aliases() */
  method CheckAliases(r: Registry, groups: seq<Group>) returns (ok: bool)
    requires AllKnown(r, groups)
    ensures ok == Accepts(r, Batch(Order(groups)))
  {
    var plan := NOTHING;
    var g := 0;
    assert groups[0..] == groups;
    while g < |groups|
      invariant 0 <= g <= |groups| && AllKnown(r, groups[g..])
      invariant PlanAll(r, NOTHING, Batch(Order(groups))) == PlanAll(r, plan, Batch(Order(groups[g..])))
    {
      KnownOfFirst(r, groups[g..]);
      assert groups[g..][1..] == groups[g + 1..];
      PlanOfBoth(r, plan, Batch(groups[g].entries), Batch(Order(groups[g + 1..])));
      var next := CheckItems(r, Batch(groups[g].entries), plan);
      if next.None? {
        return false;
      }
      plan := next.value;
      g := g + 1;
    }
    ok := true;
  }

  // ---- up to the first error ----

  /** set() of the devices: the state after it, or None for its error. */
  type Setter<!S> = (S, Entry) -> Option<S>

  /** How many assignments are done before the first error, and the state after them. */
  datatype Progress<S> = Progress(done: nat, state: S)

  function Advance<S>(x: S, order: seq<Entry>, f: Setter<S>): (p: Progress<S>)
    ensures p.done <= |order|
    decreases |order|
  {
    if order == [] then Progress(0, x)
    else
      match f(x, order[0])
      case None => Progress(0, x)
      case Some(z) =>
        var rest := Advance(z, order[1..], f);
        Progress(rest.done + 1, rest.state)
  }

  lemma {:induction false} AdvanceOfBoth<S>(x: S, a: seq<Entry>, b: seq<Entry>, f: Setter<S>)
    ensures
      var p := Advance(x, a, f);
      Advance(x, a + b, f) ==
      if p.done < |a| then p
      else var q := Advance(p.state, b, f); Progress(|a| + q.done, q.state)
    decreases |a|
  {
    if a == [] {
      assert a + b == b;
    } else {
      assert (a + b)[1..] == a[1..] + b && (a + b)[0] == a[0];
      if f(x, a[0]).Some? {
        AdvanceOfBoth(f(x, a[0]).value, a[1..], b, f);
      }
    }
  }

  /** The operation of a unit: the devices are set up to the first error. */
  method SetUnit<S>(x: S, entries: seq<Entry>, f: Setter<S>) returns (done: nat, z: S)
    ensures Progress(done, z) == Advance(x, entries, f)
  {
    done, z := 0, x;
    assert entries[0..] == entries;
    while done < |entries|
      invariant done <= |entries|
      invariant var rest := Advance(z, entries[done..], f);
                Advance(x, entries, f) == Progress(done + rest.done, rest.state)
    {
      assert entries[done..][0] == entries[done] && entries[done..][1..] == entries[done + 1..];
      var next := f(z, entries[done]);
      if next.None? {
        break;
      }
      z := next.value;
      done := done + 1;
    }
  }

  function Indices(entries: seq<Entry>): (r: set<nat>) {
    set e | e in entries :: e.index
  }

  lemma IndicesOfBoth(a: seq<Entry>, b: seq<Entry>)
    ensures Indices(a + b) == Indices(a) + Indices(b)
  {
    forall i
      ensures i in Indices(a + b) <==> i in Indices(a) + Indices(b)
    {
      assert forall e :: e in a + b <==> e in a || e in b;
    }
  }

  /** What is done of the whole order after n assignments. */
  function Onward<S>(n: nat, p: Progress<S>): Progress<S> {
    Progress(n + p.done, p.state)
  }

  /** The first part of the order is done, with the indices in `states`; the rest goes on from z. */
  ghost predicate DoneUpTo<S>(x: S, order: seq<Entry>, f: Setter<S>, before: seq<Entry>, rest: seq<Entry>,
                              states: set<nat>, z: S)
  {
    order == before + rest && states == Indices(before) && Advance(x, order, f) == Onward(|before|, Advance(z, rest, f))
  }

  /** The first error came after the assignments in `states`, or none. */
  ghost predicate DoneIs<S>(x: S, order: seq<Entry>, f: Setter<S>, states: set<nat>, z: S, ok: bool) {
    var p := Advance(x, order, f);
    states == Indices(order[..p.done]) && z == p.state && ok == (p.done == |order|)
  }

  /** A unit which is done as a whole. */
  lemma {:induction false} UnitDone<S>(x: S, order: seq<Entry>, f: Setter<S>, before: seq<Entry>,
                                      entries: seq<Entry>, rest: seq<Entry>,
                                      states: set<nat>, z: S)
    requires DoneUpTo(x, order, f, before, entries + rest, states, z) && Advance(z, entries, f).done == |entries|
    ensures DoneUpTo(x, order, f, before + entries, rest, states + Indices(entries), Advance(z, entries, f).state)
  {
    AdvanceOfBoth(z, entries, rest, f);
    IndicesOfBoth(before, entries);
    assert before + (entries + rest) == before + entries + rest;
  }

  /** A unit with the first error. */
  lemma {:induction false} UnitStops<S>(x: S, order: seq<Entry>, f: Setter<S>, before: seq<Entry>,
                                       entries: seq<Entry>, rest: seq<Entry>,
                                       states: set<nat>, z: S)
    requires DoneUpTo(x, order, f, before, entries + rest, states, z) && Advance(z, entries, f).done < |entries|
    ensures var p := Advance(z, entries, f); DoneIs(x, order, f, states + Indices(entries[..p.done]), p.state, false)
  {
    var done := Advance(z, entries, f).done;
    AdvanceOfBoth(z, entries, rest, f);
    IndicesOfBoth(before, entries[..done]);
    assert order[..|before| + done] == before + entries[..done];
  }

  lemma {:induction false} AllDone<S>(x: S, order: seq<Entry>, f: Setter<S>, before: seq<Entry>,
                                     states: set<nat>, z: S)
    requires DoneUpTo(x, order, f, before, [], states, z)
    ensures DoneIs(x, order, f, states, z, true)
  {
    assert order[..|before|] == before;
  }

  lemma OrderFrom(groups: seq<Group>, g: nat)
    requires g < |groups|
    ensures Order(groups[g..]) == groups[g].entries + Order(groups[g + 1..])
  {
    assert groups[g..][0] == groups[g] && groups[g..][1..] == groups[g + 1..];
  }

  /** The units one after another, up to the first error; states has the assignments done. */
  method SetUnits<S>(x: S, groups: seq<Group>, f: Setter<S>) returns (states: set<nat>, z: S, ok: bool)
    ensures DoneIs(x, Order(groups), f, states, z, ok)
  {
    states, z := {}, x;
    ghost var order, before := Order(groups), [];
    var g := 0;
    assert groups[0..] == groups && order == before + order;
    while g < |groups|
      invariant 0 <= g <= |groups| && DoneUpTo(x, order, f, before, Order(groups[g..]), states, z)
    {
      var entries := groups[g].entries;
      ghost var rest := Order(groups[g + 1..]);
      OrderFrom(groups, g);
      var done, y := SetUnit(z, entries, f);
      if done < |entries| {
        UnitStops(x, order, f, before, entries, rest, states, z);
        return states + Indices(entries[..done]), y, false;
      }
      UnitDone(x, order, f, before, entries, rest, states, z);
      states, z := states + Indices(entries), y;
      before, g := before + entries, g + 1;
    }
    AllDone(x, order, f, before, states, z);
    ok := true;
  }

  // ---- the devices with their aliases ----

  /** set() of one device: an assignment in fails does not write its value, a written one sets its alias. */
  function SetOne(r: Registry, e: Entry, fails: set<nat>): Option<Registry> {
    if e.index in fails || e.item.device !in r.alias then None
    else match PerformItem(r, e.item) case Done(z) => Some(z) case Refused(_) => None
  }

  function SetterOf(fails: set<nat>): Setter<Registry> {
    (r, e) => SetOne(r, e, fails)
  }

  /** If the aliases of the batch can be set, only a failed write stops it. */
  lemma {:induction false} StopsAtFailure(r: Registry, order: seq<Entry>, fails: set<nat>)
    requires Known(r, Batch(order)) && Perform(r, Batch(order)).Done?
    ensures
      var n := Advance(r, order, SetterOf(fails)).done;
      (forall i :: 0 <= i < n ==> order[i].index !in fails) && (n < |order| ==> order[n].index in fails)
    decreases |order|
  {
    if order != [] {
      var item, rest := order[0].item, order[1..];
      assert Batch(order)[0] == item && Batch(order)[1..] == Batch(rest) && item in Batch(order);
      var z := SetOne(r, order[0], fails);
      assert SetterOf(fails)(r, order[0]) == z;
      if z.Some? {
        assert Perform(r, Batch(order)) == Perform(z.value, Batch(rest));
        StopsAtFailure(z.value, rest, fails);
        var n := Advance(r, order, SetterOf(fails)).done;
        assert forall i :: 0 < i <= n && i < |order| ==> order[i] == rest[i - 1];
      }
    }
  }

  lemma {:induction false} PerformNext(r: Registry, items: seq<Item>)
    requires items != [] && Known(r, items)
    ensures items[0].device in r.alias
    ensures PerformItem(r, items[0]).Done? ==>
              Known(PerformItem(r, items[0]).registry, items[1..]) &&
              Perform(r, items) == Perform(PerformItem(r, items[0]).registry, items[1..])
  {
    assert items[0] in items;
  }

  /** The devices before the first error are set, in their order; the error is a failed write or a refused alias. */
  lemma {:induction false} StopsExactly(r: Registry, order: seq<Entry>, fails: set<nat>)
    requires Known(r, Batch(order))
    ensures
      var p := Advance(r, order, SetterOf(fails));
      && Known(r, Batch(order[..p.done])) && Perform(r, Batch(order[..p.done])) == Done(p.state)
      && p.state.alias.Keys == r.alias.Keys
      && (forall i :: 0 <= i < p.done ==> order[i].index !in fails)
      && (p.done < |order| ==>
            order[p.done].item.device in p.state.alias &&
            (order[p.done].index in fails || PerformItem(p.state, order[p.done].item).Refused?))
    decreases |order|
  {
    if order != [] {
      var rest, f := order[1..], SetterOf(fails);
      assert Batch(order)[0] == order[0].item && Batch(order)[1..] == Batch(rest);
      PerformNext(r, Batch(order));
      var z := SetOne(r, order[0], fails);
      assert f(r, order[0]) == z;
      if z.Some? {
        StopsExactly(z.value, rest, fails);
        var n := Advance(r, order, f).done;
        var first := Batch(order[..n]);
        assert first[0] == order[0].item && first[1..] == Batch(rest[..n - 1]);
        PerformNext(r, first);
      }
    }
  }

  datatype Answer = Invalid | Failed(states: set<nat>) | Answered(states: set<nat>)

  /** set_devices(): an invalid alias is refused before any change; else the states are of exactly the assignments
      before the first error, of all of them without one. From acceptable aliases a batch is refused exactly if its
      aliases could not be set, and only a failed write stops an accepted one. */
  method SetAll(r: Registry, items: seq<Assignment>, fails: set<nat>) returns (a: Answer, z: Registry)
    requires forall k :: 0 <= k < |items| ==> items[k].item.device in r.alias
    ensures AllKnown(r, Groups(items))
    ensures a.Invalid? <==> !Accepts(r, Batch(Order(Groups(items))))
    ensures a.Invalid? ==> z == r
    ensures !a.Invalid? ==>
              var order, p := Order(Groups(items)), Advance(r, Order(Groups(items)), SetterOf(fails));
              a.states == Indices(order[..p.done]) && z == p.state && (a.Answered? <==> p.done == |order|)
    ensures a.Answered? ==> forall k: nat :: k in a.states <==> k < |items|
    ensures Inv(r) && Acceptable(r) ==> (a.Invalid? <==> Perform(r, Batch(Order(Groups(items)))).Refused?)
    ensures Inv(r) && Acceptable(r) && a.Failed? ==>
              var order, n := Order(Groups(items)), Advance(r, Order(Groups(items)), SetterOf(fails)).done;
              order[n].index in fails && forall i :: 0 <= i < n ==> order[i].index !in fails
  {
    AllAreKnown(r, items);
    var groups := GroupByUnit(items);
    ghost var order := Order(groups);
    var accepted := CheckAliases(r, groups);
    if Inv(r) && Acceptable(r) {
      PlannerExact(r, Batch(order));
    }
    if !accepted {
      return Invalid, r;
    }
    var states, ok;
    states, z, ok := SetUnits(r, groups, SetterOf(fails));
    if Inv(r) && Acceptable(r) {
      StopsAtFailure(r, order, fails);
    }
    if ok {
      AllIndices(items);
      assert order[..|order|] == order;
    }
    a := if ok then Answered(states) else Failed(states);
  }

  lemma {:induction false} AllAreKnown(r: Registry, items: seq<Assignment>)
    requires forall k :: 0 <= k < |items| ==> items[k].item.device in r.alias
    ensures AllKnown(r, Groups(items))
  {
    var order := Order(Groups(items));
    forall i | 0 <= i < |order|
      ensures order[i].item.device in r.alias
    {
      EveryAssignmentOnce(items, order[i]);
      assert order[i] in multiset(order);
    }
  }

  lemma {:induction false} AllIndices(items: seq<Assignment>)
    ensures forall k: nat :: k in Indices(Order(Groups(items))) <==> k < |items|
  {
    var order := Order(Groups(items));
    forall k: nat
      ensures k in Indices(order) <==> k < |items|
    {
      if k < |items| {
        EveryAssignmentOnce(items, Entry(k, items[k].item));
        assert Entry(k, items[k].item) in multiset(order);
      }
      forall e | e in order && e.index == k
        ensures k < |items|
      {
        EveryAssignmentOnce(items, e);
        assert e in multiset(order);
      }
    }
  }
}
