/** _check_aliases() of src/evok/modbus/base.py: the aliases of a batch of assignments are checked before the first
    write. */
module AliasPlanners {
  import opened Common
  import opened Aliases
  import opened AliasRuns

  /** The alias of an assignment; NoValue is not given. */
  datatype Item = Item(device: Id, alias: Value)

  /** The alias of a device after the earlier assignments, the aliases they release and the ones they take. */
  datatype Plan = Plan(planned: map<Id, string>, free: set<string>, taken: set<string>)

  const NOTHING := Plan(map[], {}, {})

  predicate Known(r: Registry, items: seq<Item>) {
    forall i :: i in items ==> i.device in r.alias
  }

  function Planned(r: Registry, p: Plan, d: Id): string
    requires d in r.alias
  {
    if d in p.planned then p.planned[d] else r.alias[d]
  }

  function Take(p: Plan, a: string): Plan {
    p.(taken := p.taken + {a}, free := p.free - {a})
  }

  function Release(p: Plan, a: string): Plan {
    p.(taken := p.taken - {a}, free := p.free + {a})
  }

  /** One assignment; None is ValueError. */
  function PlanItem(r: Registry, p: Plan, i: Item): Option<Plan>
    requires i.device in r.alias
  {
    var current := Planned(r, p, i.device);
    if i.alias == NoValue || i.alias == Text(current) then Some(p)
    else if i.alias != Text("") && (CheckAlias(r, i.alias, i.device, p.free).Some? || i.alias.name in p.taken) then None
    else
      var x := if i.alias != Text("") then Take(p, i.alias.name) else p;
      var y := if current != "" then Release(x, current) else x;
      Some(y.(planned := y.planned[i.device := i.alias.name]))
  }

  function PlanAll(r: Registry, p: Plan, items: seq<Item>): Option<Plan>
    requires Known(r, items)
    decreases |items|
  {
    if items == [] then Some(p)
    else
      var next := PlanItem(r, p, items[0]);
      if next.None? then None else PlanAll(r, next.value, items[1..])
  }

  /** The batch is accepted before the first write. */
  predicate Accepts(r: Registry, items: seq<Item>)
    requires Known(r, items)
  {
    PlanAll(r, NOTHING, items).Some?
  }

  /** The alias of an assignment is set, if it is given. */
  function PerformItem(r: Registry, i: Item): (o: Outcome)
    requires i.device in r.alias
    ensures o.Done? ==> o.registry.alias.Keys == r.alias.Keys
  {
    if i.alias == NoValue then Done(r) else SetAlias(r, i.alias, i.device)
  }

  /** The aliases are set in this order, up to the first refused one. */
  function Perform(r: Registry, items: seq<Item>): Outcome
    requires Known(r, items)
    decreases |items|
  {
    if items == [] then Done(r)
    else
      var o := PerformItem(r, items[0]);
      if o.Refused? then o else Perform(o.registry, items[1..])
  }

  /** The held aliases are the ones held before and not free, by the same devices, and the taken ones. */
  ghost predicate DescribesHeld(r: Registry, p: Plan, z: Registry) {
    && (forall a :: a in z.held <==> (a in r.held && a !in p.free) || a in p.taken)
    && (forall a :: a in r.held && a !in p.free && a !in p.taken ==> a in z.held && z.held[a] == r.held[a])
    && p.free !! p.taken
  }

  /** The plan describes the registry after a prefix of the batch. */
  ghost predicate Describes(r: Registry, p: Plan, z: Registry) {
    && Inv(z) && z.alias.Keys == r.alias.Keys
    && (forall d :: d in r.alias ==> z.alias[d] == Planned(r, p, d))
    && DescribesHeld(r, p, z)
    && z.saved == r.saved
  }

  /** No device has an alias which is also a circuit of its type; set_alias() refuses such an alias, but a
      registration of a device does not check its saved alias, nor the aliases of the others. */
  ghost predicate Acceptable(r: Registry) {
    forall d :: d in r.alias && r.alias[d] != "" ==> Id(d.devtype, r.alias[d]) !in r.alias
  }

  lemma AcceptedIsSet(r: Registry, p: Plan, z: Registry, i: Item)
    requires Inv(r) && Acceptable(r) && Describes(r, p, z) && i.device in r.alias && PlanItem(r, p, i).Some?
    ensures PerformItem(z, i).Done?
  {
    var d, v := i.device, i.alias;
    if v.Text? && v.name != "" && v.name != z.alias[d] {
      assert v.name == r.alias[d] ==> r.held[v.name] == d;
      assert v.name !in z.held;
      assert ValidName(v.name);
    }
  }

  lemma SetIsAccepted(r: Registry, p: Plan, z: Registry, i: Item)
    requires Inv(r) && Describes(r, p, z) && i.device in r.alias && PerformItem(z, i).Done?
    ensures PlanItem(r, p, i).Some?
  {
    var d, v := i.device, i.alias;
    if v.Text? && v.name != "" && v.name != z.alias[d] {
      assert v.name !in z.held;
    }
  }

  function AfterItem(p: Plan, d: Id, current: string, a: string): Plan {
    var x := if a != "" then Take(p, a) else p;
    var y := if current != "" then Release(x, current) else x;
    y.(planned := y.planned[d := a])
  }

  lemma AssignedDescribesHeld(r: Registry, p: Plan, z: Registry, d: Id, a: string)
    requires DescribesHeld(r, p, z) && d in z.alias && a != "" && a != z.alias[d] && a !in z.held
    requires z.alias[d] != "" ==> z.alias[d] in z.held
    requires "" !in z.held
    ensures DescribesHeld(r, AfterItem(p, d, z.alias[d], a), Assigned(z, a, d))
  {
  }

  lemma AssignedIsPlanned(r: Registry, p: Plan, z: Registry, d: Id, a: string)
    requires d in r.alias && z.alias.Keys == r.alias.Keys &&
             (forall x :: x in r.alias ==> z.alias[x] == Planned(r, p, x))
    ensures forall x :: x in r.alias ==> Assigned(z, a, d).alias[x] == Planned(r, AfterItem(p, d, z.alias[d], a), x)
  {
  }

  lemma AssignedDescribes(r: Registry, p: Plan, z: Registry, d: Id, a: string)
    requires Describes(r, p, z) && d in r.alias && a != "" && a != z.alias[d] && a !in z.held && a !in z.saved
    requires Inv(Assigned(z, a, d))
    ensures Describes(r, AfterItem(p, d, z.alias[d], a), Assigned(z, a, d))
  {
    AssignedDescribesHeld(r, p, z, d, a);
    AssignedIsPlanned(r, p, z, d, a);
  }

  lemma ReleasedDescribes(r: Registry, p: Plan, z: Registry, d: Id)
    requires Bijection(r) && Describes(r, p, z) && d in r.alias && z.alias[d] != "" && Inv(Released(z, d))
    ensures Describes(r, AfterItem(p, d, z.alias[d], ""), Released(z, d))
  {
  }

  lemma ItemDescribes(r: Registry, p: Plan, z: Registry, i: Item)
    requires Inv(r) && Describes(r, p, z) && i.device in r.alias && PlanItem(r, p, i).Some? && PerformItem(z, i).Done?
    ensures Describes(r, PlanItem(r, p, i).value, PerformItem(z, i).registry)
  {
    var d, v := i.device, i.alias;
    if v != NoValue && v != Text(z.alias[d]) {
      SetAliasKeeps(z, v, d);
      SetAliasChanges(z, v, d);
      if v == Text("") {
        ReleasedDescribes(r, p, z, d);
      } else {
        AssignedDescribes(r, p, z, d, v.name);
      }
    }
  }

  /** What the planner accepts is set without an error, and after every prefix the plan describes the registry. */
  lemma {:induction false} PlanIsPerformed(r: Registry, p: Plan, z: Registry, items: seq<Item>)
    requires Inv(r) && Acceptable(r) && Describes(r, p, z) && Known(r, items) && PlanAll(r, p, items).Some?
    ensures Perform(z, items).Done? && Describes(r, PlanAll(r, p, items).value, Perform(z, items).registry)
    decreases |items|
  {
    if items != [] {
      assert items[0] in items;
      AcceptedIsSet(r, p, z, items[0]);
      ItemDescribes(r, p, z, items[0]);
      PlanIsPerformed(r, PlanItem(r, p, items[0]).value, PerformItem(z, items[0]).registry, items[1..]);
    }
  }

  lemma NothingDescribes(r: Registry)
    requires Inv(r)
    ensures Describes(r, NOTHING, r)
  {
  }

  /** A batch which the planner accepts is set in its order without an error. The aliases held after it are the ones
      held before it and not free, and the taken ones. */
  lemma PlannerSound(r: Registry, items: seq<Item>, a: string)
    requires Inv(r) && Acceptable(r) && Known(r, items) && Accepts(r, items)
    ensures Perform(r, items).Done? && Inv(Perform(r, items).registry)
    ensures
      var p, z := PlanAll(r, NOTHING, items).value, Perform(r, items).registry;
      (a in z.held <==> (a in r.held && a !in p.free) || a in p.taken) &&
      forall d :: d in r.alias ==> d in z.alias && z.alias[d] == Planned(r, p, d)
  {
    NothingDescribes(r);
    PlanIsPerformed(r, NOTHING, r, items);
  }

  ghost predicate SoundFor(r: Registry, items: seq<Item>) {
    Known(r, items) && Accepts(r, items) ==> Perform(r, items).Done?
  }

  /** The planner is sound for every batch exactly if the current aliases are acceptable: otherwise the reset of such an
      alias and the same alias again is accepted, and refused after the reset. */
  lemma PlannerSoundExactly(r: Registry)
    requires Inv(r)
    ensures (forall items :: SoundFor(r, items)) <==> Acceptable(r)
  {
    if Acceptable(r) {
      forall items
        ensures SoundFor(r, items)
      {
        if Known(r, items) && Accepts(r, items) {
          PlannerSound(r, items, "");
        }
      }
    } else {
      var d :| d in r.alias && r.alias[d] != "" && Id(d.devtype, r.alias[d]) in r.alias;
      ResetAndAgain(r, d);
      assert !SoundFor(r, [Item(d, Text("")), Item(d, Text(r.alias[d]))]);
    }
  }

  lemma ResetAndAgain(r: Registry, d: Id)
    requires Inv(r) && d in r.alias && r.alias[d] != "" && Id(d.devtype, r.alias[d]) in r.alias
    ensures
      var items := [Item(d, Text("")), Item(d, Text(r.alias[d]))];
      Known(r, items) && Accepts(r, items) && Perform(r, items) == Refused(IsCircuit)
  {
    var reset, again := Item(d, Text("")), Item(d, Text(r.alias[d]));
    var items := [reset, again];
    assert items[1..] == [again] && [again][1..] == [];
    var p := PlanItem(r, NOTHING, reset).value;
    assert PlanItem(r, p, again).Some?;
    assert PlanAll(r, p, [again]) == PlanAll(r, PlanItem(r, p, again).value, []);
    SetAliasChanges(r, Text(""), d);
    var z := PerformItem(r, reset).registry;
    assert z == Released(r, d);
    assert PerformItem(z, again) == Refused(IsCircuit);
    assert Perform(z, [again]) == Refused(IsCircuit);
  }

  /** Such a state is reached: an alias saved for a device, and then a device with this circuit. */
  lemma UnacceptableIsReached(d: Id, a: string, other: Id)
    requires ValidName(a) && other == Id(d.devtype, a) && other != d
    ensures
      var es := [Register(d), Register(other)];
      Run([a], Load(map[a := RecOf(d)]), es) && !Acceptable(Result([a], Load(map[a := RecOf(d)]), es))
  {
    var r := Load(map[a := RecOf(d)]);
    var e, f := Register(d), Register(other);
    var es := [e, f];
    assert es[1..] == [f] && [f][1..] == [];
    var x := Next([a], r, e);
    var start := r.(alias := r.alias[d := ""]);
    assert [a][1..] == [] && NamesFor([a], r.saved, d) == [a] + NamesFor([], r.saved, d);
    assert AddEach(start, d, [a]) == AddEach(After(start, Add(start, a, d)), d, [a][1..]);
    AddSaved(start, a, d);
    AddKeeps(start, a, d);
    assert x == Assigned(start, a, d);
    assert x.saved == map[];
    assert Enabled(x, f);
    assert NamesFor([a], x.saved, other) == NamesFor([], x.saved, other);
    var y := Next([a], x, f);
    assert y == x.(alias := x.alias[other := ""]);
    assert Result([a], x, [f]) == Result([a], y, []);
  }

  // ---- what the planner refuses ----

  lemma {:induction false} PerformedIsPlanned(r: Registry, p: Plan, z: Registry, items: seq<Item>)
    requires Inv(r) && Describes(r, p, z) && Known(r, items) && Perform(z, items).Done?
    ensures PlanAll(r, p, items).Some?
    decreases |items|
  {
    if items != [] {
      assert items[0] in items;
      SetIsAccepted(r, p, z, items[0]);
      ItemDescribes(r, p, z, items[0]);
      PerformedIsPlanned(r, PlanItem(r, p, items[0]).value, PerformItem(z, items[0]).registry, items[1..]);
    }
  }

  /** With acceptable aliases the planner accepts exactly the batches which succeed. */
  lemma PlannerExact(r: Registry, items: seq<Item>)
    requires Inv(r) && Acceptable(r) && Known(r, items)
    ensures Accepts(r, items) <==> Perform(r, items).Done?
  {
    NothingDescribes(r);
    if Accepts(r, items) {
      PlanIsPerformed(r, NOTHING, r, items);
    }
    if Perform(r, items).Done? {
      PerformedIsPlanned(r, NOTHING, r, items);
    }
  }

  // ---- the loop of the planner ----

  /** _check_aliases() over the assignments of a unit. */
  method CheckItems(r: Registry, items: seq<Item>, start: Plan) returns (plan: Option<Plan>)
    requires Known(r, items)
    ensures plan == PlanAll(r, start, items)
  {
    var planned, free, taken := start.planned, start.free, start.taken;
    var i := 0;
    assert items[0..] == items;
    while i < |items|
      invariant 0 <= i <= |items|
      invariant PlanAll(r, start, items) == PlanAll(r, Plan(planned, free, taken), items[i..])
    {
      assert items[i..][0] == items[i] && items[i..][1..] == items[i + 1..] && items[i] in items;
      var device, alias := items[i].device, items[i].alias;
      i := i + 1;
      var current := if device in planned then planned[device] else r.alias[device];
      if alias == NoValue || alias == Text(current) {
        continue;
      }
      if alias != Text("") {
        var error := CheckAlias(r, alias, device, free);
        if error.Some? || alias.name in taken {
          return None;
        }
        taken := taken + {alias.name};
        free := free - {alias.name};
      }
      if current != "" {
        free := free + {current};
        taken := taken - {current};
      }
      planned := planned[device := alias.name];
    }
    plan := Some(Plan(planned, free, taken));
  }
}
