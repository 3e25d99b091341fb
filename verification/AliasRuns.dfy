/** Runs of registrations, set_alias() and remove() of src/evok/devices.py: the registry is a bijection, and it survives
    a restart. */
module AliasRuns {
  import opened Common
  import opened Aliases

  datatype Event = Register(d: Id) | Assign(d: Id, v: Value) | Drop(a: string)

  predicate Enabled(r: Registry, e: Event) {
    match e
    case Register(d) => d !in r.alias
    case Assign(d, _) => d in r.alias
    case Drop(_) => true
  }

  function Next(order: seq<string>, r: Registry, e: Event): Registry
    requires Enabled(r, e)
  {
    match e
    case Register(d) => RegisterDevice(r, d, NamesFor(order, r.saved, d))
    case Assign(d, v) => After(r, SetAlias(r, v, d))
    case Drop(a) => After(r, Remove(r, a))
  }

  predicate Run(order: seq<string>, r: Registry, es: seq<Event>)
    decreases |es|
  {
    es != [] ==> Enabled(r, es[0]) && Run(order, Next(order, r, es[0]), es[1..])
  }

  function Result(order: seq<string>, r: Registry, es: seq<Event>): Registry
    requires Run(order, r, es)
    decreases |es|
  {
    if es == [] then r else Result(order, Next(order, r, es[0]), es[1..])
  }

  /** alias_dict[a] is d exactly when the alias of d is a, with valid names, none of them also a saved one. */
  ghost predicate Bijection(r: Registry) {
    && (forall a :: a in r.held ==> ValidName(a) && r.held[a] in r.alias && r.alias[r.held[a]] == a)
    && (forall d :: d in r.alias && r.alias[d] != "" ==> r.alias[d] in r.held && r.held[r.alias[d]] == d)
    && r.held.Keys !! r.saved.Keys
  }

  /** No alias saved for a registered device is a valid one, they are assigned. */
  ghost predicate Consumed(r: Registry) {
    forall a, d :: a in r.saved && d in r.alias && r.saved[a] == RecOf(d) ==> !ValidName(a)
  }

  /** The registry after the device got the alias. */
  function Assigned(r: Registry, a: string, d: Id): Registry
    requires d in r.alias
  {
    Registry((r.held - {r.alias[d]})[a := d], r.saved - {a}, r.alias[d := a])
  }

  lemma AssignedKeeps(r: Registry, a: string, d: Id)
    requires Bijection(r) && d in r.alias && ValidName(a) && (a in r.held ==> r.held[a] == d)
    ensures Bijection(Assigned(r, a, d))
  {
  }

  lemma AddAssigns(r: Registry, a: string, d: Id)
    requires Bijection(r) && d in r.alias && a != "" && Add(r, a, d).Done?
    ensures Add(r, a, d).registry == Assigned(r, a, d)
  {
    var x := if r.alias[d] != "" then Delete(r, r.alias[d]) else r;
    assert x.held == r.held - {r.alias[d]};
    assert x.saved == r.saved;
    assert Delete(x, a).held[a := d] == x.held[a := d];
  }

  lemma AddKeeps(r: Registry, a: string, d: Id)
    requires Bijection(r) && d in r.alias && a != "" && Add(r, a, d).Done?
    ensures Add(r, a, d).registry == Assigned(r, a, d) && Bijection(Assigned(r, a, d))
  {
    AddAssigns(r, a, d);
    assert a == r.alias[d] ==> r.held[a] == d && ValidName(a);
    AssignedKeeps(r, a, d);
  }

  /** A saved alias of the device is assigned exactly if its name is valid; the alias before it is lost. */
  lemma AddSaved(r: Registry, a: string, d: Id)
    requires Bijection(r) && d in r.alias && a in SavedFor(r.saved, d) && (a == "" ==> r.alias[d] != "")
    ensures Add(r, a, d).Done? <==> ValidName(a)
    ensures ValidName(a) ==> Save(Assigned(r, a, d)) == if r.alias[d] == "" then Save(r) else Save(r) - {r.alias[d]}
  {
    assert a != r.alias[d];
    if ValidName(a) {
      AssignedSaves(r, a, d);
    }
  }

  lemma AssignedSavesAt(r: Registry, a: string, d: Id, x: string)
    requires Bijection(r) && d in r.alias && a in SavedFor(r.saved, d) && a != r.alias[d]
    ensures var y, z := Save(r), Save(Assigned(r, a, d));
            (x in z <==> x in y && (r.alias[d] == "" || x != r.alias[d])) && (x in z ==> z[x] == y[x])
  {
    assert x != a ==> (x in Assigned(r, a, d).held <==> x in r.held && x != r.alias[d]);
  }

  lemma AssignedSaves(r: Registry, a: string, d: Id)
    requires Bijection(r) && d in r.alias && a in SavedFor(r.saved, d) && a != r.alias[d]
    ensures Save(Assigned(r, a, d)) == if r.alias[d] == "" then Save(r) else Save(r) - {r.alias[d]}
  {
    forall x {
      AssignedSavesAt(r, a, d, x);
    }
  }

  /** At most one of the names is valid, counting the alias the device has. */
  predicate OneValid(alias: string, names: seq<string>)
    decreases |names|
  {
    names == [] ||
    if ValidName(names[0]) then alias == "" && OneValid(names[0], names[1..]) else OneValid(alias, names[1..])
  }

  lemma {:induction false} OneValidMeans(alias: string, names: seq<string>)
    requires forall i, j :: 0 <= i < j < |names| ==> names[i] != names[j]
    ensures OneValid(alias, names) <==>
            (alias != "" ==> forall a :: a in names ==> !ValidName(a)) &&
            (forall a, b :: a in names && b in names && ValidName(a) && ValidName(b) ==> a == b)
    decreases |names|
  {
    if names != [] {
      assert names == [names[0]] + names[1..];
      OneValidMeans(if ValidName(names[0]) then names[0] else alias, names[1..]);
      assert names[0] !in names[1..];
    }
  }

  ghost predicate Saved(names: seq<string>, saved: map<string, Rec>, d: Id) {
    && (forall i :: 0 <= i < |names| ==> names[i] in SavedFor(saved, d))
    && (forall i, j :: 0 <= i < j < |names| ==> names[i] != names[j])
  }

  /** The empty alias comes before the valid ones. add() takes the empty alias of the file for the alias of a device
      which has none, it is not validated. */
  predicate EmptyFirst(names: seq<string>)
    decreases |names|
  {
    names != [] && (names[0] == "" || (!ValidName(names[0]) && EmptyFirst(names[1..])))
  }

  function ValidOf(names: seq<string>): set<string> {
    set a | a in names && ValidName(a)
  }

  lemma ConsumeMore(saved: map<string, Rec>, names: seq<string>)
    requires names != []
    ensures (if ValidName(names[0]) then saved - {names[0]} else saved) - ValidOf(names[1..]) == saved - ValidOf(names)
  {
    assert names == [names[0]] + names[1..];
  }

  /** The registry after the first of the aliases. */
  function First(r: Registry, d: Id, names: seq<string>): Registry
    requires d in r.alias && names != []
  {
    if ValidName(names[0]) then Assigned(r, names[0], d) else r
  }

  lemma AfterFirst(r: Registry, d: Id, names: seq<string>)
    requires Bijection(r) && d in r.alias && Saved(names, r.saved, d)
    requires names != [] && (r.alias[d] != "" || !EmptyFirst(names))
    ensures After(r, Add(r, names[0], d)) == First(r, d, names)
  {
    AddSaved(r, names[0], d);
    if ValidName(names[0]) {
      AddKeeps(r, names[0], d);
    }
  }

  lemma FirstKeeps(r: Registry, d: Id, names: seq<string>)
    requires Bijection(r) && d in r.alias && Saved(names, r.saved, d)
    requires names != [] && (r.alias[d] != "" || !EmptyFirst(names))
    ensures var y := First(r, d, names);
            Bijection(y) && Saved(names[1..], y.saved, d) && (y.alias[d] != "" || !EmptyFirst(names[1..]))
  {
    assert names[0] in r.saved;
    if ValidName(names[0]) {
      AssignedKeeps(r, names[0], d);
    }
  }

  /** The aliases saved for a device are assigned: the registry stays a bijection, and the valid ones are consumed. */
  lemma {:induction false} AddEachKeeps(r: Registry, d: Id, names: seq<string>)
    requires Bijection(r) && d in r.alias && Saved(names, r.saved, d) && (r.alias[d] != "" || !EmptyFirst(names))
    ensures Bijection(AddEach(r, d, names)) && AddEach(r, d, names).alias.Keys == r.alias.Keys
    ensures AddEach(r, d, names).saved == r.saved - ValidOf(names)
    decreases |names|
  {
    if names != [] {
      AfterFirst(r, d, names);
      FirstKeeps(r, d, names);
      AddEachKeeps(First(r, d, names), d, names[1..]);
      ConsumeMore(r.saved, names);
    }
  }

  /** The file is the same exactly if at most one of the aliases is valid. */
  lemma {:induction false} AddEachSaves(r: Registry, d: Id, names: seq<string>)
    requires Bijection(r) && d in r.alias && Saved(names, r.saved, d) && (r.alias[d] != "" || !EmptyFirst(names))
    ensures Save(AddEach(r, d, names)).Keys <= Save(r).Keys
    ensures Save(AddEach(r, d, names)) == Save(r) <==> OneValid(r.alias[d], names)
    decreases |names|
  {
    if names != [] {
      AfterFirst(r, d, names);
      FirstKeeps(r, d, names);
      AddSaved(r, names[0], d);
      AddEachSaves(First(r, d, names), d, names[1..]);
      assert r.alias[d] != "" ==> r.alias[d] in Save(r).Keys;
    }
  }

  lemma {:induction false} EmptyAliasStays(r: Registry, d: Id, names: seq<string>)
    requires d in r.alias && "" in r.held
    ensures "" in AddEach(r, d, names).held
    decreases |names|
  {
    if names != [] {
      var o := Add(r, names[0], d);
      if o.Done? {
        EmptyAliasStays(o.registry, d, names[1..]);
      } else {
        EmptyAliasStays(r, d, names[1..]);
      }
    }
  }

  lemma {:induction false} EmptyAliasIsAdded(r: Registry, d: Id, names: seq<string>)
    requires Bijection(r) && d in r.alias && r.alias[d] == "" && Saved(names, r.saved, d) && EmptyFirst(names)
    ensures "" in AddEach(r, d, names).held
    decreases |names|
  {
    var o := Add(r, names[0], d);
    if names[0] == "" {
      EmptyAliasStays(o.registry, d, names[1..]);
    } else {
      AddSaved(r, names[0], d);
      EmptyAliasIsAdded(r, d, names[1..]);
    }
  }

  lemma NewDevice(r: Registry, d: Id, names: seq<string>)
    requires Bijection(r) && d !in r.alias && Lists(names, r.saved, d)
    ensures Bijection(r.(alias := r.alias[d := ""])) && Saved(names, r.saved, d)
  {
  }

  /** Registering a device keeps the bijection exactly unless the empty alias is saved for it, before a valid one. */
  lemma RegisterKeepsExactly(r: Registry, d: Id, names: seq<string>)
    requires Bijection(r) && d !in r.alias && Lists(names, r.saved, d)
    ensures Bijection(RegisterDevice(r, d, names)) <==> !EmptyFirst(names)
  {
    NewDevice(r, d, names);
    if EmptyFirst(names) {
      EmptyAliasIsAdded(r.(alias := r.alias[d := ""]), d, names);
    } else {
      AddEachKeeps(r.(alias := r.alias[d := ""]), d, names);
    }
  }

  /** Registering a device keeps the file exactly if at most one valid alias is saved for it. */
  lemma RegisterSavesExactly(r: Registry, d: Id, names: seq<string>)
    requires Bijection(r) && d !in r.alias && Lists(names, r.saved, d) && !EmptyFirst(names)
    ensures Save(RegisterDevice(r, d, names)) == Save(r) <==>
            forall a, b :: a in SavedFor(r.saved, d) && b in SavedFor(r.saved, d) && ValidName(a) && ValidName(b) ==>
              a == b
  {
    NewDevice(r, d, names);
    var y := r.(alias := r.alias[d := ""]);
    AddEachSaves(y, d, names);
    assert Save(y) == Save(r);
    OneValidMeans("", names);
  }

  // ---- runs ----

  ghost predicate Inv(r: Registry) {
    Bijection(r) && Consumed(r)
  }

  lemma {:induction false} NamesAreSaved(order: seq<string>, saved: map<string, Rec>, d: Id, a: string)
    ensures a in NamesFor(order, saved, d) <==> a in order && a in SavedFor(saved, d)
  {
    if order != [] {
      NamesAreSaved(order[1..], saved, d, a);
      assert order == [order[0]] + order[1..];
    }
  }

  lemma {:induction false} NamesAreDistinct(order: seq<string>, saved: map<string, Rec>, d: Id)
    requires forall i, j :: 0 <= i < j < |order| ==> order[i] != order[j]
    ensures var r := NamesFor(order, saved, d); forall i, j :: 0 <= i < j < |r| ==> r[i] != r[j]
  {
    if order != [] {
      NamesAreDistinct(order[1..], saved, d);
      NamesAreSaved(order[1..], saved, d, order[0]);
      assert order[0] !in order[1..];
    }
  }

  lemma NamesAreListed(order: seq<string>, saved: map<string, Rec>, d: Id)
    requires IsOrder(order, saved)
    ensures Lists(NamesFor(order, saved, d), saved, d)
  {
    NamesAreDistinct(order, saved, d);
    forall a
      ensures a in NamesFor(order, saved, d) <==> a in SavedFor(saved, d)
    {
      NamesAreSaved(order, saved, d, a);
    }
  }

  lemma {:induction false} EmptyFirstHasEmpty(names: seq<string>)
    requires EmptyFirst(names)
    ensures "" in names
    decreases |names|
  {
    if names[0] != "" {
      EmptyFirstHasEmpty(names[1..]);
    }
  }

  lemma RegisterKeeps(r: Registry, d: Id, names: seq<string>)
    requires Inv(r) && d !in r.alias && Lists(names, r.saved, d) && !EmptyFirst(names)
    ensures Inv(RegisterDevice(r, d, names))
    ensures RegisterDevice(r, d, names).saved == r.saved - ValidOf(names)
    ensures RegisterDevice(r, d, names).alias.Keys == r.alias.Keys + {d}
  {
    NewDevice(r, d, names);
    AddEachKeeps(r.(alias := r.alias[d := ""]), d, names);
  }

  /** The registry after the device lost its alias. */
  function Released(r: Registry, d: Id): Registry
    requires d in r.alias
  {
    Registry(r.held - {r.alias[d]}, r.saved, r.alias[d := ""])
  }

  /** Why a new alias of a device is refused: it is not a string, another device has it or it is saved for another one,
      its name is not valid, or it is a circuit of the type. */
  predicate IsRefused(r: Registry, v: Value, d: Id)
    requires d in r.alias
  {
    v == NotString ||
    (v.Text? && v.name != "" && v.name != r.alias[d] &&
     (|| v.name in r.held
      || (v.name in r.saved && r.saved[v.name] != RecOf(d))
      || !ValidName(v.name)
      || Id(d.devtype, v.name) in r.alias))
  }

  /** set_alias() keeps the registry, gives the device a new valid alias, or resets it; nothing else changes but that
      the alias is no longer a saved one. */
  lemma SetAliasChanges(r: Registry, v: Value, d: Id)
    requires Inv(r) && d in r.alias
    ensures
      match SetAlias(r, v, d)
      case Refused(_) => IsRefused(r, v, d)
      case Done(z) =>
        !IsRefused(r, v, d) &&
        if v.Text? && v.name != ""
        then z == (if v.name == r.alias[d] then r else Assigned(r, v.name, d)) && ValidName(v.name)
        else z == Released(r, d)
  {
    if v.Text? && v.name != "" && v.name != r.alias[d] && SetAlias(r, v, d).Done? {
      AddAssigns(r, v.name, d);
    } else if v == NoValue || v == Text("") {
      assert "" !in r.held;
      assert r.alias[d] == "" ==> r.held - {""} == r.held;
      assert r.alias[d] != "" ==> r.saved - {r.alias[d]} == r.saved;
    }
  }

  lemma SetAliasKeeps(r: Registry, v: Value, d: Id)
    requires Inv(r) && d in r.alias
    ensures Inv(After(r, SetAlias(r, v, d)))
    ensures After(r, SetAlias(r, v, d)).saved.Keys <= r.saved.Keys
  {
    SetAliasChanges(r, v, d);
    var o := SetAlias(r, v, d);
    if o.Done? && v.Text? && v.name != "" && v.name != r.alias[d] {
      assert v.name !in r.held;
      AssignedKeeps(r, v.name, d);
    }
  }

  /** remove() of a known alias takes it out of both dictionaries and from its device; nothing else changes. */
  lemma RemoveForgets(r: Registry, a: string)
    requires Bijection(r)
    ensures Remove(r, a).Refused? <==> a !in r.held && a !in r.saved
    ensures Remove(r, a).Done? ==>
              var z := Remove(r, a).registry;
              && a !in z.held && a !in z.saved && (forall d :: d in z.alias && a != "" ==> z.alias[d] != a)
              && (forall x :: x != a ==> (x in z.held <==> x in r.held) && (x in r.held ==> z.held[x] == r.held[x]))
              && (forall x :: x != a ==>
                    (x in z.saved <==> x in r.saved) && (x in r.saved ==> z.saved[x] == r.saved[x]))
              && z.alias.Keys == r.alias.Keys
              && (forall d :: d in r.alias ==> z.alias[d] == if a in r.held && d == r.held[a] then "" else r.alias[d])
  {
  }

  lemma RemoveKeeps(r: Registry, a: string)
    requires Inv(r)
    ensures Inv(After(r, Remove(r, a)))
  {
  }

  lemma NextKeeps(order: seq<string>, r: Registry, e: Event)
    requires Inv(r) && IsOrder(order, r.saved) && Enabled(r, e)
    requires e.Register? ==> !EmptyFirst(NamesFor(order, r.saved, e.d))
    ensures Inv(Next(order, r, e)) && IsOrder(order, Next(order, r, e).saved)
    ensures forall a :: a in Next(order, r, e).saved ==> a in r.saved && Next(order, r, e).saved[a] == r.saved[a]
    ensures Next(order, r, e).alias.Keys == r.alias.Keys + if e.Register? then {e.d} else {}
  {
    match e
    case Register(d) =>
      NamesAreListed(order, r.saved, d);
      RegisterKeeps(r, d, NamesFor(order, r.saved, d));
    case Assign(d, v) =>
      SetAliasKeeps(r, v, d);
      SetAliasChanges(r, v, d);
    case Drop(a) => RemoveKeeps(r, a);
  }

  /** The empty alias is saved for some device. */
  predicate EmptyIsSaved(file: map<string, Rec>) {
    "" in file && file[""].devtype.Some? && file[""].circuit.Some?
  }

  lemma NoEmptyFirst(order: seq<string>, saved: map<string, Rec>, d: Id)
    requires EmptyFirst(NamesFor(order, saved, d))
    ensures "" in saved && saved[""] == RecOf(d)
  {
    EmptyFirstHasEmpty(NamesFor(order, saved, d));
    NamesAreSaved(order, saved, d, "");
  }

  lemma {:induction false} RunKeeps(order: seq<string>, r: Registry, es: seq<Event>)
    requires Inv(r) && IsOrder(order, r.saved) && !EmptyIsSaved(r.saved) && Run(order, r, es)
    ensures Inv(Result(order, r, es))
    ensures forall a :: a in Result(order, r, es).saved ==> a in r.saved && Result(order, r, es).saved[a] == r.saved[a]
    decreases |es|
  {
    if es != [] {
      if es[0].Register? && EmptyFirst(NamesFor(order, r.saved, es[0].d)) {
        NoEmptyFirst(order, r.saved, es[0].d);
      }
      NextKeeps(order, r, es[0]);
      RunKeeps(order, Next(order, r, es[0]), es[1..]);
    }
  }

  /** Over any run alias_dict[a] is d exactly when the alias of d is a, and no such alias is also in initial_dict. */
  lemma AliasBijection(order: seq<string>, file: map<string, Rec>, es: seq<Event>, a: string, d: Id)
    requires IsOrder(order, file) && !EmptyIsSaved(file) && Run(order, Load(file), es)
    ensures
      var z := Result(order, Load(file), es);
      && (a in z.held && z.held[a] == d <==> a != "" && d in z.alias && z.alias[d] == a)
      && z.held.Keys !! z.saved.Keys
  {
    RunKeeps(order, Load(file), es);
    assert !ValidName("");
  }

  // ---- exactly which files keep the bijection ----

  ghost predicate RunsToBijection(order: seq<string>, file: map<string, Rec>, es: seq<Event>) {
    Run(order, Load(file), es) ==> Bijection(Result(order, Load(file), es))
  }

  /** The device of the empty alias. */
  function EmptyDevice(file: map<string, Rec>): Id
    requires EmptyIsSaved(file)
  {
    Id(file[""].devtype.value, file[""].circuit.value)
  }

  lemma RegistrationBreaks(order: seq<string>, r: Registry, d: Id)
    requires Bijection(r) && IsOrder(order, r.saved) && d !in r.alias && EmptyFirst(NamesFor(order, r.saved, d))
    ensures Run(order, r, [Register(d)]) && !Bijection(Result(order, r, [Register(d)]))
  {
    NamesAreListed(order, r.saved, d);
    RegisterKeepsExactly(r, d, NamesFor(order, r.saved, d));
    var e := Register(d);
    assert [e][1..] == [];
    assert Result(order, Next(order, r, e), []) == Next(order, r, e);
  }

  lemma OnlyName(names: seq<string>)
    requires "" in names && forall a :: a in names ==> a == ""
    ensures EmptyFirst(names)
  {
    assert names[0] in names;
  }

  /** The other aliases saved for the device are removed before it is registered; then its empty alias is added. */
  lemma {:induction false} RemovedThenRegistered(order: seq<string>, r: Registry, d: Id, rest: set<string>)
    returns (es: seq<Event>)
    requires Bijection(r) && IsOrder(order, r.saved) && r.alias == map[] && r.held == map[]
    requires "" in r.saved && r.saved[""] == RecOf(d) && rest == SavedFor(r.saved, d) - {""}
    ensures Run(order, r, es) && !Bijection(Result(order, r, es))
    decreases |rest|
  {
    if rest == {} {
      var names := NamesFor(order, r.saved, d);
      forall a
        ensures a in names <==> a == ""
      {
        NamesAreSaved(order, r.saved, d, a);
        assert a in SavedFor(r.saved, d) && a != "" ==> a in rest;
      }
      OnlyName(names);
      RegistrationBreaks(order, r, d);
      es := [Register(d)];
    } else {
      var a :| a in rest;
      var y := Next(order, r, Drop(a));
      assert y == r.(saved := r.saved - {a});
      var tail := RemovedThenRegistered(order, y, d, rest - {a});
      es := [Drop(a)] + tail;
      assert es[1..] == tail;
    }
  }

  /** For a file with the alias a and then the empty one, both of the same device: a is removed before the device is
      registered. */
  lemma {:induction false} RemovedBeforeEmpty(d: Id, a: string)
    requires ValidName(a)
    ensures
      var order, file := [a, ""], map[a := RecOf(d), "" := RecOf(d)];
      Run(order, Load(file), [Drop(a), Register(d)]) && !Bijection(Result(order, Load(file), [Drop(a), Register(d)]))
  {
    var order, r := [a, ""], Load(map[a := RecOf(d), "" := RecOf(d)]);
    var es := [Drop(a), Register(d)];
    var y := Next(order, r, Drop(a));
    assert es[1..] == [Register(d)] && order[1..] == [""] && order[1..][1..] == [];
    assert y == Load(map["" := RecOf(d)]);
    assert NamesFor([""], y.saved, d) == [""];
    assert NamesFor(order, y.saved, d) == [""];
    OnlyName([""]);
    RegistrationBreaks(order, y, d);
  }

  /** The registry is a bijection over every run exactly if the file has no empty alias of a device, wherever it stands:
      the valid aliases before it can be removed before the device is registered. */
  lemma BijectionExactly(order: seq<string>, file: map<string, Rec>)
    requires IsOrder(order, file)
    ensures (forall es :: RunsToBijection(order, file, es)) <==> !EmptyIsSaved(file)
  {
    if EmptyIsSaved(file) {
      var d := EmptyDevice(file);
      var es := RemovedThenRegistered(order, Load(file), d, SavedFor(file, d) - {""});
      assert !RunsToBijection(order, file, es);
    } else {
      forall es
        ensures RunsToBijection(order, file, es)
      {
        if Run(order, Load(file), es) {
          RunKeeps(order, Load(file), es);
        }
      }
    }
  }

  /** Which error an alias has, in this order: held by a device, saved for another one, not a name, reserved. */
  lemma ValidateErrors(r: Registry, a: string, d: Id, free: set<string>)
    ensures
      var held, others := a in r.held && a !in free, a in r.saved && r.saved[a] != RecOf(d);
      match Validate(r.held, r.saved, a, d, free)
      case Some(Duplicate) => held
      case Some(BelongsToOther) => others && !held
      case Some(Reserved) => a == "all" && !held && !others
      case Some(InvalidName) => !ValidName(a) && a != "all" && !held && !others
      case Some(_) => false
      case None => ValidName(a) && !held && !others
  {
  }

  /** Which error a request of an alias has: not a text, the circuit of a device, else the one of the alias. */
  lemma CheckAliasErrors(r: Registry, v: Value, d: Id, free: set<string>)
    requires d in r.alias
    ensures CheckAlias(r, v, d, free) == Some(NotText) <==> v == NotString
    ensures CheckAlias(r, v, d, free) == Some(IsCircuit) <==>
            v.Text? && v.name != "" && v.name != r.alias[d] && Id(d.devtype, v.name) in r.alias
    ensures CheckAlias(r, v, d, free).None? <==>
            v == NoValue || v == Text("") || v == Text(r.alias[d]) ||
            (v.Text? && Id(d.devtype, v.name) !in r.alias && ValidName(v.name) &&
             (v.name in r.held ==> v.name in free) && (v.name in r.saved ==> r.saved[v.name] == RecOf(d)))
  {
    if v.Text? {
      ValidateErrors(r, v.name, d, free);
    }
  }

  /** The names of a device stand in the order of the file. */
  lemma {:induction false} NamesFollowOrder(order: seq<string>, saved: map<string, Rec>, d: Id, i: nat, j: nat)
    requires i < j < |order| && order[i] in SavedFor(saved, d) && order[j] in SavedFor(saved, d)
    ensures exists p, q :: 0 <= p < q < |NamesFor(order, saved, d)| &&
                           NamesFor(order, saved, d)[p] == order[i] && NamesFor(order, saved, d)[q] == order[j]
  {
    var rest, names := NamesFor(order[1..], saved, d), NamesFor(order, saved, d);
    if i == 0 {
      NamesAreSaved(order[1..], saved, d, order[j]);
      assert order[1..][j - 1] == order[j];
      var q :| 0 <= q < |rest| && rest[q] == order[j];
      assert names[0] == order[0] && names[q + 1] == order[j];
    } else {
      NamesFollowOrder(order[1..], saved, d, i - 1, j - 1);
      var p, q :| 0 <= p < q < |rest| && rest[p] == order[i] && rest[q] == order[j];
      var n := |names| - |rest|;
      assert names[p + n] == order[i] && names[q + n] == order[j];
    }
  }

  /** The file has the record of the holder of each alias, and the saved records which nobody holds. */
  lemma SavedRecord(r: Registry, a: string)
    ensures a in Save(r) <==> a in r.held || a in r.saved
    ensures a in Save(r) ==> Save(r)[a] == if a in r.held then RecOf(r.held[a]) else r.saved[a]
  {
  }

  // ---- the same without remove() ----

  predicate RemovesNone(es: seq<Event>) {
    forall i :: 0 <= i < |es| ==> !es[i].Drop?
  }

  /** The empty alias of a device stands in the file before the valid ones of the device. */
  predicate EmptyIsAdded(order: seq<string>, file: map<string, Rec>) {
    EmptyIsSaved(file) && EmptyFirst(NamesFor(order, file, EmptyDevice(file)))
  }

  /** The aliases of the devices not registered yet are as in the file. */
  ghost predicate AsInFile(r: Registry, file: map<string, Rec>) {
    forall d :: d !in r.alias ==> SavedFor(r.saved, d) == SavedFor(file, d)
  }

  lemma {:induction false} SameNames(order: seq<string>, saved: map<string, Rec>, file: map<string, Rec>, d: Id)
    requires SavedFor(saved, d) == SavedFor(file, d)
    ensures NamesFor(order, saved, d) == NamesFor(order, file, d)
  {
    if order != [] {
      SameNames(order[1..], saved, file, d);
    }
  }

  lemma AssignedStaysAsInFile(r: Registry, v: Value, d: Id, file: map<string, Rec>)
    requires Inv(r) && AsInFile(r, file) && d in r.alias
    ensures AsInFile(After(r, SetAlias(r, v, d)), file)
  {
    SetAliasChanges(r, v, d);
    var z := After(r, SetAlias(r, v, d));
    forall x | x !in z.alias
      ensures SavedFor(z.saved, x) == SavedFor(file, x)
    {
      assert SavedFor(r.saved, x) == SavedFor(file, x);
      assert SavedFor(z.saved, x) == SavedFor(r.saved, x);
    }
  }

  lemma RegisteredStaysAsInFile(r: Registry, d: Id, names: seq<string>, file: map<string, Rec>)
    requires Inv(r) && AsInFile(r, file) && d !in r.alias && Lists(names, r.saved, d) && !EmptyFirst(names)
    ensures AsInFile(RegisterDevice(r, d, names), file)
  {
    RegisterKeeps(r, d, names);
    var z := RegisterDevice(r, d, names);
    forall x | x !in z.alias
      ensures SavedFor(z.saved, x) == SavedFor(file, x)
    {
      assert SavedFor(r.saved, x) == SavedFor(file, x);
      forall a | a in SavedFor(r.saved, x)
        ensures a !in names
      {
        assert a !in SavedFor(r.saved, d);
      }
      assert SavedFor(z.saved, x) == SavedFor(r.saved, x);
    }
  }

  lemma {:induction false} RunKeepsWithoutRemove(order: seq<string>, r: Registry, es: seq<Event>,
                                                 file: map<string, Rec>)
    requires Inv(r) && IsOrder(order, r.saved) && AsInFile(r, file) && !EmptyIsAdded(order, file)
    requires Run(order, r, es) && RemovesNone(es)
    ensures Inv(Result(order, r, es))
    decreases |es|
  {
    if es != [] {
      var e := es[0];
      if e.Register? {
        SameNames(order, r.saved, file, e.d);
        if EmptyFirst(NamesFor(order, r.saved, e.d)) {
          NoEmptyFirst(order, file, e.d);
        }
        NamesAreListed(order, r.saved, e.d);
        RegisteredStaysAsInFile(r, e.d, NamesFor(order, r.saved, e.d), file);
      } else {
        AssignedStaysAsInFile(r, e.v, e.d, file);
      }
      NextKeeps(order, r, e);
      RunKeepsWithoutRemove(order, Next(order, r, e), es[1..], file);
    }
  }

  ghost predicate RegistersToBijection(order: seq<string>, file: map<string, Rec>, es: seq<Event>) {
    RemovesNone(es) ==> RunsToBijection(order, file, es)
  }

  /** Over every run of registrations and set_alias() exactly if no device has an empty alias in the file before its
      valid ones. */
  lemma BijectionExactlyWithoutRemove(order: seq<string>, file: map<string, Rec>)
    requires IsOrder(order, file)
    ensures (forall es :: RegistersToBijection(order, file, es)) <==> !EmptyIsAdded(order, file)
  {
    if EmptyIsAdded(order, file) {
      RegistrationBreaks(order, Load(file), EmptyDevice(file));
      assert !RegistersToBijection(order, file, [Register(EmptyDevice(file))]);
    } else {
      forall es
        ensures RegistersToBijection(order, file, es)
      {
        if RemovesNone(es) && Run(order, Load(file), es) {
          RunKeepsWithoutRemove(order, Load(file), es, file);
        }
      }
    }
  }

  // ---- the restart ----

  predicate Assignable(file: map<string, Rec>, a: string) {
    a in file && file[a].devtype.Some? && file[a].circuit.Some? && ValidName(a)
  }

  /** At most one valid alias is saved for each device. */
  ghost predicate OnePerDevice(file: map<string, Rec>) {
    forall a, b :: Assignable(file, a) && Assignable(file, b) && file[a] == file[b] ==> a == b
  }

  lemma SaveIsOnePerDevice(r: Registry)
    requires Inv(r) && OnePerDevice(r.saved)
    ensures OnePerDevice(Save(r))
  {
  }

  predicate OnlyRegisters(es: seq<Event>) {
    forall e :: e in es ==> e.Register?
  }

  lemma RegisterSaves(r: Registry, d: Id, names: seq<string>)
    requires Inv(r) && d !in r.alias && Lists(names, r.saved, d) && !EmptyFirst(names) && OnePerDevice(r.saved)
    ensures Save(RegisterDevice(r, d, names)) == Save(r)
  {
    RegisterSavesExactly(r, d, names);
  }

  lemma {:induction false} RegistrationsSave(order: seq<string>, r: Registry, es: seq<Event>)
    requires Inv(r) && IsOrder(order, r.saved) && !EmptyIsSaved(r.saved) && OnePerDevice(r.saved)
    requires Run(order, r, es) && OnlyRegisters(es)
    ensures Save(Result(order, r, es)) == Save(r)
    decreases |es|
  {
    if es != [] {
      var d := es[0].d;
      assert es[0] in es;
      if EmptyFirst(NamesFor(order, r.saved, d)) {
        NoEmptyFirst(order, r.saved, d);
      }
      NextKeeps(order, r, es[0]);
      NamesAreListed(order, r.saved, d);
      RegisterSaves(r, d, NamesFor(order, r.saved, d));
      RegistrationsSave(order, Next(order, r, es[0]), es[1..]);
    }
  }

  /** A registered device has the alias which the file has for it. */
  lemma SameFileSameAlias(r: Registry, z: Registry, d: Id)
    requires Inv(r) && Inv(z) && Save(r) == Save(z) && d in r.alias && d in z.alias
    ensures z.alias[d] == r.alias[d]
  {
    if r.alias[d] != "" {
      assert Save(r)[r.alias[d]] == RecOf(d);
      assert r.alias[d] in Save(z);
    }
    if z.alias[d] != "" {
      assert Save(z)[z.alias[d]] == RecOf(d);
      assert z.alias[d] in Save(r);
    }
  }

  lemma LoadKeeps(file: map<string, Rec>)
    ensures Inv(Load(file)) && Save(Load(file)) == file
  {
  }

  lemma RestartOf(order: seq<string>, r: Registry, es: seq<Event>, d: Id)
    requires Inv(r) && !EmptyIsSaved(r.saved) && OnePerDevice(r.saved)
    requires IsOrder(order, Save(r)) && Run(order, Load(Save(r)), es) && OnlyRegisters(es)
    ensures Save(Result(order, Load(Save(r)), es)) == Save(r)
    ensures d in r.alias && d in Result(order, Load(Save(r)), es).alias ==>
              Result(order, Load(Save(r)), es).alias[d] == r.alias[d]
  {
    var file := Save(r);
    assert "" !in r.held;
    LoadKeeps(file);
    SaveIsOnePerDevice(r);
    RegistrationsSave(order, Load(file), es);
    RunKeeps(order, Load(file), es);
    var z := Result(order, Load(file), es);
    if d in r.alias && d in z.alias {
      SameFileSameAlias(r, z, d);
    }
  }

  /** Restart after any run: the file of the registry is loaded, in any order of its keys, and any of the devices are
      registered in any order. The file stays the same, and every device which is registered again has its alias
      again. */
  lemma RestartKeepsAliases(order: seq<string>, file: map<string, Rec>, before: seq<Event>, again: seq<string>,
                            es: seq<Event>, d: Id)
    requires IsOrder(order, file) && !EmptyIsSaved(file) && OnePerDevice(file) && Run(order, Load(file), before)
    requires IsOrder(again, Save(Result(order, Load(file), before)))
    requires Run(again, Load(Save(Result(order, Load(file), before))), es) && OnlyRegisters(es)
    ensures
      var r := Result(order, Load(file), before);
      var z := Result(again, Load(Save(r)), es);
      Save(z) == Save(r) && (d in r.alias && d in z.alias ==> z.alias[d] == r.alias[d])
  {
    LoadKeeps(file);
    RunKeeps(order, Load(file), before);
    var r := Result(order, Load(file), before);
    assert OnePerDevice(r.saved) by {
      assert forall a :: Assignable(r.saved, a) ==> Assignable(file, a);
    }
    RestartOf(again, r, es, d);
  }
}
