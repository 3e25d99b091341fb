/** The registry of the devices, src/evok/devices.py: the dictionaries of Aliases and DeviceList, changed in place. */
module DeviceLists {
  import opened Common
  import opened Aliases
  import opened AliasRuns

  class Device {
    const id: Id
    var alias: string

    constructor (id: Id)
      ensures this.id == id && alias == ""
    {
      this.id, alias := id, "";
    }
  }

  function Ids(dict: map<string, Device>): map<string, Id> {
    map a | a in dict :: dict[a].id
  }

  class AliasDict {
    var aliasDict: map<string, Device>
    var initialDict: map<string, Rec>
    const order: seq<string>  // the keys of the loaded file, in its order

    constructor (initial: map<string, Rec>, order: seq<string>)
      ensures aliasDict == map[] && initialDict == initial && this.order == order
    {
      aliasDict, initialDict, this.order := map[], initial, order;
    }

    method DoValidate(alias: string, device: Device, free: set<string>) returns (e: Option<Error>)
      ensures e == Validate(Ids(aliasDict), initialDict, alias, device.id, free)
    {
      if alias in aliasDict && alias !in free {
        return Some(Duplicate);
      }
      if alias in initialDict {
        var rec := initialDict[alias];
        if rec.devtype != Some(device.id.devtype) || rec.circuit != Some(device.id.circuit) {
          return Some(BelongsToOther);
        }
      }
      if alias == "" || (exists c :: c in alias && !NameChar(c)) || |alias| > MAX_ALIAS_LENGTH {
        return Some(InvalidName);
      }
      e := if alias == "all" then Some(Reserved) else None;
    }

    method DoDelete(alias: string)
      modifies this
      ensures aliasDict == old(aliasDict) - {alias} && initialDict == old(initialDict) - {alias}
    {
      if alias in aliasDict {
        aliasDict := aliasDict - {alias};
      }
      if alias in initialDict {
        initialDict := initialDict - {alias};
      }
    }

    /** The dictionaries with the alias of one device. */
    ghost function ViewOf(device: Device): Registry
      reads this, device
    {
      Registry(Ids(aliasDict), initialDict, map[device.id := device.alias])
    }

    /** Deletes an alias which is not empty. */
    method Forget(alias: string, device: Device)
      modifies this
      ensures ViewOf(device) == if alias != "" then Delete(old(ViewOf(device)), alias) else old(ViewOf(device))
      ensures forall a :: a in aliasDict ==> a in old(aliasDict) && aliasDict[a] == old(aliasDict)[a]
    {
      ghost var r := ViewOf(device);
      if alias != "" {
        DoDelete(alias);
        assert ViewOf(device) == Delete(r, alias);
      }
    }

    /** add() after the validation. */
    method Replace(alias: string, device: Device)
      modifies this
      ensures
        var r := old(ViewOf(device));
        var x := if device.alias != "" then Delete(r, device.alias) else r;
        var y := if alias != "" then Delete(x, alias) else x;
        ViewOf(device) == y.(held := y.held[alias := device.id])
      ensures forall a :: a in aliasDict ==>
                aliasDict[a] == device || (a in old(aliasDict) && aliasDict[a] == old(aliasDict)[a])
    {
      Forget(device.alias, device);
      Forget(alias, device);
      ghost var y := ViewOf(device);
      aliasDict := aliasDict[alias := device];
      assert Ids(aliasDict) == y.held[alias := device.id];
    }

    method DoAdd(alias: string, device: Device) returns (e: Option<Error>)
      modifies this
      ensures e == match Add(old(ViewOf(device)), alias, device.id) case Refused(x) => Some(x) case Done(_) => None
      ensures e.Some? ==> unchanged(this)
      ensures e.None? ==>
                ViewOf(device).(alias := map[device.id := alias]) == Add(old(ViewOf(device)), alias, device.id).registry
      ensures forall a :: a in aliasDict ==>
                aliasDict[a] == device || (a in old(aliasDict) && aliasDict[a] == old(aliasDict)[a])
    {
      e := None;
      if alias != device.alias {
        e := DoValidate(alias, device, {});
      }
      if e.None? {
        Replace(alias, device);
      }
    }

    /** The aliases saved for a device, in the order of the dictionary. */
    method AliasesByCircuit(d: Id) returns (names: seq<string>)
      ensures names == NamesFor(order, initialDict, d)
    {
      names := [];
      assert order[0..] == order;
      for i := 0 to |order|
        invariant NamesFor(order, initialDict, d) == names + NamesFor(order[i..], initialDict, d)
      {
        assert order[i..][0] == order[i] && order[i..][1..] == order[i + 1..];
        if order[i] in initialDict {
          var rec := initialDict[order[i]];
          if rec.devtype == Some(d.devtype) && rec.circuit == Some(d.circuit) {
            names := names + [order[i]];
          }
        }
      }
    }

    method DictToSave() returns (file: map<string, Rec>)
      ensures file == Save(Registry(Ids(aliasDict), initialDict, map[]))
    {
      file := initialDict + map a | a in aliasDict :: RecOf(aliasDict[a].id);
      assert forall a :: a in aliasDict ==> Ids(aliasDict)[a] == aliasDict[a].id;
    }
  }

  class DeviceList {
    const aliases: AliasDict
    var devices: map<Id, Device>

    ghost predicate Valid()
      reads this, aliases
    {
      && (forall d :: d in devices ==> devices[d].id == d)
      && (forall a :: a in aliases.aliasDict ==>
            aliases.aliasDict[a].id in devices && devices[aliases.aliasDict[a].id] == aliases.aliasDict[a])
    }

    ghost function View(): Registry
      reads this, aliases, devices.Values
    {
      Registry(Ids(aliases.aliasDict), aliases.initialDict,
               map d | d in devices :: (assert devices[d] in devices.Values; devices[d].alias))
    }

    constructor (initial: map<string, Rec>, order: seq<string>)
      ensures Valid() && View() == Load(initial) && fresh(aliases) && aliases.order == order
    {
      aliases := new AliasDict(initial, order);
      devices := map[];
    }

    ghost predicate Registered(device: Device)
      reads this
    {
      device.id in devices && devices[device.id] == device
    }

    lemma AddIsLocal(r: Registry, alias: string, d: Id)
      requires d in r.alias
      ensures
        var one := Add(r.(alias := map[d := r.alias[d]]), alias, d);
        Add(r, alias, d) == if one.Refused? then one else Done(one.registry.(alias := r.alias[d := alias]))
    {
    }

    /** add() and the assignment of the alias. */
    method AddAlias(alias: string, device: Device) returns (e: Option<Error>)
      requires Valid() && Registered(device)
      modifies aliases, device
      ensures Valid() && View() == After(old(View()), Add(old(View()), alias, device.id))
      ensures e == match Add(old(View()), alias, device.id) case Refused(x) => Some(x) case Done(_) => None
    {
      ghost var was := View();
      AddIsLocal(was, alias, device.id);
      assert aliases.ViewOf(device) == was.(alias := map[device.id := was.alias[device.id]]);
      e := aliases.DoAdd(alias, device);
      if e.None? {
        device.alias := alias;
        assert View().alias == was.alias[device.id := alias];
      }
    }

    method AddSavedAliases(names: seq<string>, device: Device)
      requires Valid() && Registered(device)
      modifies aliases, device
      ensures Valid() && View() == AddEach(old(View()), device.id, names)
    {
      var i := 0;
      assert names[0..] == names;
      while i < |names|
        invariant 0 <= i <= |names| && Valid()
        invariant AddEach(old(View()), device.id, names) == AddEach(View(), device.id, names[i..])
      {
        assert names[i..][0] == names[i] && names[i..][1..] == names[i + 1..];
        var _ := AddAlias(names[i], device);
        i := i + 1;
      }
    }

    method DoRegister(device: Device)
      requires Valid() && device.id !in devices && device.alias == ""
      modifies this, aliases, device
      ensures Valid()
      ensures View() ==
              RegisterDevice(old(View()), device.id, NamesFor(aliases.order, old(aliases.initialDict), device.id))
    {
      ghost var was := View();
      devices := devices[device.id := device];
      ghost var start := was.(alias := was.alias[device.id := ""]);
      assert View().alias == start.alias;
      assert View() == start;
      var names := aliases.AliasesByCircuit(device.id);
      assert View() == start;
      AddSavedAliases(names, device);
    }

    method DoCheckAlias(v: Value, device: Device, free: set<string>) returns (e: Option<Error>)
      requires Valid() && Registered(device)
      ensures e == CheckAlias(View(), v, device.id, free)
    {
      if v == NoValue || v == Text("") || v == Text(device.alias) {
        return None;
      }
      if v == NotString {
        return Some(NotText);
      }
      if Id(device.id.devtype, v.name) in devices {
        return Some(IsCircuit);
      }
      e := aliases.DoValidate(v.name, device, free);
    }

    method Reset(device: Device)
      requires Valid() && Registered(device)
      modifies aliases, device
      ensures Valid() && View() == SetAlias(old(View()), NoValue, device.id).registry
    {
      ghost var was, dict := View(), aliases.aliasDict;
      if device.alias != "" {
        aliases.DoDelete(device.alias);
        assert Ids(aliases.aliasDict) == Ids(dict) - {device.alias};
      }
      device.alias := "";
      assert View().alias == was.alias[device.id := ""];
    }

    method DoSetAlias(v: Value, device: Device) returns (e: Option<Error>)
      requires Valid() && Registered(device)
      modifies aliases, device
      ensures Valid() && View() == After(old(View()), SetAlias(old(View()), v, device.id))
      ensures e == match SetAlias(old(View()), v, device.id) case Refused(x) => Some(x) case Done(_) => None
    {
      if v == Text(device.alias) {
        return None;
      }
      if v == NoValue || v == Text("") {
        Reset(device);
        return None;
      }
      e := DoCheckAlias(v, device, {});
      if e.None? {
        e := AddAlias(v.name, device);
      }
    }

    method DoRemove(alias: string) returns (e: Option<Error>)
      requires Valid()
      modifies aliases, devices.Values
      ensures Valid() && View() == After(old(View()), Remove(old(View()), alias))
      ensures e == match Remove(old(View()), alias) case Refused(x) => Some(x) case Done(_) => None
    {
      if alias !in aliases.aliasDict && alias !in aliases.initialDict {
        return Some(Unknown);
      }
      ghost var was, dict := View(), aliases.aliasDict;
      if alias in aliases.aliasDict {
        var device := aliases.aliasDict[alias];
        assert device in devices.Values;
        device.alias := "";
        assert View().alias == was.alias[device.id := ""];
      }
      aliases.DoDelete(alias);
      assert Ids(aliases.aliasDict) == Ids(dict) - {alias};
      e := None;
    }
  }
}
