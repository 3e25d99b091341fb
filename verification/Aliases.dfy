/** The aliases of the devices, src/evok/devices.py: Aliases and the alias methods of DeviceList. */
module Aliases {
  import opened Common

  const MAX_ALIAS_LENGTH := 64

  /** A device of the registry: its type and circuit. */
  datatype Id = Id(devtype: string, circuit: string)

  /** A record of the alias file; None is a missing item or one which is not a string. */
  datatype Rec = Rec(devtype: Option<string>, circuit: Option<string>)

  datatype Error = Duplicate | BelongsToOther | InvalidName | Reserved | IsCircuit | NotText | Unknown

  /** The alias of a request: None, a string, or a value of another type. */
  datatype Value = NoValue | Text(name: string) | NotString

  /** alias_dict, initial_dict and the alias of each registered device, "" is no alias. */
  datatype Registry = Registry(held: map<string, Id>, saved: map<string, Rec>, alias: map<Id, string>)

  datatype Outcome = Done(registry: Registry) | Refused(error: Error)

  function RecOf(d: Id): Rec {
    Rec(Some(d.devtype), Some(d.circuit))
  }

  predicate NameChar(c: char) {
    'A' <= c <= 'Z' || 'a' <= c <= 'z' || '0' <= c <= '9' || c in "._-"
  }

  predicate ValidName(a: string) {
    a != "" && (forall c :: c in a ==> NameChar(c)) && |a| <= MAX_ALIAS_LENGTH && a != "all"
  }

  /** validate(): None is a valid alias. */
  function Validate(held: map<string, Id>, saved: map<string, Rec>, a: string, d: Id,
                    free: set<string>): Option<Error>
  {
    if a in held && a !in free then Some(Duplicate)
    else if a in saved && saved[a] != RecOf(d) then Some(BelongsToOther)
    else if a == "" || (exists c :: c in a && !NameChar(c)) || |a| > MAX_ALIAS_LENGTH then Some(InvalidName)
    else if a == "all" then Some(Reserved)
    else None
  }

  function Delete(r: Registry, a: string): Registry {
    r.(held := r.held - {a}, saved := r.saved - {a})
  }

  /** add() and the assignment of the alias of the device by its callers. */
  function Add(r: Registry, a: string, d: Id): Outcome
    requires d in r.alias
  {
    var e := if a != r.alias[d] then Validate(r.held, r.saved, a, d, {}) else None;
    if e.Some? then Refused(e.value)
    else
      var x := if r.alias[d] != "" then Delete(r, r.alias[d]) else r;
      var y := if a != "" then Delete(x, a) else x;
      Done(y.(held := y.held[a := d], alias := y.alias[d := a]))
  }

  function CheckAlias(r: Registry, v: Value, d: Id, free: set<string>): Option<Error>
    requires d in r.alias
  {
    if v == NoValue || v == Text("") || v == Text(r.alias[d]) then None
    else if v == NotString then Some(NotText)
    else if Id(d.devtype, v.name) in r.alias then Some(IsCircuit)
    else Validate(r.held, r.saved, v.name, d, free)
  }

  function SetAlias(r: Registry, v: Value, d: Id): Outcome
    requires d in r.alias
  {
    if v == Text(r.alias[d]) then Done(r)
    else if v == NoValue || v == Text("") then
      var x := if r.alias[d] != "" then Delete(r, r.alias[d]) else r;
      Done(x.(alias := x.alias[d := ""]))
    else
      var e := CheckAlias(r, v, d, {});
      if e.Some? then Refused(e.value) else Add(r, v.name, d)
  }

  function Remove(r: Registry, a: string): Outcome {
    if a !in r.held && a !in r.saved then Refused(Unknown)
    else
      var x := if a in r.held then r.(alias := r.alias[r.held[a] := ""]) else r;
      Done(Delete(x, a))
  }

  /** A refused change raises ValueError and changes nothing. */
  function After(r: Registry, o: Outcome): Registry {
    if o.Done? then o.registry else r
  }

  /** The aliases saved for a device. */
  function SavedFor(saved: map<string, Rec>, d: Id): set<string> {
    set a | a in saved && saved[a] == RecOf(d)
  }

  /** The keys of the alias file in its order, each once; a deleted alias is skipped. */
  predicate IsOrder(order: seq<string>, saved: map<string, Rec>) {
    (forall i, j :: 0 <= i < j < |order| ==> order[i] != order[j]) && forall a :: a in saved ==> a in order
  }

  /** get_aliases_by_circuit(): the aliases saved for a device, in the order of the file. */
  function NamesFor(order: seq<string>, saved: map<string, Rec>, d: Id): seq<string> {
    if order == [] then []
    else
      var rest := NamesFor(order[1..], saved, d);
      if order[0] in SavedFor(saved, d) then [order[0]] + rest else rest
  }

  /** The saved aliases of a new device are added one by one, an invalid one is skipped. */
  function AddEach(r: Registry, d: Id, names: seq<string>): Registry
    requires d in r.alias
    decreases |names|
  {
    if names == [] then r
    else
      var y := After(r, Add(r, names[0], d));
      if d in y.alias then AddEach(y, d, names[1..]) else y
  }

  /** Each saved alias of the device once, in any order. */
  ghost predicate Lists(names: seq<string>, saved: map<string, Rec>, d: Id) {
    && (forall a :: a in names <==> a in SavedFor(saved, d))
    && (forall i, j :: 0 <= i < j < |names| ==> names[i] != names[j])
  }

  /** register_device() of a new device. */
  function RegisterDevice(r: Registry, d: Id, names: seq<string>): Registry {
    AddEach(r.(alias := r.alias[d := ""]), d, names)
  }

  /** get_dict_to_save() */
  function Save(r: Registry): map<string, Rec> {
    r.saved + map a | a in r.held :: RecOf(r.held[a])
  }

  /** The registry of a start: the file is loaded, no device is registered. */
  function Load(file: map<string, Rec>): Registry {
    Registry(map[], file, map[])
  }
}
