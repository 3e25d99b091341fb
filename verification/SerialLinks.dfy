/** The serial ports claimed by the buses and the buses held by the units which serve them, src/evok/config.py. */
module SerialLinks {

  /** The order of strings by their characters, as sorted() uses it. */
  predicate Below(a: string, b: string) {
    b != [] && (a == [] || a[0] < b[0] || (a[0] == b[0] && Below(a[1..], b[1..])))
  }

  /** The first difference decides, and a proper prefix is below. */
  lemma {:induction false} BelowByFirstDifference(a: string, b: string, k: nat)
    requires k <= |a| && k <= |b| && a[..k] == b[..k]
    requires k < |a| && k < |b| ==> a[k] != b[k]
    ensures k < |a| && k < |b| ==> (Below(a, b) <==> a[k] < b[k])
    ensures k == |a| || k == |b| ==> (Below(a, b) <==> |a| < |b|)
  {
    if k > 0 {
      assert a[0] == a[..k][0] == b[..k][0] == b[0];
      assert a[1..][..k - 1] == a[..k][1..] == b[..k][1..] == b[1..][..k - 1];
      BelowByFirstDifference(a[1..], b[1..], k - 1);
    }
  }

  lemma {:induction false} BelowIsTotal(a: string, b: string)
    ensures a == b || Below(a, b) || Below(b, a)
    ensures !(Below(a, b) && Below(b, a)) && !Below(a, a)
  {
    if a != [] && b != [] {
      BelowIsTotal(a[1..], b[1..]);
      assert a == [a[0]] + a[1..] && b == [b[0]] + b[1..];
    }
    if a != [] {
      BelowIsTotal(a[1..], a[1..]);
    }
  }

  lemma {:induction false} BelowIsTransitive(a: string, b: string, c: string)
    requires Below(a, b) && Below(b, c)
    ensures Below(a, c)
  {
    if a != [] && a[0] == b[0] == c[0] {
      BelowIsTransitive(a[1..], b[1..], c[1..]);
    }
  }

  function Elements(paths: seq<string>): (r: set<string>)
    ensures forall p :: p in r <==> p in paths
  {
    set p | p in paths
  }

  ghost predicate Ascending(paths: seq<string>) {
    forall i, j :: 0 <= i < j < |paths| ==> Below(paths[i], paths[j])
  }

  method Least(paths: set<string>) returns (least: string)
    requires paths != {}
    ensures least in paths && forall p :: p in paths && p != least ==> Below(least, p)
  {
    var rest := paths;
    least :| least in rest;
    rest := rest - {least};
    while rest != {}
      invariant rest <= paths && least in paths && least !in rest
      invariant forall p :: p in paths && p !in rest && p != least ==> Below(least, p)
      decreases |rest|
    {
      var p :| p in rest;
      ghost var before := least;
      BelowIsTotal(least, p);
      if Below(p, least) {
        forall q | q in paths && q !in rest && q != before ensures Below(p, q) {
          BelowIsTransitive(p, before, q);
        }
        least := p;
      }
      rest := rest - {p};
    }
  }

  /** sorted(): ascending and with exactly these paths, which determines the list. */
  method Sorted(paths: set<string>) returns (r: seq<string>)
    ensures Ascending(r)
    ensures Elements(r) == paths
  {
    r := [];
    var rest := paths;
    while rest != {}
      invariant rest <= paths && Ascending(r)
      invariant Elements(r) == paths - rest
      invariant forall p, q :: p in r && q in rest ==> Below(p, q)
      decreases |rest|
    {
      var p := Least(rest);
      rest := rest - {p};
      r := r + [p];
    }
  }

  lemma {:induction false} AscendingIsUnique(r: seq<string>, s: seq<string>)
    requires Ascending(r) && Ascending(s) && Elements(r) == Elements(s)
    ensures r == s
  {
    assert r != [] ==> r[0] in Elements(r);
    assert s != [] ==> s[0] in Elements(s);
    if r != [] && s != [] {
      assert r[0] in Elements(s) && s[0] in Elements(r);
      BelowIsTotal(r[0], s[0]);
      RestOfAscending(r);
      RestOfAscending(s);
      AscendingIsUnique(r[1..], s[1..]);
    }
  }

  lemma RestOfAscending(r: seq<string>)
    requires Ascending(r) && r != []
    ensures Elements(r[1..]) == Elements(r) - {r[0]}
  {
    BelowIsTotal(r[0], r[0]);
    assert r == [r[0]] + r[1..];
  }

  /** A unit: whether its own bus is MODBUSTCP, and the serial buses it holds, by their real paths. */
  class Client {
    const tcp: bool
    var serialBuses: seq<string>

    constructor (tcp: bool)
      ensures this.tcp == tcp && serialBuses == []
    {
      this.tcp := tcp;
      serialBuses := [];
    }
  }

  /** A client with the real paths of its option serial_ports. */
  datatype Link = Link(client: Client, ports: seq<string>)

  class BusClaims {
    var serialPorts: map<string, nat>   // the real path of a serial port -> the transport of its bus
    var serialLinks: seq<Link>

    ghost predicate Valid()
      reads this
    {
      && (forall i, j :: 0 <= i < j < |serialLinks| ==> serialLinks[i].client != serialLinks[j].client)
      && (forall i :: 0 <= i < |serialLinks| ==> serialLinks[i].client.tcp)
      && (forall p, q :: p in serialPorts && q in serialPorts && p != q ==> serialPorts[p] != serialPorts[q])
    }

    constructor ()
      ensures Valid() && serialPorts == map[] && serialLinks == []
    {
      serialPorts, serialLinks := map[], [];
    }

    /** A MODBUSRTU bus with a new transport; a port used by another bus is refused. */
    method ClaimPort(path: string, transport: nat) returns (ok: bool)
      requires Valid() && transport !in serialPorts.Values
      modifies this`serialPorts
      ensures Valid()
      ensures ok == (path !in old(serialPorts))
      ensures serialPorts == if ok then old(serialPorts)[path := transport] else old(serialPorts)
    {
      if path in serialPorts {
        return false;
      }
      forall p | p in serialPorts ensures serialPorts[p] in serialPorts.Values {
      }
      serialPorts := serialPorts[path := transport];
      return true;
    }

    /** The option serial_ports of a new unit is refused on a serial bus, a unit without ports has no link. */
    method AddUnit(client: Client, ports: seq<string>) returns (ok: bool)
      requires Valid()
      requires forall i :: 0 <= i < |serialLinks| ==> serialLinks[i].client != client
      modifies this`serialLinks
      ensures Valid()
      ensures ok == (ports == [] || client.tcp)
      ensures serialLinks == old(serialLinks) + if ok && ports != [] then [Link(client, ports)] else []
    {
      if ports != [] && !client.tcp {
        return false;
      }
      if ports != [] {
        serialLinks := serialLinks + [Link(client, ports)];
      }
      return true;
    }

    /** link_serial_ports(): every linked client holds exactly the claimed buses of its ports, in the order of
        their paths; a port of no bus is skipped. */
    method LinkSerialPorts()
      requires Valid()
      modifies set i | 0 <= i < |serialLinks| :: serialLinks[i].client
      ensures serialPorts == old(serialPorts) && serialLinks == old(serialLinks)
      ensures forall i :: 0 <= i < |serialLinks| ==>
                var link := serialLinks[i];
                Ascending(link.client.serialBuses) &&
                Elements(link.client.serialBuses) == Elements(link.ports) * serialPorts.Keys
    {
      for i := 0 to |serialLinks|
        invariant forall k :: 0 <= k < i ==>
                    var link := serialLinks[k];
                    Ascending(link.client.serialBuses) &&
                    Elements(link.client.serialBuses) == Elements(link.ports) * serialPorts.Keys
      {
        var link := serialLinks[i];
        var buses: map<string, nat> := map[];
        for j := 0 to |link.ports|
          invariant buses.Keys == Elements(link.ports[..j]) * serialPorts.Keys
        {
          var path := link.ports[j];
          assert link.ports[..j + 1] == link.ports[..j] + [path];
          if path in serialPorts {
            buses := buses[path := serialPorts[path]];
          }
        }
        assert link.ports[..|link.ports|] == link.ports;
        link.client.serialBuses := Sorted(buses.Keys);
      }
    }
  }
}
