/** One action on a published port (internal/containers/compose.go). */
module PortActions {
  import opened Basics
  import opened PortText

  datatype PortAction = Local | Public | Remove | Unknown(text: string)

  predicate About(p: Port, hostPort: nat, proto: string) {
    p.hostPort == hostPort && p.proto == proto
  }

  /** The ports the action is not about, in order. */
  function Others(ports: seq<Port>, hostPort: nat, proto: string): seq<Port> {
    if ports == [] then []
    else
      var p := ports[|ports| - 1];
      Others(ports[..|ports| - 1], hostPort, proto) + if About(p, hostPort, proto) then [] else [p]
  }

  function Moved(p: Port, action: PortAction): Port {
    p.(hostIP := if action.Local? then "127.0.0.1" else "")
  }

  /** Each port the action is about is there once, where it was asked to be, and no other such port is. */
  ghost predicate Acted(ports: seq<Port>, out: seq<Port>, hostPort: nat, proto: string, action: PortAction) {
    && Others(out, hostPort, proto) == Others(ports, hostPort, proto)
    && MovedOf(ports, out, hostPort, proto, action)
    && forall i, j :: 0 <= i < j < |out| && About(out[i], hostPort, proto) ==> out[i] != out[j]
  }

  lemma OthersPush(ports: seq<Port>, p: Port, hostPort: nat, proto: string)
    ensures Others(ports + [p], hostPort, proto) == Others(ports, hostPort, proto) + if About(p, hostPort, proto) then [] else [p]
  {
    assert (ports + [p])[..|ports|] == ports;
  }

  lemma OtherStays(ports: seq<Port>, out: seq<Port>, p: Port, hostPort: nat, proto: string, action: PortAction)
    requires Acted(ports, out, hostPort, proto, action) && !About(p, hostPort, proto)
    ensures Acted(ports + [p], out + [p], hostPort, proto, action)
  {
    OthersPush(ports, p, hostPort, proto);
    OthersPush(out, p, hostPort, proto);
  }

  lemma NothingNew(ports: seq<Port>, out: seq<Port>, p: Port, hostPort: nat, proto: string, action: PortAction)
    requires Acted(ports, out, hostPort, proto, action) && About(p, hostPort, proto)
    requires action.Remove? || Moved(p, action) in out
    ensures Acted(ports + [p], out, hostPort, proto, action)
  {
    OthersPush(ports, p, hostPort, proto);
  }

  /** The moved ports among out are those of the ports the action is about. */
  ghost predicate MovedOf(ports: seq<Port>, out: seq<Port>, hostPort: nat, proto: string, action: PortAction) {
    forall q :: q in out && About(q, hostPort, proto) <==>
      !action.Remove? && exists p :: p in ports && About(p, hostPort, proto) && q == Moved(p, action)
  }

  lemma MovedPush(ports: seq<Port>, out: seq<Port>, p: Port, hostPort: nat, proto: string, action: PortAction)
    requires MovedOf(ports, out, hostPort, proto, action) && About(p, hostPort, proto) && !action.Remove?
    ensures MovedOf(ports + [p], out + [Moved(p, action)], hostPort, proto, action)
  {
    var all, out' := ports + [p], out + [Moved(p, action)];
    assert p in all && Moved(p, action) in out';
    forall r ensures r in out' && About(r, hostPort, proto) <==>
      exists o :: o in all && About(o, hostPort, proto) && r == Moved(o, action)
    {
      if o :| o in all && About(o, hostPort, proto) && r == Moved(o, action) {
        assert o == p || o in ports;
      }
    }
  }

  lemma MovedIsNew(ports: seq<Port>, out: seq<Port>, p: Port, hostPort: nat, proto: string, action: PortAction)
    requires Acted(ports, out, hostPort, proto, action) && About(p, hostPort, proto)
    requires !action.Remove? && Moved(p, action) !in out
    ensures Acted(ports + [p], out + [Moved(p, action)], hostPort, proto, action)
  {
    OthersPush(ports, p, hostPort, proto);
    OthersPush(out, Moved(p, action), hostPort, proto);
    MovedPush(ports, out, p, hostPort, proto, action);
  }

  lemma {:induction false} OthersMembers(ports: seq<Port>, hostPort: nat, proto: string)
    ensures forall p :: p in Others(ports, hostPort, proto) <==> p in ports && (p.hostPort != hostPort || p.proto != proto)
  {
    if ports == [] {
    } else {
      var n := |ports| - 1;
      OthersMembers(ports[..n], hostPort, proto);
      assert ports == ports[..n] + [ports[n]];
    }
  }

  /** In terms of the ports themselves: where each one is published afterwards, and that nothing else came in. */
  lemma ActedMeans(ports: seq<Port>, out: seq<Port>, hostPort: nat, proto: string, action: PortAction, q: Port)
    requires Acted(ports, out, hostPort, proto, action)
    ensures q.hostPort != hostPort || q.proto != proto ==> (q in out <==> q in ports)
    ensures q.hostPort == hostPort && q.proto == proto ==>
      (q in out <==>
        && action != Remove && q.hostIP == (if action == Local then "127.0.0.1" else "")
        && exists ip :: q.(hostIP := ip) in ports)
  {
    OthersMembers(ports, hostPort, proto);
    OthersMembers(out, hostPort, proto);
    if q.hostPort == hostPort && q.proto == proto {
      assert About(q, hostPort, proto);
      if q in out {
        var p :| p in ports && About(p, hostPort, proto) && q == Moved(p, action);
        assert q.(hostIP := p.hostIP) == p;
      }
      if ip :| q.(hostIP := ip) in ports {
        assert About(q.(hostIP := ip), hostPort, proto);
        assert Moved(q.(hostIP := ip), action) == Moved(q, action);
      }
    }
  }

  /** The ports after the action; nothing when the container does not publish the port or the action is unknown. */
  method ApplyPortAction(ports: seq<Port>, hostPort: nat, proto: string, action: PortAction) returns (r: Option<seq<Port>>)
    ensures r.None? <==> action.Unknown? || forall p :: p in ports ==> !About(p, hostPort, proto)
    ensures r.Some? ==> Acted(ports, r.value, hostPort, proto, action)
  {
    var out: seq<Port> := [];
    var found, seen: set<Port> := false, {};
    for i := 0 to |ports|
      invariant Acted(ports[..i], out, hostPort, proto, action)
      invariant found <==> exists p :: p in ports[..i] && About(p, hostPort, proto)
      invariant forall q :: q in seen <==> q in out && About(q, hostPort, proto)
      invariant found ==> !action.Unknown?
    {
      var p := ports[i];
      assert ports[..i + 1] == ports[..i] + [p];
      if !About(p, hostPort, proto) {
        OtherStays(ports[..i], out, p, hostPort, proto, action);
        out := out + [p];
        continue;
      }
      if action.Unknown? {
        return None;
      }
      found := true;
      if action.Remove? {
        NothingNew(ports[..i], out, p, hostPort, proto, action);
        continue;
      }
      var q := Moved(p, action);
      if q in seen {
        NothingNew(ports[..i], out, p, hostPort, proto, action);
      } else {
        MovedIsNew(ports[..i], out, p, hostPort, proto, action);
        seen := seen + {q};
        out := out + [q];
      }
    }
    assert ports[..|ports|] == ports;
    if !found {
      return None;
    }
    return Some(out);
  }
}
