/**
 The compiler from port rules to the lines of the two chains
 (internal/firewall/ports.go). Its contract is the plain policy.
 */
module PortCompiler {
  import opened Basics
  import opened PortModel

  predicate InSome(nets: seq<Prefix>, a: Addr) {
    exists n :: n in nets && n.Contains(a)
  }

  /** The networks of one family that a source list stands for. */
  method SourcesFor(srcs: seq<Entry>, v6: bool) returns (out: seq<Prefix>)
    ensures forall a: Addr :: InSome(out, a) <==> a.v6 == v6 && Listed(srcs, a)
  {
    out := [];
    for i := 0 to |srcs|
      invariant forall a: Addr :: InSome(out, a) <==> a.v6 == v6 && Listed(srcs[..i], a)
    {
      var list := match srcs[i]
        case Private => PRIVATE_RANGES
        case e => if NetOf(e).Some? then [NetOf(e).value] else [];
      ghost var before := out;
      for j := 0 to |list|
        invariant forall a: Addr :: InSome(out, a) <==> InSome(before, a) || (a.v6 == v6 && InSome(list[..j], a))
      {
        assert list[..j + 1] == list[..j] + [list[j]];
        if list[j].v6 == v6 {
          out := out + [list[j]];
        }
      }
      assert list[..|list|] == list;
      assert srcs[..i + 1] == srcs[..i] + [srcs[i]];
      assert forall a: Addr :: InSome(list, a) <==> EntryCovers(srcs[i], a);
    }
    assert srcs[..|srcs|] == srcs;
  }

  /** The networks of one family in an address list. */
  method AddrsFor(list: seq<Entry>, v6: bool) returns (out: seq<Prefix>)
    ensures forall a: Addr :: InSome(out, a) <==> a.v6 == v6 && Covers(list, a)
  {
    out := [];
    for i := 0 to |list|
      invariant forall a: Addr :: InSome(out, a) <==> a.v6 == v6 && Covers(list[..i], a)
    {
      assert list[..i + 1] == list[..i] + [list[i]];
      var net := NetOf(list[i]);
      if net.Some? && net.value.v6 == v6 {
        out := out + [net.value];
      }
    }
    assert list[..|list|] == list;
  }

  // ---- targets: the places a rule is matched

  datatype Target = Target(chain: Chain, conds: seq<Cond>, ct: bool)   // ct: conds already hold CtDirOriginal

  predicate At(t: Target, chain: Chain, p: Packet) {
    t.chain == chain && All(t.conds, p)
  }

  predicate Targeted(ts: seq<Target>, chain: Chain, p: Packet) {
    exists t :: t in ts && At(t, chain, p)
  }

  lemma AllPrepend(c: Cond, conds: seq<Cond>)
    ensures forall p: Packet :: All([c] + conds, p) <==> c.Holds(p) && All(conds, p)
  {
    assert c in [c] + conds;
    assert forall d :: d in conds ==> d in [c] + conds;
  }

  /** out with one more target. */
  method Add(ts: seq<Target>, t: Target) returns (out: seq<Target>)
    requires CtHonest(ts) && (t.ct ==> CtDirOriginal in t.conds)
    ensures out == ts + [t] && CtHonest(out)
    ensures forall chain, p :: Targeted(out, chain, p) <==> Targeted(ts, chain, p) || At(t, chain, p)
  {
    out := ts + [t];
  }

  // The ways a port is matched: on the host, by the original destination
  // of a rewritten connection, and by the destination of a routed one.

  function In(l4: Proto, lo: int, hi: int): (c: seq<Cond>)
    ensures forall p: Packet :: All(c, p) <==> p.proto == l4 && lo <= p.dport <= hi
  {
    var c := [L4(l4), DPort(lo, hi)];
    assert L4(l4) in c && DPort(lo, hi) in c;
    c
  }

  function Dnat(l4: Proto, dst: seq<Cond>, lo: int, hi: int): (c: seq<Cond>)
    ensures CtDirOriginal in c
    ensures forall p: Packet :: All(c, p) <==> p.proto == l4 && p.dnat && All(dst, p) && lo <= p.origDport <= hi && p.original
  {
    var c := [L4(l4), CtDnat(true)] + dst + [CtOrigDPort(lo, hi), CtDirOriginal];
    assert L4(l4) in c && CtDnat(true) in c && CtOrigDPort(lo, hi) in c && CtDirOriginal in c;
    assert forall d :: d in dst ==> d in c;
    c
  }

  function Routed(a: Prefix, l4: Proto, lo: int, hi: int): (c: seq<Cond>)
    ensures forall p: Packet :: All(c, p) <==> a.Contains(p.dst) && p.proto == l4 && lo <= p.dport <= hi && !p.dnat
  {
    var c := [Dst(a), L4(l4), DPort(lo, hi), CtDnat(false)];
    assert Dst(a) in c && L4(l4) in c && DPort(lo, hi) in c && CtDnat(false) in c;
    c
  }

  /** A packet a rule for the ports lo-hi at the given networks (or, when general, anywhere) is about. */
  predicate Reached(nets: seq<Prefix>, general: bool, lo: int, hi: int, chain: Chain, p: Packet) {
    if chain == Host then lo <= p.dport <= hi && (general || InSome(nets, p.dst))
    else if p.dnat then p.original && lo <= p.origDport <= hi && (general || InSome(nets, p.origDst))
    else lo <= p.dport <= hi && InSome(nets, p.dst)
  }

  predicate CtHonest(ts: seq<Target>) {
    forall t :: t in ts && t.ct ==> CtDirOriginal in t.conds
  }

  /** The matches of a server-wide rule for one protocol, after those in ts. */
  method GeneralTargets(ts: seq<Target>, l4: Proto, lo: int, hi: int, follow: seq<Prefix>) returns (out: seq<Target>)
    requires CtHonest(ts)
    ensures CtHonest(out)
    ensures forall chain, p: Packet :: Targeted(out, chain, p) <==>
      Targeted(ts, chain, p) || (p.proto == l4 && Reached(follow, true, lo, hi, chain, p))
  {
    out := Add(ts, Target(Host, In(l4, lo, hi), false));
    out := Add(out, Target(Forward, Dnat(l4, [], lo, hi), true));
    for j := 0 to |follow|
      invariant CtHonest(out)
      invariant forall chain, p: Packet :: Targeted(out, chain, p) <==>
        Targeted(ts, chain, p) || (p.proto == l4 && Reached(follow[..j], true, lo, hi, chain, p))
    {
      assert follow[..j + 1] == follow[..j] + [follow[j]];
      out := Add(out, Target(Forward, Routed(follow[j], l4, lo, hi), false));
    }
    assert follow[..|follow|] == follow;
  }

  /** The three matches of an address rule at one of its networks, after those in ts. */
  method AddressTarget(ts: seq<Target>, l4: Proto, lo: int, hi: int, a: Prefix) returns (out: seq<Target>)
    requires CtHonest(ts)
    ensures CtHonest(out)
    ensures forall chain, p: Packet :: Targeted(out, chain, p) <==>
      Targeted(ts, chain, p) || (p.proto == l4 && Reached([a], false, lo, hi, chain, p))
  {
    AllPrepend(Dst(a), In(l4, lo, hi));
    AllPrepend(CtOrigDst(a), []);
    assert [CtOrigDst(a)] + [] == [CtOrigDst(a)];
    out := Add(ts, Target(Host, [Dst(a)] + In(l4, lo, hi), false));
    out := Add(out, Target(Forward, Dnat(l4, [CtOrigDst(a)], lo, hi), true));
    out := Add(out, Target(Forward, Routed(a, l4, lo, hi), false));
  }

  method AddressTargets(ts: seq<Target>, l4: Proto, lo: int, hi: int, nets: seq<Prefix>) returns (out: seq<Target>)
    requires CtHonest(ts)
    ensures CtHonest(out)
    ensures forall chain, p: Packet :: Targeted(out, chain, p) <==>
      Targeted(ts, chain, p) || (p.proto == l4 && Reached(nets, false, lo, hi, chain, p))
  {
    out := ts;
    for j := 0 to |nets|
      invariant CtHonest(out)
      invariant forall chain, p: Packet :: Targeted(out, chain, p) <==>
        Targeted(ts, chain, p) || (p.proto == l4 && Reached(nets[..j], false, lo, hi, chain, p))
    {
      assert nets[..j + 1] == nets[..j] + [nets[j]];
      out := AddressTarget(out, l4, lo, hi, nets[j]);
    }
    assert nets[..|nets|] == nets;
  }

  function Protos(rp: RuleProto): (protos: seq<Proto>)
    ensures forall l4 :: l4 in protos <==> ProtoMatches(rp, l4)
  {
    match rp case TcpOnly => [Tcp] case UdpOnly => [Udp] case Both => [Tcp, Udp]
  }

  /** The matches of one rule, for every protocol it names. */
  method TargetsOf(r: PortRule, nets: seq<Prefix>, general: bool) returns (out: seq<Target>)
    ensures CtHonest(out)
    ensures forall chain, p: Packet :: Targeted(out, chain, p) <==>
      && ProtoMatches(r.proto, p.proto)
      && r.ports.Range?
      && Reached(nets, general, r.ports.lo, r.ports.hi, chain, p)
  {
    out := [];
    if r.ports.Malformed? {
      return;
    }
    var lo, hi := r.ports.lo, r.ports.hi;
    var protos := Protos(r.proto);
    for i := 0 to |protos|
      invariant CtHonest(out)
      invariant forall chain, p: Packet :: Targeted(out, chain, p) <==>
        p.proto in protos[..i] && Reached(nets, general, lo, hi, chain, p)
    {
      assert protos[..i + 1] == protos[..i] + [protos[i]];
      if general {
        out := GeneralTargets(out, protos[i], lo, hi, nets);
      } else {
        out := AddressTargets(out, protos[i], lo, hi, nets);
      }
    }
    assert protos[..|protos|] == protos;
  }

  // ---- lines

  lemma AllAppend(conds: seq<Cond>, c: Cond)
    ensures forall p: Packet :: All(conds + [c], p) <==> All(conds, p) && c.Holds(p)
  {
    assert c in conds + [c];
    assert forall d :: d in conds ==> d in conds + [c];
  }

  /** The lines of one "only these" rule at one target, after those in b. */
  method EmitAllow(b: seq<Line>, id: string, t: Target, nets: seq<Prefix>) returns (out: seq<Line>)
    ensures forall chain, p: Packet :: Hit(out, chain, p) == OrElse(Hit(b, chain, p),
      if !At(t, chain, p) then None else if InSome(nets, p.src) then Some(Return) else if p.isNew then Some(Drop(id)) else None)
  {
    out := b;
    for j := 0 to |nets|
      invariant forall chain, p: Packet :: Hit(out, chain, p) == OrElse(Hit(b, chain, p),
        if At(t, chain, p) && InSome(nets[..j], p.src) then Some(Return) else None)
    {
      assert nets[..j + 1] == nets[..j] + [nets[j]];
      AllPrepend(Src(nets[j]), t.conds);
      out := out + [Line(t.chain, [Src(nets[j])] + t.conds, Return)];
    }
    assert nets[..|nets|] == nets;
    AllAppend(t.conds, CtNew);
    out := out + [Line(t.chain, t.conds + [CtNew], Drop(id))];
  }

  /** The lines of one "everyone except these" rule at one target, after those in b. */
  method EmitDeny(b: seq<Line>, id: string, t: Target, nets: seq<Prefix>) returns (out: seq<Line>)
    requires t.ct ==> CtDirOriginal in t.conds
    ensures forall chain, p: Packet :: Hit(out, chain, p) == OrElse(Hit(b, chain, p),
      if At(t, chain, p) && InSome(nets, p.src) && p.original then Some(Drop(id)) else None)
  {
    out := b;
    var ct := if t.ct then [] else [CtDirOriginal];
    assert forall p: Packet :: All(t.conds + ct, p) <==> All(t.conds, p) && p.original by {
      if t.ct { assert t.conds + ct == t.conds; } else { AllAppend(t.conds, CtDirOriginal); }
    }
    for j := 0 to |nets|
      invariant forall chain, p: Packet :: Hit(out, chain, p) == OrElse(Hit(b, chain, p),
        if At(t, chain, p) && InSome(nets[..j], p.src) && p.original then Some(Drop(id)) else None)
    {
      assert nets[..j + 1] == nets[..j] + [nets[j]];
      AllPrepend(Src(nets[j]), t.conds + ct);
      out := out + [Line(t.chain, [Src(nets[j])] + (t.conds + ct), Drop(id))];
    }
    assert nets[..|nets|] == nets;
  }

  /** The lines of one rule for the given targets, after those in b. */
  method Emit(b: seq<Line>, r: PortRule, v6: bool, ghost whitelist: seq<Entry>, extra: seq<Prefix>, ts: seq<Target>) returns (out: seq<Line>)
    requires CtHonest(ts)
    requires forall a: Addr :: InSome(extra, a) <==> a.v6 == v6 && Listed(whitelist, a)
    ensures forall chain, p: Packet :: p.OfFamily(v6) ==>
      Hit(out, chain, p) == OrElse(Hit(b, chain, p), if Targeted(ts, chain, p) then Judge(r, whitelist, p) else None)
  {
    var srcs := SourcesFor(r.sources, v6);
    out := b;
    for i := 0 to |ts|
      invariant forall chain, p: Packet :: p.OfFamily(v6) ==>
        Hit(out, chain, p) == OrElse(Hit(b, chain, p), if Targeted(ts[..i], chain, p) then Judge(r, whitelist, p) else None)
    {
      assert ts[..i + 1] == ts[..i] + [ts[i]];
      if r.mode == Allow {
        assert forall a: Addr :: InSome(srcs + extra, a) <==> InSome(srcs, a) || InSome(extra, a);
        out := EmitAllow(out, r.id, ts[i], srcs + extra);
      } else {
        out := EmitDeny(out, r.id, ts[i], srcs);
      }
    }
    assert ts[..|ts|] == ts;
  }

  ghost function Loopback(chain: Chain, p: Packet): Option<Action> {
    if chain == Host && p.inLo then Some(Return) else None
  }

  /** The targets of an address rule are the packets it concerns. */
  method AddressRuleTargets(r: PortRule, v6: bool, addrs: seq<Prefix>, ghost sc: Scope) returns (ts: seq<Target>)
    requires !ServerWide(r) && forall a: Addr :: InSome(addrs, a) <==> a.v6 == v6 && Covers(r.addresses, a)
    ensures CtHonest(ts)
    ensures forall chain, p: Packet :: p.OfFamily(v6) ==> (Targeted(ts, chain, p) <==> Concerns(r, sc, chain, p))
  {
    ts := TargetsOf(r, addrs, false);
  }

  /** The targets of a server-wide rule are the packets it concerns. */
  method ServerRuleTargets(r: PortRule, v6: bool, follow: seq<Prefix>, ghost sc: Scope) returns (ts: seq<Target>)
    requires ServerWide(r) && forall a: Addr :: InSome(follow, a) <==> a.v6 == v6 && Covers(sc.follow, a)
    ensures CtHonest(ts)
    ensures forall chain, p: Packet :: p.OfFamily(v6) ==> (Targeted(ts, chain, p) <==> Concerns(r, sc, chain, p))
  {
    assert forall p: Packet :: p.OfFamily(v6) ==> (InSome(follow, p.dst) <==> Covers(sc.follow, p.dst));
    ts := TargetsOf(r, follow, true);
  }

  /** The lines of the rules with addresses of their own, in order. */
  method AddressPart(b: seq<Line>, rules: seq<PortRule>, v6: bool, ghost whitelist: seq<Entry>, extra: seq<Prefix>, ghost sc: Scope)
    returns (out: seq<Line>)
    requires forall a: Addr :: InSome(extra, a) <==> a.v6 == v6 && Listed(whitelist, a)
    ensures forall chain, p: Packet :: p.OfFamily(v6) ==>
      Hit(out, chain, p) == OrElse(Hit(b, chain, p), FirstOf(rules, false, whitelist, sc, chain, p))
  {
    out := b;
    for i := 0 to |rules|
      invariant forall chain, p: Packet :: p.OfFamily(v6) ==>
        Hit(out, chain, p) == OrElse(Hit(b, chain, p), FirstOf(rules[..i], false, whitelist, sc, chain, p))
    {
      var r := rules[i];
      assert rules[..i + 1][..i] == rules[..i];
      if !r.enabled || r.addresses == [] {
        continue;
      }
      var addrs := AddrsFor(r.addresses, v6);
      if |addrs| > 0 {
        var ts := AddressRuleTargets(r, v6, addrs, sc);
        out := Emit(out, r, v6, whitelist, extra, ts);
      } else {
        assert forall a: Addr :: !InSome(addrs, a);
        assert forall chain, p: Packet :: p.OfFamily(v6) ==> !Concerns(r, sc, chain, p);
      }
    }
    assert rules[..|rules|] == rules;
  }

  /** The lines of the server-wide rules, in order. */
  method GeneralPart(b: seq<Line>, rules: seq<PortRule>, v6: bool, ghost whitelist: seq<Entry>, extra: seq<Prefix>, sc: Scope)
    returns (out: seq<Line>)
    requires forall a: Addr :: InSome(extra, a) <==> a.v6 == v6 && Listed(whitelist, a)
    ensures forall chain, p: Packet :: p.OfFamily(v6) ==>
      Hit(out, chain, p) == OrElse(Hit(b, chain, p), FirstOf(rules, true, whitelist, sc, chain, p))
  {
    var follow := AddrsFor(sc.follow, v6);
    out := b;
    for i := 0 to |rules|
      invariant forall chain, p: Packet :: p.OfFamily(v6) ==>
        Hit(out, chain, p) == OrElse(Hit(b, chain, p), FirstOf(rules[..i], true, whitelist, sc, chain, p))
    {
      var r := rules[i];
      assert rules[..i + 1][..i] == rules[..i];
      if r.enabled && r.addresses == [] {
        var ts := ServerRuleTargets(r, v6, follow, sc);
        out := Emit(out, r, v6, whitelist, extra, ts);
      }
    }
    assert rules[..|rules|] == rules;
  }

  /** Past the address rules: what goes to an address with its own rules leaves the forward chain. */
  method OwnRulesPart(b: seq<Line>, sc: Scope, v6: bool) returns (out: seq<Line>)
    ensures forall chain, p: Packet :: p.OfFamily(v6) ==>
      Hit(out, chain, p) == OrElse(Hit(b, chain, p), if KeepsToOwnRules(sc, chain, p) then Some(Return) else None)
  {
    var noFollow := AddrsFor(sc.noFollow, v6);
    out := b;
    for i := 0 to |noFollow|
      invariant forall chain, p: Packet ::
        Hit(out, chain, p) == OrElse(Hit(b, chain, p),
          if chain == Forward && p.dnat && InSome(noFollow[..i], p.origDst) then Some(Return) else None)
    {
      assert noFollow[..i + 1] == noFollow[..i] + [noFollow[i]];
      var l := Line(Forward, [CtDnat(true), CtOrigDst(noFollow[i])], Return);
      assert CtDnat(true) in l.conds && CtOrigDst(noFollow[i]) in l.conds;
      out := out + [l];
    }
    assert noFollow[..|noFollow|] == noFollow;
  }

  /** The two chains of one family. */
  method Compile(rules: seq<PortRule>, whitelist: seq<Entry>, v6: bool, sc: Scope) returns (lines: seq<Line>)
    ensures Implements(lines, rules, whitelist, v6, sc)
  {
    var lo := Line(Host, [InLo], Return);
    assert InLo in lo.conds;
    lines := [] + [lo];
    assert forall chain, p: Packet :: Hit(lines, chain, p) == Loopback(chain, p);
    var extra := SourcesFor(whitelist, v6);
    lines := AddressPart(lines, rules, v6, whitelist, extra, sc);
    lines := OwnRulesPart(lines, sc, v6);
    lines := GeneralPart(lines, rules, v6, whitelist, extra, sc);
  }
}
