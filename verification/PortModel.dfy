/**
 Port access rules, packets and the two chains they are compiled to
 (internal/firewall/ports.go).
 */
module PortModel {
  import opened Basics

  /** An address of one family. */
  datatype Addr = Addr(v6: bool, n: nat)

  /** A network as the range of addresses it holds. */
  datatype Prefix = Prefix(v6: bool, first: nat, last: nat) {
    predicate Contains(a: Addr) {
      a.v6 == v6 && first <= a.n <= last
    }
  }

  // ---- networks as they are written

  /** An IPv6 address that stands for an IPv4 one: ::ffff:0:0/96. */
  const MAPPED := 0xffff_0000_0000

  predicate Mapped(a: Addr) {
    a.v6 && MAPPED <= a.n < MAPPED + 0x1_0000_0000
  }

  function Unmap(a: Addr): Addr {
    if Mapped(a) then Addr(false, a.n - MAPPED) else a
  }

  /** One entry of a source or address list: an address without or with a length, the keyword, or text that is none of these. */
  datatype Entry = Bare(a: Addr) | Slash(a: Addr, bits: nat) | Private | Unreadable(text: string)

  function Width(v6: bool): nat {
    if v6 then 128 else 32
  }

  /** How many addresses share all but their last k bits. */
  function Size(k: nat): (size: nat)
    ensures size >= 1
  {
    if k == 0 then 1 else 2 * Size(k - 1)
  }

  /** The last k bits set to zero. */
  function Cleared(n: nat, k: nat): nat {
    if k == 0 then n else 2 * Cleared(n / 2, k - 1)
  }

  /** The first address of a's network of that length. */
  function Masked(a: Addr, bits: nat): Addr
    requires bits <= Width(a.v6)
  {
    Addr(a.v6, Cleared(a.n, Width(a.v6) - bits))
  }

  function NetworkOf(a: Addr, bits: nat): Prefix
    requires bits <= Width(a.v6)
  {
    var first := Masked(a, bits);
    Prefix(a.v6, first.n, first.n + Size(Width(a.v6) - bits) - 1)
  }

  function Single(a: Addr): Prefix {
    Prefix(a.v6, a.n, a.n)
  }

  /** The network as the compiler reads it: a bare mapped address is the IPv4 address it stands for. */
  function NetOf(e: Entry): Option<Prefix> {
    match e
    case Bare(a) => Some(Single(Unmap(a)))
    case Slash(a, bits) => if bits <= Width(a.v6) then Some(NetworkOf(a, bits)) else None
    case _ => None
  }

  /** The network as the trial test reads it: a mapped address is an IPv6 address like any other. */
  function NetAsTested(e: Entry): Option<Prefix> {
    match e
    case Bare(a) => Some(Single(a))
    case _ => NetOf(e)
  }

  /** The two readings are the same for everything but a mapped address without a length. */
  lemma ReadingsAgreeIff(e: Entry)
    ensures NetOf(e) == NetAsTested(e) <==> !(e.Bare? && Mapped(e.a))
  {
  }

  /** How Validate writes a network: with its first address, and without a length that says nothing. */
  function Normal(e: Entry): Option<Entry> {
    match e
    case Bare(a) => Some(Bare(Unmap(a)))
    case Slash(a, bits) =>
      if bits > Width(a.v6) then None
      else if bits == Width(a.v6) then Some(Bare(a))
      else Some(Slash(Masked(a, bits), bits))
    case _ => None
  }

  lemma {:induction false} ClearedTwice(n: nat, k: nat)
    ensures Cleared(Cleared(n, k), k) == Cleared(n, k)
  {
    if k == 0 {
    } else {
      ClearedTwice(n / 2, k - 1);
    }
  }

  /** The network of a length holds exactly the addresses that agree with its own on that many bits. */
  lemma {:induction false} ClearedIff(n: nat, m: nat, k: nat)
    ensures Cleared(n, k) <= m < Cleared(n, k) + Size(k) <==> Cleared(m, k) == Cleared(n, k)
  {
    if k == 0 {
    } else {
      ClearedIff(n / 2, m / 2, k - 1);
    }
  }

  lemma NetworkHoldsIff(a: Addr, bits: nat, b: Addr)
    requires bits <= Width(a.v6)
    ensures NetworkOf(a, bits).Contains(b) <==> b.v6 == a.v6 && Masked(b, bits) == Masked(a, bits)
  {
    ClearedIff(a.n, b.n, Width(a.v6) - bits);
  }

  /** The full length of either family leaves the address alone, and a longer one is refused. */
  lemma FullLength(a: Addr, bits: nat)
    ensures NetworkOf(a, if a.v6 then 128 else 32) == Single(a)
    ensures Normal(Slash(a, bits)).None? <==> bits > (if a.v6 then 128 else 32)
  {
  }

  lemma {:induction false} SizeAdd(j: nat, k: nat)
    ensures Size(j + k) == Size(j) * Size(k)
  {
    if j == 0 {
    } else {
      SizeAdd(j - 1, k);
    }
  }

  lemma SizeOfSum(j: nat, k: nat, x: nat, y: nat)
    requires Size(j) == x && Size(k) == y
    ensures Size(j + k) == x * y
  {
    SizeAdd(j, k);
  }

  lemma Sizes()
    ensures Size(16) == 0x1_0000 && Size(20) == 0x10_0000 && Size(22) == 0x40_0000 && Size(24) == 0x100_0000 && Size(32) == 0x1_0000_0000
    ensures Size(118) == 0x40_0000_0000_0000_0000_0000_0000_0000 && Size(121) == 0x200_0000_0000_0000_0000_0000_0000_0000
  {
    assert Size(1) == 2 && Size(2) == 4;
    SizeOfSum(2, 2, 0x4, 0x4);
    SizeOfSum(4, 4, 0x10, 0x10);
    SizeOfSum(8, 8, 0x100, 0x100);
    SizeOfSum(16, 4, 0x1_0000, 0x10);
    SizeOfSum(20, 2, 0x10_0000, 0x4);
    SizeOfSum(20, 4, 0x10_0000, 0x10);
    SizeOfSum(16, 16, 0x1_0000, 0x1_0000);
    SizeOfSum(32, 32, 0x1_0000_0000, 0x1_0000_0000);
    SizeOfSum(64, 32, 0x1_0000_0000_0000_0000, 0x1_0000_0000);
    SizeOfSum(96, 22, 0x1_0000_0000_0000_0000_0000_0000, 0x40_0000);
    SizeOfSum(118, 2, 0x40_0000_0000_0000_0000_0000_0000_0000, 0x4);
    SizeOfSum(120, 1, 0x100_0000_0000_0000_0000_0000_0000_0000, 0x2);
  }

  lemma {:induction false} ClearedMultiple(m: nat, k: nat)
    ensures Cleared(m * Size(k), k) == m * Size(k)
  {
    if k == 0 {
    } else {
      assert m * Size(k) == 2 * (m * Size(k - 1));
      ClearedMultiple(m, k - 1);
    }
  }

  /** Mapped addresses are those of ::ffff:0:0/96, and stand for all IPv4 addresses. */
  lemma MappedIff(a: Addr)
    ensures Mapped(a) <==> NetworkOf(Addr(true, 0xffff_0000_0000), 96).Contains(a)
    ensures Mapped(a) ==> !Unmap(a).v6 && 0 <= Unmap(a).n < 0x1_0000_0000
  {
    Sizes();
    ClearedMultiple(0xffff, 32);
  }

  /** Writing a network again changes it exactly when it is a mapped address with its full length: the length is lost first. */
  lemma NormalTwiceIff(e: Entry)
    requires Normal(e).Some?
    ensures Normal(Normal(e).value) == Normal(e) <==> !(e.Slash? && e.bits == 128 && Mapped(e.a))
  {
    if e.Slash? { ClearedTwice(e.a.n, Width(e.a.v6) - e.bits); }
  }

  /** That is also exactly when the network covers other addresses once it is written. */
  lemma NormalKeepsNetIff(e: Entry)
    requires Normal(e).Some?
    ensures NetOf(Normal(e).value) == NetOf(e) <==> !(e.Slash? && e.bits == 128 && Mapped(e.a))
  {
    if e.Slash? { ClearedTwice(e.a.n, Width(e.a.v6) - e.bits); }
  }

  /** A written network when it is validated again. */
  function Reread(e: Entry): Entry {
    if e.Bare? then Bare(Unmap(e.a)) else e
  }

  lemma RereadIsNormal(e: Entry)
    requires Normal(e).Some?
    ensures Normal(Normal(e).value) == Some(Reread(Normal(e).value))
  {
    if e.Slash? { ClearedTwice(e.a.n, Width(e.a.v6) - e.bits); }
  }

  /** A rule's port text as PortRange reads it: both ends of a range, or text that is none. */
  datatype Ports = Range(lo: int, hi: int) | Malformed(text: string) {
    predicate Holds(port: int) {
      Range? && lo <= port <= hi
    }
  }

  datatype RuleProto = TcpOnly | UdpOnly | Both
  datatype Mode = Allow | Deny

  datatype PortRule = PortRule(
    id: string,
    proto: RuleProto,
    ports: Ports,
    mode: Mode,
    sources: seq<Entry>,
    addresses: seq<Entry>,   // empty: the server-wide rule
    enabled: bool)

  /** Which forwarded addresses take the server-wide rules. */
  datatype Scope = Scope(follow: seq<Entry>, noFollow: seq<Entry>)

  const PRIVATE_RANGES: seq<Prefix> := [
    Prefix(false, 0x0a00_0000, 0x0aff_ffff),
    Prefix(false, 0xac10_0000, 0xac1f_ffff),
    Prefix(false, 0xc0a8_0000, 0xc0a8_ffff),
    Prefix(false, 0x6440_0000, 0x647f_ffff),
    Prefix(true, 0xfc00_0000_0000_0000_0000_0000_0000_0000, 0xfdff_ffff_ffff_ffff_ffff_ffff_ffff_ffff),
    Prefix(true, 0xfe80_0000_0000_0000_0000_0000_0000_0000, 0xfebf_ffff_ffff_ffff_ffff_ffff_ffff_ffff)
  ]

  /** 10.0.0.0/8, 172.16.0.0/12, 192.168.0.0/16, 100.64.0.0/10, fc00::/7 and fe80::/10. */
  lemma PrivateRangesAre()
    ensures PRIVATE_RANGES == [
      NetworkOf(Addr(false, 10 * 0x100_0000), 8),
      NetworkOf(Addr(false, 172 * 0x100_0000 + 16 * 0x1_0000), 12),
      NetworkOf(Addr(false, 192 * 0x100_0000 + 168 * 0x1_0000), 16),
      NetworkOf(Addr(false, 100 * 0x100_0000 + 64 * 0x1_0000), 10),
      NetworkOf(Addr(true, 0xfc00 * 0x1_0000_0000_0000_0000_0000_0000_0000), 7),
      NetworkOf(Addr(true, 0xfe80 * 0x1_0000_0000_0000_0000_0000_0000_0000), 10)]
  {
    Sizes();
    ClearedMultiple(10, 24);
    ClearedMultiple(0xac1, 20);
    ClearedMultiple(0xc0a8, 16);
    ClearedMultiple(0x191, 22);
    ClearedMultiple(0x7e, 121);
    ClearedMultiple(0x3fa, 118);
  }

  // ---- packets

  datatype Proto = Tcp | Udp | OtherProto

  /** What the filter table and conntrack know about a packet. */
  datatype Packet = Packet(
    inLo: bool,
    src: Addr, dst: Addr, dport: int,
    proto: Proto,
    isNew: bool,             // the first packet of its connection
    original: bool,          // travels in the direction of the connection's first packet
    dnat: bool,              // the connection's destination was rewritten
    origDst: Addr, origDport: int)
  {
    predicate OfFamily(v6: bool) {
      src.v6 == v6 && dst.v6 == v6 && origDst.v6 == v6
    }
  }

  // ---- chains

  datatype Chain = Host | Forward   // SKYGUARD-PORTS and SKYGUARD-PORTS-FWD

  datatype Cond =
    | InLo
    | Src(p: Prefix)
    | Dst(p: Prefix)
    | L4(proto: Proto)
    | DPort(lo: int, hi: int)
    | CtNew
    | CtDnat(yes: bool)
    | CtOrigDst(p: Prefix)
    | CtOrigDPort(lo: int, hi: int)
    | CtDirOriginal
  {
    predicate Holds(p: Packet) {
      match this
      case InLo => p.inLo
      case Src(n) => n.Contains(p.src)
      case Dst(n) => n.Contains(p.dst)
      case L4(l4) => p.proto == l4
      case DPort(lo, hi) => lo <= p.dport <= hi
      case CtNew => p.isNew
      case CtDnat(yes) => p.dnat == yes
      case CtOrigDst(n) => n.Contains(p.origDst)
      case CtOrigDPort(lo, hi) => lo <= p.origDport <= hi
      case CtDirOriginal => p.original
    }
  }

  /** RETURN, or DROP under the comment "sg:<id>". */
  datatype Action = Return | Drop(id: string)

  datatype Line = Line(chain: Chain, conds: seq<Cond>, action: Action)

  predicate All(conds: seq<Cond>, p: Packet) {
    forall c :: c in conds ==> c.Holds(p)
  }

  /** The action of the first line of a chain that matches, as netfilter walks it. */
  function Hit(lines: seq<Line>, chain: Chain, p: Packet): Option<Action> {
    if lines == [] then None
    else
      var l := lines[|lines| - 1];
      OrElse(Hit(lines[..|lines| - 1], chain, p),
             if l.chain == chain && All(l.conds, p) then Some(l.action) else None)
  }

  predicate Matches(l: Line, chain: Chain, p: Packet) {
    l.chain == chain && All(l.conds, p)
  }

  predicate FirstMatch(lines: seq<Line>, i: int, chain: Chain, p: Packet) {
    0 <= i < |lines| && Matches(lines[i], chain, p) && forall j :: 0 <= j < i ==> !Matches(lines[j], chain, p)
  }

  /** That is the action of a line that matches while none before it does; there is none only when no line matches. */
  lemma {:induction false} HitIsFirst(lines: seq<Line>, chain: Chain, p: Packet)
    ensures Hit(lines, chain, p).None? ==> forall l :: l in lines ==> !Matches(l, chain, p)
    ensures Hit(lines, chain, p).Some? ==> exists i :: FirstMatch(lines, i, chain, p) && lines[i].action == Hit(lines, chain, p).value
  {
    if lines == [] {
    } else {
      var n := |lines| - 1;
      HitIsFirst(lines[..n], chain, p);
      assert lines == lines[..n] + [lines[n]];
      if Hit(lines[..n], chain, p).Some? {
        var i :| FirstMatch(lines[..n], i, chain, p) && lines[..n][i].action == Hit(lines[..n], chain, p).value;
        assert FirstMatch(lines, i, chain, p) && lines[i].action == Hit(lines, chain, p).value;
      } else if Matches(lines[n], chain, p) {
        assert forall j :: 0 <= j < n ==> lines[j] in lines[..n];
        assert FirstMatch(lines, n, chain, p);
      }
    }
  }

  /** A packet that no line drops goes back to the chain's caller. */
  predicate Dropped(lines: seq<Line>, chain: Chain, p: Packet) {
    Hit(lines, chain, p).Some? && Hit(lines, chain, p).value.Drop?
  }

  // ---- the plain policy

  predicate NetHolds(net: Option<Prefix>, a: Addr) {
    net.Some? && net.value.Contains(a)
  }

  predicate EntryCovers(e: Entry, a: Addr) {
    match e
    case Private => exists n :: n in PRIVATE_RANGES && n.Contains(a)
    case _ => NetHolds(NetOf(e), a)
  }

  /** The keyword covers what one of its ranges holds. */
  lemma PrivateCovers(a: Addr)
    ensures EntryCovers(Private, a) <==> exists i :: 0 <= i < 6 && PRIVATE_RANGES[i].Contains(a)
  {
    if EntryCovers(Private, a) {
      var n :| n in PRIVATE_RANGES && n.Contains(a);
      var i :| 0 <= i < |PRIVATE_RANGES| && PRIVATE_RANGES[i] == n;
    }
    if i :| 0 <= i < 6 && PRIVATE_RANGES[i].Contains(a) { assert PRIVATE_RANGES[i] in PRIVATE_RANGES; }
  }

  /** The address is in a source list. */
  predicate Listed(list: seq<Entry>, a: Addr) {
    exists e :: e in list && EntryCovers(e, a)
  }

  /** The address is in an address list, where the keyword means nothing. */
  predicate Covers(list: seq<Entry>, a: Addr) {
    exists e :: e in list && NetHolds(NetOf(e), a)
  }

  predicate ProtoMatches(rp: RuleProto, p: Proto) {
    match rp
    case TcpOnly => p == Tcp
    case UdpOnly => p == Udp
    case Both => p == Tcp || p == Udp
  }

  predicate ServerWide(r: PortRule) {
    r.addresses == []
  }

  /**
   The packet belongs to what a rule is about: its protocol, and the port and
   address the client asked for. On the host that is where the packet goes. In
   the forward chain a rewritten connection counts by its original destination,
   and only its client-to-server packets; a routed one by its destination. A
   server-wide rule takes every rewritten connection, and routed ones only to
   the addresses that follow it.
   */
  predicate Concerns(r: PortRule, sc: Scope, chain: Chain, p: Packet) {
    && ProtoMatches(r.proto, p.proto)
    && match chain
       case Host =>
         r.ports.Holds(p.dport) && (ServerWide(r) || Covers(r.addresses, p.dst))
       case Forward =>
         if p.dnat then
           p.original && r.ports.Holds(p.origDport) && (ServerWide(r) || Covers(r.addresses, p.origDst))
         else
           r.ports.Holds(p.dport) && Covers(if ServerWide(r) then sc.follow else r.addresses, p.dst)
  }

  /** What a rule says about a packet it concerns, if anything. */
  function Judge(r: PortRule, whitelist: seq<Entry>, p: Packet): Option<Action> {
    match r.mode
    case Allow =>
      if Listed(r.sources, p.src) || Listed(whitelist, p.src) then Some(Return)
      else if p.isNew then Some(Drop(r.id))
      else None
    case Deny =>
      if Listed(r.sources, p.src) && p.original then Some(Drop(r.id)) else None
  }

  function Decide(r: PortRule, whitelist: seq<Entry>, sc: Scope, chain: Chain, p: Packet): Option<Action> {
    if Concerns(r, sc, chain, p) then Judge(r, whitelist, p) else None
  }

  /** The first decision among the enabled rules with, or without, addresses. */
  function FirstOf(rules: seq<PortRule>, serverWide: bool, whitelist: seq<Entry>, sc: Scope, chain: Chain, p: Packet): Option<Action> {
    if rules == [] then None
    else
      var r := rules[|rules| - 1];
      OrElse(FirstOf(rules[..|rules| - 1], serverWide, whitelist, sc, chain, p),
             if r.enabled && ServerWide(r) == serverWide then Decide(r, whitelist, sc, chain, p) else None)
  }

  /** The connection goes to an address that keeps to its own rules. */
  predicate KeepsToOwnRules(sc: Scope, chain: Chain, p: Packet) {
    chain == Forward && p.dnat && Covers(sc.noFollow, p.origDst)
  }

  function Policy(rules: seq<PortRule>, whitelist: seq<Entry>, sc: Scope, chain: Chain, p: Packet): Option<Action> {
    if chain == Host && p.inLo then Some(Return)
    else
      var own := FirstOf(rules, false, whitelist, sc, chain, p);
      if own.Some? then own
      else if KeepsToOwnRules(sc, chain, p) then Some(Return)
      else FirstOf(rules, true, whitelist, sc, chain, p)
  }

  /** The lines of one family do to every packet of that family what the policy says. */
  ghost predicate Implements(lines: seq<Line>, rules: seq<PortRule>, whitelist: seq<Entry>, v6: bool, sc: Scope) {
    forall chain, p: Packet :: p.OfFamily(v6) ==> Hit(lines, chain, p) == Policy(rules, whitelist, sc, chain, p)
  }
}
