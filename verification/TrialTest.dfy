/**
 Which changes of the port rules need a trial (internal/portrules/manager.go),
 and why the others cannot lock anyone out of a protected port.
 */
module TrialTest {
  import opened Basics
  import opened PortModel

  // ---- the test

  /** Who reads the networks of a rule: the trial test or the compiler. */
  datatype Reading = AsTested | AsCompiled

  function NetAs(how: Reading, e: Entry): Option<Prefix> {
    if how.AsTested? then NetAsTested(e) else NetOf(e)
  }

  predicate HoldsHost(how: Reading, e: Entry, host: seq<Addr>) {
    exists h :: h in host && NetHolds(NetAs(how, e), h)
  }

  /** The rule applies to one of the server's own addresses; without a list of those, every rule counts. */
  predicate Reaches(how: Reading, r: PortRule, host: seq<Addr>) {
    r.addresses == [] || host == [] || exists e :: e in r.addresses && HoldsHost(how, e, host)
  }

  /** The test of the code, which does not unmap. */
  method ReachesHost(r: PortRule, host: seq<Addr>) returns (yes: bool)
    ensures yes == Reaches(AsTested, r, host)
  {
    if r.addresses == [] || host == [] {
      return true;
    }
    for i := 0 to |r.addresses|
      invariant forall e :: e in r.addresses[..i] ==> !HoldsHost(AsTested, e, host)
    {
      assert r.addresses[..i + 1] == r.addresses[..i] + [r.addresses[i]];
      var net := NetAsTested(r.addresses[i]);
      if net.None? {
        continue;
      }
      for j := 0 to |host|
        invariant forall h :: h in host[..j] ==> !net.value.Contains(h)
      {
        assert host[..j + 1] == host[..j] + [host[j]];
        if net.value.Contains(host[j]) {
          assert NetHolds(NetAs(AsTested, r.addresses[i]), host[j]);
          assert HoldsHost(AsTested, r.addresses[i], host);
          return true;
        }
      }
      assert host[..|host|] == host;
    }
    assert r.addresses[..|r.addresses|] == r.addresses;
    return false;
  }

  predicate Guards(how: Reading, r: PortRule, port: int, host: seq<Addr>) {
    r.enabled && r.proto != UdpOnly && Reaches(how, r, host) && r.ports.Holds(port)
  }

  /** The enabled rules that can decide who reaches a TCP port of the server itself. */
  function CoveringOf(how: Reading, rules: seq<PortRule>, port: int, host: seq<Addr>): seq<PortRule> {
    if rules == [] then []
    else
      var r := rules[|rules| - 1];
      CoveringOf(how, rules[..|rules| - 1], port, host) + if Guards(how, r, port, host) then [r] else []
  }

  lemma {:induction false} CoveringMembers(how: Reading, rules: seq<PortRule>, port: int, host: seq<Addr>)
    ensures forall r :: r in CoveringOf(how, rules, port, host) <==> r in rules && Guards(how, r, port, host)
    ensures forall i :: 0 <= i < |CoveringOf(how, rules, port, host)| ==> CoveringOf(how, rules, port, host)[i].enabled
  {
    if rules == [] {
    } else {
      CoveringMembers(how, rules[..|rules| - 1], port, host);
      assert rules == rules[..|rules| - 1] + [rules[|rules| - 1]];
    }
  }

  method Covering(rules: seq<PortRule>, port: int, host: seq<Addr>) returns (out: seq<PortRule>)
    ensures out == CoveringOf(AsTested, rules, port, host)
  {
    out := [];
    for i := 0 to |rules|
      invariant out == CoveringOf(AsTested, rules[..i], port, host)
    {
      var r := rules[i];
      assert rules[..i + 1][..i] == rules[..i];
      var reaches := ReachesHost(r, host);
      if !r.enabled || r.proto == UdpOnly || !reaches {
        continue;
      }
      if r.ports.Range? && port >= r.ports.lo && port <= r.ports.hi {
        out := out + [r];
      }
    }
    assert rules[..|rules|] == rules;
  }

  predicate SameRule(a: PortRule, b: PortRule) {
    a.ports == b.ports && a.proto == b.proto && a.mode == b.mode && a.sources == b.sources && a.addresses == b.addresses
  }

  predicate SameRules(xs: seq<PortRule>, ys: seq<PortRule>) {
    |xs| == |ys| && forall i :: 0 <= i < |xs| ==> SameRule(xs[i], ys[i])
  }

  /** The new rules restrict the port, and not as the saved ones do. */
  predicate Risky(how: Reading, saved: seq<PortRule>, next: seq<PortRule>, port: int, host: seq<Addr>) {
    CoveringOf(how, next, port, host) != [] && !SameRules(CoveringOf(how, saved, port, host), CoveringOf(how, next, port, host))
  }

  predicate StrictlyAscending(xs: seq<int>) {
    forall i, j :: 0 <= i < j < |xs| ==> xs[i] < xs[j]
  }

  lemma Between(before: seq<int>, x: int, after: seq<int>)
    requires StrictlyAscending(before) && StrictlyAscending(after)
    requires (forall y :: y in before ==> y < x) && (forall y :: y in after ==> x < y)
    ensures StrictlyAscending(before + [x] + after)
  {
    var out, k := before + [x] + after, |before|;
    forall i, j | 0 <= i < j < |out| ensures out[i] < out[j] {
      if i < k { assert out[i] in before; }
      if j > k { assert out[j] in after; }
    }
  }

  lemma PutInPlace(xs: seq<int>, x: int, k: nat)
    requires StrictlyAscending(xs) && k <= |xs|
    requires (k > 0 ==> xs[k - 1] < x) && (k < |xs| ==> x < xs[k])
    ensures StrictlyAscending(xs[..k] + [x] + xs[k..])
  {
    forall y | y in xs[..k] ensures y < x {
      var i :| 0 <= i < k && xs[i] == y;
      assert i < k - 1 ==> xs[i] < xs[k - 1];
    }
    forall y | y in xs[k..] ensures x < y {
      var i :| k <= i < |xs| && xs[i] == y;
      assert k < i ==> xs[k] < xs[i];
    }
    Between(xs[..k], x, xs[k..]);
  }

  /** A number put in its place among ascending others. */
  method Insert(xs: seq<int>, x: int) returns (out: seq<int>)
    requires StrictlyAscending(xs) && x !in xs
    ensures StrictlyAscending(out)
    ensures forall y :: y in out <==> y in xs || y == x
  {
    var k := 0;
    while k < |xs| && xs[k] < x
      invariant k <= |xs| && (k > 0 ==> xs[k - 1] < x)
    {
      k := k + 1;
    }
    assert k < |xs| ==> xs[k] in xs;
    PutInPlace(xs, x, k);
    assert xs == xs[..k] + xs[k..];
    out := xs[..k] + [x] + xs[k..];
  }

  /** slices.Sort on distinct numbers. */
  method Sort(xs: seq<int>) returns (out: seq<int>)
    requires forall i, j :: 0 <= i < j < |xs| ==> xs[i] != xs[j]
    ensures StrictlyAscending(out)
    ensures forall y :: y in out <==> y in xs
  {
    out := [];
    for i := 0 to |xs|
      invariant StrictlyAscending(out)
      invariant forall y :: y in out <==> y in xs[..i]
    {
      assert xs[..i + 1] == xs[..i] + [xs[i]];
      out := Insert(out, xs[i]);
    }
    assert xs[..|xs|] == xs;
  }

  /** The protected ports that need a trial, each once and in ascending order. */
  method RiskyPorts(saved: seq<PortRule>, next: seq<PortRule>, prot: seq<int>, host: seq<Addr>) returns (out: seq<int>)
    ensures StrictlyAscending(out)
    ensures forall port :: port in out <==> port in prot && Risky(AsTested, saved, next, port, host)
  {
    out := [];
    for i := 0 to |prot|
      invariant forall i, j :: 0 <= i < j < |out| ==> out[i] != out[j]
      invariant forall port :: port in out <==> port in prot[..i] && Risky(AsTested, saved, next, port, host)
    {
      assert prot[..i + 1] == prot[..i] + [prot[i]];
      var after := Covering(next, prot[i], host);
      var before := Covering(saved, prot[i], host);
      if after == [] || SameRules(before, after) {
        continue;
      }
      if prot[i] !in out {
        out := out + [prot[i]];
      }
    }
    assert prot[..|prot|] == prot;
    out := Sort(out);
  }

  // ---- why it is sound

  /** The packet asks for a TCP port at one of the server's own addresses. */
  predicate AsksHost(p: Packet, port: int, host: seq<Addr>, chain: Chain) {
    && p.proto == Tcp
    && AskedPort(p, chain) == port
    && (host == [] || AskedAddr(p, chain) in host)
  }

  function AskedAddr(p: Packet, chain: Chain): Addr {
    if chain == Forward && p.dnat then p.origDst else p.dst
  }

  function AskedPort(p: Packet, chain: Chain): int {
    if chain == Forward && p.dnat then p.origDport else p.dport
  }

  predicate NotPassedOn(a: Addr, sc: Scope) {
    !Covers(sc.follow, a) && !Covers(sc.noFollow, a)
  }

  /** Only the covering rules have a say. */
  lemma {:induction false} CoveringDecides(rules: seq<PortRule>, sw: bool, wl: seq<Entry>, sc: Scope, port: int, host: seq<Addr>, chain: Chain, p: Packet)
    requires AsksHost(p, port, host, chain)
    ensures FirstOf(rules, sw, wl, sc, chain, p) == FirstOf(CoveringOf(AsCompiled, rules, port, host), sw, wl, sc, chain, p)
  {
    if rules == [] {
    } else {
      var rest, r := rules[..|rules| - 1], rules[|rules| - 1];
      CoveringDecides(rest, sw, wl, sc, port, host, chain, p);
      var c, c' := CoveringOf(AsCompiled, rest, port, host), CoveringOf(AsCompiled, rules, port, host);
      if Guards(AsCompiled, r, port, host) {
        assert c'[..|c'| - 1] == c;
      } else {
        assert c' == c;
      }
    }
  }

  /** Both let through, both drop, or neither decides. */
  predicate Alike(a: Option<Action>, b: Option<Action>) {
    a.Some? == b.Some? && (a.Some? ==> a.value.Drop? == b.value.Drop?)
  }

  /** Rules that differ only in what decides nothing decide alike. */
  lemma {:induction false} SameRulesDecide(xs: seq<PortRule>, ys: seq<PortRule>, sw: bool, wl: seq<Entry>, sc: Scope, chain: Chain, p: Packet)
    requires SameRules(xs, ys)
    requires forall i :: 0 <= i < |xs| ==> xs[i].enabled && ys[i].enabled
    ensures Alike(FirstOf(xs, sw, wl, sc, chain, p), FirstOf(ys, sw, wl, sc, chain, p))
  {
    if xs == [] {
    } else {
      var n := |xs| - 1;
      SameRulesDecide(xs[..n], ys[..n], sw, wl, sc, chain, p);
    }
  }

  /** For an address that is not passed on the scope makes no difference. */
  lemma {:induction false} ScopeIrrelevant(rules: seq<PortRule>, sw: bool, wl: seq<Entry>, sc: Scope, sc': Scope, chain: Chain, p: Packet)
    requires NotPassedOn(AskedAddr(p, chain), sc) && NotPassedOn(AskedAddr(p, chain), sc')
    ensures FirstOf(rules, sw, wl, sc, chain, p) == FirstOf(rules, sw, wl, sc', chain, p)
  {
    if rules == [] {
    } else {
      ScopeIrrelevant(rules[..|rules| - 1], sw, wl, sc, sc', chain, p);
    }
  }

  predicate PolicyDrops(rules: seq<PortRule>, wl: seq<Entry>, sc: Scope, chain: Chain, p: Packet) {
    Policy(rules, wl, sc, chain, p).Some? && Policy(rules, wl, sc, chain, p).value.Drop?
  }

  /** No covering rules: everyone gets through. */
  lemma UncoveredPasses(rules: seq<PortRule>, wl: seq<Entry>, sc: Scope, port: int, host: seq<Addr>, chain: Chain, p: Packet)
    requires AsksHost(p, port, host, chain) && CoveringOf(AsCompiled, rules, port, host) == []
    ensures !PolicyDrops(rules, wl, sc, chain, p)
  {
    CoveringDecides(rules, false, wl, sc, port, host, chain, p);
    CoveringDecides(rules, true, wl, sc, port, host, chain, p);
  }

  predicate SameEitherWay(p: Packet, chain: Chain, sc: Scope, sc': Scope) {
    sc == sc' || (NotPassedOn(AskedAddr(p, chain), sc) && NotPassedOn(AskedAddr(p, chain), sc'))
  }

  lemma SameCoveringAlike(xs: seq<PortRule>, ys: seq<PortRule>, sw: bool, wl: seq<Entry>, sc: Scope, sc': Scope, port: int, host: seq<Addr>, chain: Chain, p: Packet)
    requires AsksHost(p, port, host, chain) && SameRules(CoveringOf(AsCompiled, xs, port, host), CoveringOf(AsCompiled, ys, port, host))
    requires SameEitherWay(p, chain, sc, sc')
    ensures Alike(FirstOf(xs, sw, wl, sc, chain, p), FirstOf(ys, sw, wl, sc', chain, p))
  {
    CoveringDecides(xs, sw, wl, sc, port, host, chain, p);
    CoveringDecides(ys, sw, wl, sc, port, host, chain, p);
    CoveringMembers(AsCompiled, xs, port, host);
    CoveringMembers(AsCompiled, ys, port, host);
    SameRulesDecide(CoveringOf(AsCompiled, xs, port, host), CoveringOf(AsCompiled, ys, port, host), sw, wl, sc, chain, p);
    if sc != sc' { ScopeIrrelevant(ys, sw, wl, sc, sc', chain, p); }
  }

  /** The same covering rules: the same verdict. */
  lemma SameCoveringSameVerdict(xs: seq<PortRule>, ys: seq<PortRule>, wl: seq<Entry>, sc: Scope, sc': Scope, port: int, host: seq<Addr>, chain: Chain, p: Packet)
    requires AsksHost(p, port, host, chain) && SameRules(CoveringOf(AsCompiled, xs, port, host), CoveringOf(AsCompiled, ys, port, host))
    requires SameEitherWay(p, chain, sc, sc')
    ensures PolicyDrops(xs, wl, sc, chain, p) == PolicyDrops(ys, wl, sc', chain, p)
  {
    SameCoveringAlike(xs, ys, false, wl, sc, sc', port, host, chain, p);
    SameCoveringAlike(xs, ys, true, wl, sc, sc', port, host, chain, p);
  }

  /**
   A change that restricts no port as the compiler reads it: the new chains
   treat every TCP packet that asks for the port at one of the server's own
   addresses as the saved chains do, or they let everyone through.
   */
  lemma HarmlessAsCompiled(saved: seq<PortRule>, next: seq<PortRule>, port: int, host: seq<Addr>, wl: seq<Entry>, v6: bool,
      scSaved: Scope, scNext: Scope, savedLines: seq<Line>, nextLines: seq<Line>, chain: Chain, p: Packet)
    requires Implements(savedLines, saved, wl, v6, scSaved) && Implements(nextLines, next, wl, v6, scNext)
    requires !Risky(AsCompiled, saved, next, port, host)
    requires p.OfFamily(v6) && AsksHost(p, port, host, chain)
    requires SameEitherWay(p, chain, scSaved, scNext)
    ensures CoveringOf(AsCompiled, next, port, host) == [] ==> !Dropped(nextLines, chain, p)
    ensures CoveringOf(AsCompiled, next, port, host) != [] ==> Dropped(nextLines, chain, p) == Dropped(savedLines, chain, p)
  {
    if CoveringOf(AsCompiled, next, port, host) == [] {
      UncoveredPasses(next, wl, scNext, port, host, chain, p);
    } else {
      SameCoveringSameVerdict(saved, next, wl, scSaved, scNext, port, host, chain, p);
    }
  }

  // ---- why a report is no accident

  /** The rules that can have a say on a TCP port: without disabled ones and those for UDP. */
  function Relevant(rules: seq<PortRule>): seq<PortRule> {
    if rules == [] then []
    else
      var r := rules[|rules| - 1];
      Relevant(rules[..|rules| - 1]) + if r.enabled && r.proto in {TcpOnly, Both} then [r] else []
  }

  lemma {:induction false} RelevantCovers(how: Reading, rules: seq<PortRule>, port: int, host: seq<Addr>)
    ensures CoveringOf(how, Relevant(rules), port, host) == CoveringOf(how, rules, port, host)
  {
    if rules == [] {
    } else {
      var init, r := Relevant(rules[..|rules| - 1]), rules[|rules| - 1];
      RelevantCovers(how, rules[..|rules| - 1], port, host);
      assert (init + [r])[..|init|] == init;
      assert CoveringOf(how, init, port, host) + [] == CoveringOf(how, init, port, host) && init + [] == init;
    }
  }

  /** Rules that are disabled or for UDP put no port on trial, and keep none from it. */
  lemma OnlyRelevantRisky(how: Reading, saved: seq<PortRule>, next: seq<PortRule>, port: int, host: seq<Addr>)
    ensures Risky(how, Relevant(saved), next, port, host) == Risky(how, saved, next, port, host)
    ensures Risky(how, saved, Relevant(next), port, host) == Risky(how, saved, next, port, host)
  {
    RelevantCovers(how, saved, port, host);
    RelevantCovers(how, next, port, host);
  }

  /** Every address of a rule names a network; Validate refuses rules where one does not. */
  predicate Wellformed(rules: seq<PortRule>) {
    forall r, e :: r in rules && e in r.addresses ==> Normal(e).Some?
  }

  /** The first packet of a connection to a port of the host. */
  function Knock(a: Addr, port: int): Packet {
    Packet(false, a, a, port, Tcp, true, true, false, a, port)
  }

  lemma NormalHoldsOne(e: Entry) returns (a: Addr)
    requires Normal(e).Some?
    ensures NetHolds(NetOf(e), a)
  {
    a := if e.Bare? then Unmap(e.a) else Masked(e.a, e.bits);
  }

  /** What the test takes for reaching the server is an address that the compiled rule is for. */
  lemma GuardConcerns(r: PortRule, port: int, host: seq<Addr>, sc: Scope) returns (a: Addr)
    requires Guards(AsTested, r, port, host) && Wellformed([r]) && forall h :: h in host ==> !Mapped(h)
    ensures Concerns(r, sc, Host, Knock(a, port)) && AsksHost(Knock(a, port), port, host, Host)
  {
    assert r in [r];
    if r.addresses == [] {
      a := if host == [] then Addr(false, 0) else host[0];
    } else if host == [] {
      a := NormalHoldsOne(r.addresses[0]);
    } else {
      var e :| e in r.addresses && HoldsHost(AsTested, e, host);
      EntryReadAlike(e, host);
      a :| a in host && NetHolds(NetAs(AsCompiled, e), a);
    }
  }

  /** A reported port has an enabled rule among the new ones that is for some TCP packet to it at an own address. */
  lemma ReportedIsReached(saved: seq<PortRule>, next: seq<PortRule>, port: int, host: seq<Addr>, sc: Scope) returns (r: PortRule, p: Packet)
    requires Risky(AsTested, saved, next, port, host) && Wellformed(next) && forall h :: h in host ==> !Mapped(h)
    ensures r in next && r.enabled && p.proto == Tcp && AsksHost(p, port, host, Host)
    ensures Concerns(r, sc, Host, p)
  {
    r := CoveringOf(AsTested, next, port, host)[0];
    CoveringMembers(AsTested, next, port, host);
    assert Wellformed([r]);
    var a := GuardConcerns(r, port, host, sc);
    p := Knock(a, port);
  }

  lemma {:induction false} SameRulesCover(how: Reading, xs: seq<PortRule>, ys: seq<PortRule>, port: int, host: seq<Addr>)
    requires |xs| == |ys| && forall i :: 0 <= i < |xs| ==> ys[i] == xs[i].(id := ys[i].id)
    ensures SameRules(CoveringOf(how, xs, port, host), CoveringOf(how, ys, port, host))
  {
    if xs == [] {
    } else {
      var n := |xs| - 1;
      SameRulesCover(how, xs[..n], ys[..n], port, host);
      assert Guards(how, xs[n], port, host) == Guards(how, ys[n], port, host);
    }
  }

  /** Identifiers do not count: nothing is reported for the same rules under others. */
  lemma RenamedNotRisky(how: Reading, saved: seq<PortRule>, next: seq<PortRule>, port: int, host: seq<Addr>)
    requires |saved| == |next| && forall i :: 0 <= i < |saved| ==> next[i] == saved[i].(id := next[i].id)
    ensures !Risky(how, saved, next, port, host)
  {
    SameRulesCover(how, saved, next, port, host);
  }

  // ---- where the test and the compiler read alike

  predicate ReadAlike(r: PortRule, host: seq<Addr>) {
    Reaches(AsTested, r, host) == Reaches(AsCompiled, r, host)
  }

  /** The rule names one of the server's addresses as a mapped one without a length, and the test finds no other. */
  predicate Hidden(r: PortRule, host: seq<Addr>) {
    && r.addresses != [] && host != []
    && (exists e :: e in r.addresses && e.Bare? && Mapped(e.a) && Unmap(e.a) in host)
    && forall e, h :: e in r.addresses && h in host ==> !NetHolds(NetAsTested(e), h)
  }

  lemma EntryReadAlike(e: Entry, host: seq<Addr>)
    requires forall h :: h in host ==> !Mapped(h)
    ensures HoldsHost(AsTested, e, host) ==> HoldsHost(AsCompiled, e, host)
    ensures !HoldsHost(AsTested, e, host) && HoldsHost(AsCompiled, e, host) ==> e.Bare? && Mapped(e.a) && Unmap(e.a) in host
    ensures e.Bare? && Mapped(e.a) && Unmap(e.a) in host ==> HoldsHost(AsCompiled, e, host)
  {
    ReadingsAgreeIff(e);
    if h :| h in host && NetHolds(NetOf(e), h) {
      if e.Bare? { assert h == Unmap(e.a); }
    }
    if e.Bare? && Mapped(e.a) && Unmap(e.a) in host { assert NetHolds(NetAs(AsCompiled, e), Unmap(e.a)); }
  }

  /** Exactly when the test and the compiler disagree on whether a rule reaches the server. */
  lemma ReadAlikeIff(r: PortRule, host: seq<Addr>)
    requires forall h :: h in host ==> !Mapped(h)
    ensures ReadAlike(r, host) <==> !Hidden(r, host)
  {
    forall e | e in r.addresses
      ensures HoldsHost(AsTested, e, host) ==> HoldsHost(AsCompiled, e, host)
      ensures !HoldsHost(AsTested, e, host) && HoldsHost(AsCompiled, e, host) ==> e.Bare? && Mapped(e.a) && Unmap(e.a) in host
      ensures e.Bare? && Mapped(e.a) && Unmap(e.a) in host ==> HoldsHost(AsCompiled, e, host)
    {
      EntryReadAlike(e, host);
    }
    assert (forall e, h :: e in r.addresses && h in host ==> !NetHolds(NetAsTested(e), h)) <==>
      (forall e :: e in r.addresses ==> !HoldsHost(AsTested, e, host)) by {
      assert forall e :: HoldsHost(AsTested, e, host) <==> exists h :: h in host && NetHolds(NetAsTested(e), h);
    }
  }

  /** The test sees every enabled rule that reaches the server. */
  predicate TestSees(rules: seq<PortRule>, host: seq<Addr>) {
    forall r :: r in rules && r.enabled ==> ReadAlike(r, host)
  }

  /** It does when no rule names a mapped address without a length. */
  lemma PlainIsSeen(rules: seq<PortRule>, host: seq<Addr>)
    requires forall h :: h in host ==> !Mapped(h)
    requires forall r, e :: r in rules && r.enabled && e in r.addresses ==> !(e.Bare? && Mapped(e.a))
    ensures TestSees(rules, host)
  {
    forall r | r in rules && r.enabled ensures ReadAlike(r, host) {
      ReadAlikeIff(r, host);
    }
  }

  lemma {:induction false} SeenCoversAlike(rules: seq<PortRule>, port: int, host: seq<Addr>)
    requires TestSees(rules, host)
    ensures CoveringOf(AsTested, rules, port, host) == CoveringOf(AsCompiled, rules, port, host)
  {
    if rules == [] {
    } else {
      assert rules[|rules| - 1] in rules;
      SeenCoversAlike(rules[..|rules| - 1], port, host);
    }
  }

  /**
   The test is sound for the compiler on rules it sees: without a report for
   a port, no chain turns anyone away from it that the saved ones let in.
   */
  lemma NotRiskySound(saved: seq<PortRule>, next: seq<PortRule>, port: int, host: seq<Addr>, wl: seq<Entry>, v6: bool,
      scSaved: Scope, scNext: Scope, savedLines: seq<Line>, nextLines: seq<Line>, chain: Chain, p: Packet)
    requires Implements(savedLines, saved, wl, v6, scSaved) && Implements(nextLines, next, wl, v6, scNext)
    requires TestSees(saved, host) && TestSees(next, host) && !Risky(AsTested, saved, next, port, host)
    requires p.OfFamily(v6) && AsksHost(p, port, host, chain)
    requires SameEitherWay(p, chain, scSaved, scNext)
    ensures CoveringOf(AsCompiled, next, port, host) == [] ==> !Dropped(nextLines, chain, p)
    ensures CoveringOf(AsCompiled, next, port, host) != [] ==> Dropped(nextLines, chain, p) == Dropped(savedLines, chain, p)
  {
    SeenCoversAlike(saved, port, host);
    SeenCoversAlike(next, port, host);
    HarmlessAsCompiled(saved, next, port, host, wl, v6, scSaved, scNext, savedLines, nextLines, chain, p);
  }

  // ---- rules that were stored and validated again

  /** The networks of a list, each validated again and taken once. */
  function RereadAll(list: seq<Entry>): seq<Entry> {
    if list == [] then []
    else
      var init, e := RereadAll(list[..|list| - 1]), Reread(list[|list| - 1]);
      if e in init then init else init + [e]
  }

  function Reloaded(r: PortRule): PortRule {
    r.(sources := RereadAll(r.sources), addresses := RereadAll(r.addresses))
  }

  function Loaded(rules: seq<PortRule>): seq<PortRule> {
    if rules == [] then [] else Loaded(rules[..|rules| - 1]) + [Reloaded(rules[|rules| - 1])]
  }

  lemma {:induction false} RereadMembers(list: seq<Entry>)
    ensures forall e :: e in RereadAll(list) <==> exists x :: x in list && Reread(x) == e
    ensures RereadAll(list) == [] <==> list == []
  {
    if list == [] {
    } else {
      var n := |list| - 1;
      RereadMembers(list[..n]);
      assert list == list[..n] + [list[n]];
    }
  }

  lemma {:induction false} RereadIsTidy(list: seq<Entry>)
    ensures forall i, j :: 0 <= i < j < |RereadAll(list)| ==> RereadAll(list)[i] != RereadAll(list)[j]
  {
    if list == [] {
    } else {
      RereadIsTidy(list[..|list| - 1]);
    }
  }

  lemma {:induction false} RereadTwice(list: seq<Entry>)
    ensures RereadAll(RereadAll(list)) == RereadAll(list)
  {
    if list == [] {
    } else {
      var n := |list| - 1;
      var init, e := RereadAll(list[..n]), Reread(list[n]);
      RereadTwice(list[..n]);
      if e !in init { assert (init + [e])[..|init|] == init; }
    }
  }

  lemma ReloadedTwice(r: PortRule)
    ensures Reloaded(Reloaded(r)) == Reloaded(r)
  {
    RereadTwice(r.sources);
    RereadTwice(r.addresses);
  }

  /** Loading what was loaded changes nothing more. */
  lemma {:induction false} LoadedTwice(rules: seq<PortRule>)
    ensures Loaded(Loaded(rules)) == Loaded(rules)
  {
    if rules == [] {
    } else {
      var init, r := rules[..|rules| - 1], rules[|rules| - 1];
      LoadedTwice(init);
      ReloadedTwice(r);
    }
  }

  lemma RereadCovers(list: seq<Entry>, a: Addr)
    ensures Covers(RereadAll(list), a) == Covers(list, a) && Listed(RereadAll(list), a) == Listed(list, a)
  {
    RereadMembers(list);
    if e :| e in list && NetHolds(NetOf(e), a) { assert Reread(e) in RereadAll(list); }
    if e :| e in list && EntryCovers(e, a) { assert Reread(e) in RereadAll(list); }
  }

  lemma ReloadedDecides(r: PortRule, wl: seq<Entry>, sc: Scope, chain: Chain, p: Packet)
    ensures Decide(Reloaded(r), wl, sc, chain, p) == Decide(r, wl, sc, chain, p)
    ensures ServerWide(Reloaded(r)) == ServerWide(r)
  {
    RereadMembers(r.addresses);
    RereadCovers(r.addresses, p.dst);
    RereadCovers(r.addresses, p.origDst);
    RereadCovers(r.sources, p.src);
  }

  lemma {:induction false} LoadedDecides(rules: seq<PortRule>, sw: bool, wl: seq<Entry>, sc: Scope, chain: Chain, p: Packet)
    ensures FirstOf(Loaded(rules), sw, wl, sc, chain, p) == FirstOf(rules, sw, wl, sc, chain, p)
  {
    if rules == [] {
    } else {
      var n := |rules| - 1;
      LoadedDecides(rules[..n], sw, wl, sc, chain, p);
      ReloadedDecides(rules[n], wl, sc, chain, p);
      assert Loaded(rules)[..|Loaded(rules)| - 1] == Loaded(rules[..n]);
    }
  }

  /** Validating stored rules again leaves every verdict as it was. */
  lemma LoadedPolicy(rules: seq<PortRule>, wl: seq<Entry>, sc: Scope, chain: Chain, p: Packet)
    ensures Policy(Loaded(rules), wl, sc, chain, p) == Policy(rules, wl, sc, chain, p)
  {
    LoadedDecides(rules, false, wl, sc, chain, p);
    LoadedDecides(rules, true, wl, sc, chain, p);
  }

  lemma LoadedImplements(lines: seq<Line>, rules: seq<PortRule>, wl: seq<Entry>, v6: bool, sc: Scope)
    requires Implements(lines, rules, wl, v6, sc)
    ensures Implements(lines, Loaded(rules), wl, v6, sc)
  {
    forall chain, p: Packet | p.OfFamily(v6) ensures Hit(lines, chain, p) == Policy(Loaded(rules), wl, sc, chain, p) {
      LoadedPolicy(rules, wl, sc, chain, p);
    }
  }

  lemma ReloadedReadAlike(r: PortRule, host: seq<Addr>)
    ensures Reaches(AsCompiled, Reloaded(r), host) == Reaches(AsCompiled, r, host)
    ensures ReadAlike(Reloaded(r), host)
  {
    RereadMembers(r.addresses);
    forall e ensures HoldsHost(AsCompiled, Reread(e), host) == HoldsHost(AsCompiled, e, host)
      && HoldsHost(AsTested, Reread(e), host) == HoldsHost(AsCompiled, e, host)
    {
      assert NetOf(Reread(e)) == NetOf(e) && NetAsTested(Reread(e)) == NetOf(e);
    }
    if e :| e in r.addresses && HoldsHost(AsCompiled, e, host) { assert Reread(e) in RereadAll(r.addresses); }
  }

  /** The test sees rules that were stored and loaded. */
  lemma {:induction false} LoadedIsSeen(rules: seq<PortRule>, host: seq<Addr>)
    ensures TestSees(Loaded(rules), host)
  {
    if rules == [] {
    } else {
      LoadedIsSeen(rules[..|rules| - 1], host);
      ReloadedReadAlike(rules[|rules| - 1], host);
    }
  }

  lemma {:induction false} LoadedCovers(rules: seq<PortRule>, port: int, host: seq<Addr>)
    ensures CoveringOf(AsCompiled, Loaded(rules), port, host) == Loaded(CoveringOf(AsCompiled, rules, port, host))
  {
    if rules == [] {
    } else {
      var n := |rules| - 1;
      LoadedCovers(rules[..n], port, host);
      ReloadedReadAlike(rules[n], host);
      assert Loaded(rules)[..|Loaded(rules)| - 1] == Loaded(rules[..n]);
      var c := CoveringOf(AsCompiled, rules[..n], port, host);
      assert c + [] == c && Loaded(c) + [] == Loaded(c);
    }
  }

  lemma {:induction false} LoadedAt(rules: seq<PortRule>)
    ensures |Loaded(rules)| == |rules|
    ensures forall i :: 0 <= i < |rules| ==> Loaded(rules)[i] == Reloaded(rules[i])
  {
    if rules == [] {
    } else {
      LoadedAt(rules[..|rules| - 1]);
    }
  }

  lemma LoadedSame(xs: seq<PortRule>, ys: seq<PortRule>)
    requires SameRules(xs, ys)
    ensures SameRules(Loaded(xs), Loaded(ys))
  {
    LoadedAt(xs);
    LoadedAt(ys);
    forall i | 0 <= i < |xs| ensures SameRule(Loaded(xs)[i], Loaded(ys)[i]) {
      assert SameRule(xs[i], ys[i]);
    }
  }

  /** Loading two rule sets does not tell them apart. */
  lemma LoadedNoRiskier(saved: seq<PortRule>, next: seq<PortRule>, port: int, host: seq<Addr>)
    requires !Risky(AsCompiled, saved, next, port, host)
    ensures !Risky(AsCompiled, Loaded(saved), Loaded(next), port, host)
  {
    LoadedCovers(saved, port, host);
    LoadedCovers(next, port, host);
    if CoveringOf(AsCompiled, next, port, host) != [] {
      LoadedSame(CoveringOf(AsCompiled, saved, port, host), CoveringOf(AsCompiled, next, port, host));
    }
  }

  // ---- a rule the test does not see

  /** 203.0.113.5, and the mapped address that stands for it. */
  const SERVER := Addr(false, 0xcb00_7105)
  const SERVER_MAPPED := Addr(true, MAPPED + 0xcb00_7105)

  /** Port 22 at ::ffff:203.0.113.5 for one other source only. */
  const HIDDEN_RULE := PortRule("a", TcpOnly, Range(22, 22), Allow, [Bare(Addr(false, 1))], [Bare(SERVER_MAPPED)], true)

  lemma HiddenRuleMissed()
    ensures Normal(Slash(SERVER_MAPPED, 128)) == Some(HIDDEN_RULE.addresses[0])
    ensures Hidden(HIDDEN_RULE, [SERVER])
    ensures CoveringOf(AsTested, [HIDDEN_RULE], 22, [SERVER]) == []
    ensures CoveringOf(AsCompiled, [HIDDEN_RULE], 22, [SERVER]) == [HIDDEN_RULE]
  {
    var e := HIDDEN_RULE.addresses[0];
    assert e in HIDDEN_RULE.addresses && Unmap(SERVER_MAPPED) == SERVER && SERVER in [SERVER];
    assert [HIDDEN_RULE][..0] == [];
    assert CoveringOf(AsTested, [], 22, [SERVER]) == [] && CoveringOf(AsCompiled, [], 22, [SERVER]) == [];
    assert HoldsHost(AsCompiled, e, [SERVER]) && !HoldsHost(AsTested, e, [SERVER]);
  }

  /**
   A rule written for ::ffff:203.0.113.5/128 is validated to the address
   alone, which the test takes for IPv6 and the compiler for IPv4: no report
   and no trial, and everyone else loses port 22 of the server.
   */
  lemma HiddenRuleExample(lines: seq<Line>, src: Addr)
    requires Implements(lines, [HIDDEN_RULE], [], false, Scope([], []))
    requires !src.v6 && src.n != 1
    ensures !Risky(AsTested, [], [HIDDEN_RULE], 22, [SERVER])
    ensures var p := Packet(false, src, SERVER, 22, Tcp, true, true, false, SERVER, 22);
      AsksHost(p, 22, [SERVER], Host) && Dropped(lines, Host, p) && !PolicyDrops([], [], Scope([], []), Host, p)
  {
    HiddenRuleMissed();
    var p := Packet(false, src, SERVER, 22, Tcp, true, true, false, SERVER, 22);
    var r := HIDDEN_RULE;
    assert [r][..0] == [] && FirstOf([], false, [], Scope([], []), Host, p) == None;
    assert NetHolds(NetOf(r.addresses[0]), SERVER) && r.addresses[0] in r.addresses;
    assert Concerns(r, Scope([], []), Host, p);
    assert !EntryCovers(r.sources[0], src) && !Listed(r.sources, src) && !Listed([], src);
    assert Policy([r], [], Scope([], []), Host, p) == Some(Drop("a"));
  }
}
