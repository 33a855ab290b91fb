/** What the compiled chains guarantee, whatever the rules are (internal/firewall/ports.go). */
module PortGuarantees {
  import opened Basics
  import opened PortModel

  // ---- addresses with their own rules

  function WithoutServerWide(rules: seq<PortRule>): seq<PortRule> {
    if rules == [] then []
    else
      var r := rules[|rules| - 1];
      WithoutServerWide(rules[..|rules| - 1]) + if ServerWide(r) then [] else [r]
  }

  lemma {:induction false} FirstOfWithout(rules: seq<PortRule>, wl: seq<Entry>, sc: Scope, chain: Chain, p: Packet)
    ensures FirstOf(WithoutServerWide(rules), false, wl, sc, chain, p) == FirstOf(rules, false, wl, sc, chain, p)
    ensures FirstOf(WithoutServerWide(rules), true, wl, sc, chain, p) == None
  {
    if rules == [] {
    } else {
      var rest, r := rules[..|rules| - 1], rules[|rules| - 1];
      FirstOfWithout(rest, wl, sc, chain, p);
      if ServerWide(r) {
        assert WithoutServerWide(rules) == WithoutServerWide(rest);
      } else {
        assert WithoutServerWide(rules)[..|WithoutServerWide(rest)|] == WithoutServerWide(rest);
      }
    }
  }

  lemma {:induction false} ServerWideSkips(rules: seq<PortRule>, wl: seq<Entry>, sc: Scope, p: Packet)
    requires !p.dnat && !Covers(sc.follow, p.dst)
    ensures FirstOf(rules, true, wl, sc, Forward, p) == None
  {
    if rules == [] {
    } else {
      ServerWideSkips(rules[..|rules| - 1], wl, sc, p);
    }
  }

  /** A connection passed on to an address that keeps to its own rules, rewritten or routed. */
  predicate PassedOnUnfollowed(sc: Scope, p: Packet) {
    if p.dnat then Covers(sc.noFollow, p.origDst)
    else Covers(sc.noFollow, p.dst) && !Covers(sc.follow, p.dst)
  }

  /** Deleting every server-wide rule changes nothing for such an address. */
  lemma OwnRulesOnly(rules: seq<PortRule>, wl: seq<Entry>, v6: bool, sc: Scope, lines: seq<Line>, fewer: seq<Line>, p: Packet)
    requires Implements(lines, rules, wl, v6, sc)
    requires Implements(fewer, WithoutServerWide(rules), wl, v6, sc)
    requires p.OfFamily(v6) && PassedOnUnfollowed(sc, p)
    ensures Dropped(lines, Forward, p) == Dropped(fewer, Forward, p)
  {
    FirstOfWithout(rules, wl, sc, Forward, p);
    if !p.dnat { ServerWideSkips(rules, wl, sc, p); }
  }

  // ---- sessions that were open before

  /** The rules that get to judge a packet, in the order they do. */
  function Judges(rules: seq<PortRule>, serverWide: bool, sc: Scope, chain: Chain, p: Packet): (js: seq<PortRule>)
    ensures forall r :: r in js ==> r in rules && r.enabled
  {
    if rules == [] then []
    else
      var r := rules[|rules| - 1];
      Judges(rules[..|rules| - 1], serverWide, sc, chain, p) +
      if r.enabled && ServerWide(r) == serverWide && Concerns(r, sc, chain, p) then [r] else []
  }

  function AllJudges(rules: seq<PortRule>, sc: Scope, chain: Chain, p: Packet): seq<PortRule> {
    if chain == Host && p.inLo then []
    else Judges(rules, false, sc, chain, p) + if KeepsToOwnRules(sc, chain, p) then [] else Judges(rules, true, sc, chain, p)
  }

  function FirstJudgement(js: seq<PortRule>, wl: seq<Entry>, p: Packet): Option<Action> {
    if js == [] then None
    else OrElse(FirstJudgement(js[..|js| - 1], wl, p), Judge(js[|js| - 1], wl, p))
  }

  lemma {:induction false} JudgementConcat(a: seq<PortRule>, b: seq<PortRule>, wl: seq<Entry>, p: Packet)
    ensures FirstJudgement(a + b, wl, p) == OrElse(FirstJudgement(a, wl, p), FirstJudgement(b, wl, p))
  {
    if b == [] {
      assert a + b == a;
    } else {
      assert (a + b)[..|a + b| - 1] == a + b[..|b| - 1];
      JudgementConcat(a, b[..|b| - 1], wl, p);
    }
  }

  lemma {:induction false} JudgesDecide(rules: seq<PortRule>, serverWide: bool, wl: seq<Entry>, sc: Scope, chain: Chain, p: Packet)
    ensures FirstOf(rules, serverWide, wl, sc, chain, p) == FirstJudgement(Judges(rules, serverWide, sc, chain, p), wl, p)
  {
    if rules == [] {
    } else {
      var rest := rules[..|rules| - 1];
      JudgesDecide(rest, serverWide, wl, sc, chain, p);
      var js, all := Judges(rest, serverWide, sc, chain, p), Judges(rules, serverWide, sc, chain, p);
      assert all == js || all[..|js|] == js;
    }
  }

  predicate Cuts(r: PortRule, p: Packet) {
    r.mode == Deny && Listed(r.sources, p.src) && p.original
  }

  predicate Admits(r: PortRule, wl: seq<Entry>, p: Packet) {
    r.mode == Allow && (Listed(r.sources, p.src) || Listed(wl, p.src))
  }

  /** Some rule cuts the packet, and no earlier one admits its source. */
  predicate CutBefore(js: seq<PortRule>, wl: seq<Entry>, p: Packet) {
    js != [] &&
    var rest := js[..|js| - 1];
    CutBefore(rest, wl, p) || (Cuts(js[|js| - 1], p) && forall r :: r in rest ==> !Admits(r, wl, p))
  }

  lemma {:induction false} OpenSessionJudged(js: seq<PortRule>, wl: seq<Entry>, p: Packet)
    requires !p.isNew
    ensures FirstJudgement(js, wl, p) == Some(Return) ==> exists r :: r in js && Admits(r, wl, p)
    ensures FirstJudgement(js, wl, p).None? ==> forall r :: r in js ==> !Cuts(r, p) && !Admits(r, wl, p)
    ensures CutBefore(js, wl, p) <==> FirstJudgement(js, wl, p).Some? && FirstJudgement(js, wl, p).value.Drop?
  {
    if js == [] {
    } else {
      var rest := js[..|js| - 1];
      OpenSessionJudged(rest, wl, p);
      var r := js[|js| - 1];
      assert js == rest + [r] && r in js;
      if FirstJudgement(js, wl, p) == Some(Return) && FirstJudgement(rest, wl, p).None? {
        assert Admits(r, wl, p);
      }
    }
  }

  /**
   Exactly when a packet of an open session is dropped: an "everyone except"
   rule that concerns it lists its source, it travels from the client, and no
   "only these" rule judging it earlier lets the source in.
   */
  lemma OpenSessionDroppedIff(rules: seq<PortRule>, wl: seq<Entry>, v6: bool, sc: Scope, lines: seq<Line>, chain: Chain, p: Packet)
    requires Implements(lines, rules, wl, v6, sc) && p.OfFamily(v6) && !p.isNew
    ensures Dropped(lines, chain, p) <==> CutBefore(AllJudges(rules, sc, chain, p), wl, p)
  {
    var js := AllJudges(rules, sc, chain, p);
    JudgesDecide(rules, false, wl, sc, chain, p);
    JudgesDecide(rules, true, wl, sc, chain, p);
    var own, general := Judges(rules, false, sc, chain, p), Judges(rules, true, sc, chain, p);
    JudgementConcat(own, general, wl, p);
    assert own + [] == own;
    OpenSessionJudged(js, wl, p);
  }

  /** "Only these" rules alone never touch an open session. */
  lemma AllAllowSparesOpenSessions(rules: seq<PortRule>, wl: seq<Entry>, v6: bool, sc: Scope, lines: seq<Line>, chain: Chain, p: Packet)
    requires Implements(lines, rules, wl, v6, sc) && p.OfFamily(v6) && !p.isNew
    requires forall r :: r in rules && r.enabled ==> r.mode == Allow
    ensures !Dropped(lines, chain, p)
  {
    OpenSessionDroppedIff(rules, wl, v6, sc, lines, chain, p);
    NoDenyNoCut(AllJudges(rules, sc, chain, p), wl, p);
  }

  lemma {:induction false} NoDenyNoCut(js: seq<PortRule>, wl: seq<Entry>, p: Packet)
    requires forall r :: r in js ==> r.mode == Allow
    ensures !CutBefore(js, wl, p)
  {
    if js == [] {
    } else {
      NoDenyNoCut(js[..|js| - 1], wl, p);
    }
  }

  lemma OneJudge(r: PortRule, sc: Scope, p: Packet)
    requires r.enabled && ServerWide(r) && Concerns(r, sc, Host, p) && !p.inLo
    ensures AllJudges([r], sc, Host, p) == [r]
  {
    assert [r][..0] == [];
    assert Judges([], true, sc, Host, p) == [];
    assert Judges([], false, sc, Host, p) == [];
  }

  /** Any enabled server-wide "everyone except" rule, alone, cuts sessions that were open before it. */
  lemma DenyCutsOpenSession(r: PortRule, sc: Scope, lines: seq<Line>, p: Packet)
    requires r.enabled && ServerWide(r) && r.mode == Deny && Concerns(r, sc, Host, p)
    requires Listed(r.sources, p.src) && p.original && !p.isNew && !p.inLo
    requires Implements(lines, [r], [], p.src.v6, sc) && p.OfFamily(p.src.v6)
    ensures Dropped(lines, Host, p)
  {
    OneJudge(r, sc, p);
    assert Cuts(r, p);
    assert [r][..0] == [];
    OpenSessionDroppedIff([r], [], p.src.v6, sc, lines, Host, p);
  }

  lemma SessionCutExample(lines: seq<Line>)
    requires Implements(lines, [PortRule("a", TcpOnly, Range(22, 22), Deny, [Bare(Addr(false, 7))], [], true)], [], false, Scope([], []))
    ensures Dropped(lines, Host, Packet(false, Addr(false, 7), Addr(false, 9), 22, Tcp, false, true, false, Addr(false, 9), 22))
  {
    var r := PortRule("a", TcpOnly, Range(22, 22), Deny, [Bare(Addr(false, 7))], [], true);
    assert EntryCovers(r.sources[0], Addr(false, 7));
    DenyCutsOpenSession(r, Scope([], []), lines, Packet(false, Addr(false, 7), Addr(false, 9), 22, Tcp, false, true, false, Addr(false, 9), 22));
  }

  // ---- what a rule does by itself

  /** The rule is for that protocol: its own, or either of the two. */
  predicate NamesProto(r: PortRule, l4: Proto) {
    (l4 == Tcp && r.proto in {TcpOnly, Both}) || (l4 == Udp && r.proto in {UdpOnly, Both})
  }

  lemma FirstOfOne(r: PortRule, serverWide: bool, wl: seq<Entry>, sc: Scope, chain: Chain, p: Packet)
    ensures FirstOf([r], serverWide, wl, sc, chain, p) ==
      if r.enabled && ServerWide(r) == serverWide then Decide(r, wl, sc, chain, p) else None
  {
    assert [r][..0] == [] && FirstOf([], serverWide, wl, sc, chain, p) == None;
  }

  /**
   Exactly which first packets a rule turns away from the host by itself: with
   the rule enabled, those of its protocols, ports and addresses that an "only
   these" rule does not list and an "everyone except" rule does.
   */
  lemma LoneRuleDropsIff(r: PortRule, wl: seq<Entry>, sc: Scope, lines: seq<Line>, p: Packet)
    requires Implements(lines, [r], wl, p.src.v6, sc) && p.OfFamily(p.src.v6)
    requires !p.inLo && p.isNew && p.original
    ensures Dropped(lines, Host, p) <==>
      && r.enabled && NamesProto(r, p.proto)
      && r.ports.Range? && r.ports.lo <= p.dport <= r.ports.hi
      && (r.addresses == [] || Covers(r.addresses, p.dst))
      && (if r.mode == Allow then !Listed(r.sources, p.src) && !Listed(wl, p.src) else Listed(r.sources, p.src))
  {
    FirstOfOne(r, false, wl, sc, Host, p);
    FirstOfOne(r, true, wl, sc, Host, p);
  }

  /** The packet asks for the port: on the host by where it goes, passed on by what its client asked for. */
  predicate PassedOnTo(p: Packet, lo: int, hi: int) {
    if p.dnat then lo <= p.origDport <= hi else lo <= p.dport <= hi
  }

  /** The same for what is passed on: rewritten connections always, routed ones to the rule's addresses or to those that follow. */
  lemma LoneRuleDropsForwardIff(r: PortRule, wl: seq<Entry>, sc: Scope, lines: seq<Line>, p: Packet)
    requires Implements(lines, [r], wl, p.src.v6, sc) && p.OfFamily(p.src.v6)
    requires p.isNew && p.original
    ensures Dropped(lines, Forward, p) <==>
      && r.enabled && NamesProto(r, p.proto)
      && r.ports.Range? && PassedOnTo(p, r.ports.lo, r.ports.hi)
      && (if p.dnat then (if r.addresses == [] then !Covers(sc.noFollow, p.origDst) else Covers(r.addresses, p.origDst))
          else Covers(if r.addresses == [] then sc.follow else r.addresses, p.dst))
      && (if r.mode == Allow then !Listed(r.sources, p.src) && !Listed(wl, p.src) else Listed(r.sources, p.src))
  {
    FirstOfOne(r, false, wl, sc, Forward, p);
    FirstOfOne(r, true, wl, sc, Forward, p);
  }

  // a rule that names both protocols does to each what a rule for that one does

  function Narrowed(rules: seq<PortRule>, k: nat, proto: RuleProto): seq<PortRule>
    requires k < |rules|
  {
    rules[k := rules[k].(proto := proto)]
  }

  /** The protocol is the one that the rule is narrowed to. */
  predicate NarrowedTo(proto: RuleProto, p: Packet) {
    (proto == TcpOnly && p.proto == Tcp) || (proto == UdpOnly && p.proto == Udp)
  }

  lemma NarrowedJudges(r: PortRule, proto: RuleProto, wl: seq<Entry>, sc: Scope, chain: Chain, p: Packet)
    requires r.proto == Both && NarrowedTo(proto, p)
    ensures Decide(r.(proto := proto), wl, sc, chain, p) == Decide(r, wl, sc, chain, p)
  {
  }

  lemma {:induction false} NarrowedDecides(rules: seq<PortRule>, k: nat, proto: RuleProto, sw: bool, wl: seq<Entry>, sc: Scope, chain: Chain, p: Packet)
    requires k < |rules| && rules[k].proto == Both && NarrowedTo(proto, p)
    ensures FirstOf(Narrowed(rules, k, proto), sw, wl, sc, chain, p) == FirstOf(rules, sw, wl, sc, chain, p)
  {
    var n, next := |rules| - 1, Narrowed(rules, k, proto);
    if k == n {
      assert next[..n] == rules[..n];
      NarrowedJudges(rules[n], proto, wl, sc, chain, p);
    } else {
      assert next[..n] == Narrowed(rules[..n], k, proto) && next[n] == rules[n];
      NarrowedDecides(rules[..n], k, proto, sw, wl, sc, chain, p);
    }
  }

  /** In any rule set, for any packet: making it a TCP rule changes no TCP verdict, making it a UDP rule no UDP verdict. */
  lemma BothIsEach(rules: seq<PortRule>, k: nat, proto: RuleProto, wl: seq<Entry>, sc: Scope, chain: Chain, p: Packet)
    requires k < |rules| && rules[k].proto == Both && NarrowedTo(proto, p)
    ensures Policy(Narrowed(rules, k, proto), wl, sc, chain, p) == Policy(rules, wl, sc, chain, p)
  {
    NarrowedDecides(rules, k, proto, false, wl, sc, chain, p);
    NarrowedDecides(rules, k, proto, true, wl, sc, chain, p);
  }

  lemma {:induction false} OthersPass(rules: seq<PortRule>, sw: bool, wl: seq<Entry>, sc: Scope, chain: Chain, p: Packet)
    requires p.proto == OtherProto
    ensures FirstOf(rules, sw, wl, sc, chain, p) == None
  {
    if rules == [] {
    } else {
      OthersPass(rules[..|rules| - 1], sw, wl, sc, chain, p);
    }
  }

  /** Nothing but TCP and UDP is ever dropped. */
  lemma OtherProtocolsPass(rules: seq<PortRule>, wl: seq<Entry>, v6: bool, sc: Scope, lines: seq<Line>, chain: Chain, p: Packet)
    requires Implements(lines, rules, wl, v6, sc) && p.OfFamily(v6) && p.proto == OtherProto
    ensures !Dropped(lines, chain, p)
  {
    OthersPass(rules, false, wl, sc, chain, p);
    OthersPass(rules, true, wl, sc, chain, p);
  }

  /** Neither is anything that comes in over the loopback interface. */
  lemma LoopbackPasses(rules: seq<PortRule>, wl: seq<Entry>, v6: bool, sc: Scope, lines: seq<Line>, p: Packet)
    requires Implements(lines, rules, wl, v6, sc) && p.OfFamily(v6) && p.inLo
    ensures !Dropped(lines, Host, p)
  {
  }

  // ---- the always-allowed sources

  lemma {:induction false} WhitelistDecides(rules: seq<PortRule>, sw: bool, wl: seq<Entry>, sc: Scope, chain: Chain, p: Packet)
    requires Listed(wl, p.src) && forall r :: r in rules && r.enabled ==> r.mode == Allow
    ensures var d := FirstOf(rules, sw, wl, sc, chain, p); d.None? || d == Some(Return)
  {
    if rules == [] {
    } else {
      WhitelistDecides(rules[..|rules| - 1], sw, wl, sc, chain, p);
      assert rules[|rules| - 1] in rules;
    }
  }

  /** "Only these" rules never turn an always-allowed source away; "everyone except" rules do not look at that list (LoneRuleDropsIff). */
  lemma WhitelistedPassAllow(rules: seq<PortRule>, wl: seq<Entry>, v6: bool, sc: Scope, lines: seq<Line>, chain: Chain, p: Packet)
    requires Implements(lines, rules, wl, v6, sc) && p.OfFamily(v6)
    requires Listed(wl, p.src) && forall r :: r in rules && r.enabled ==> r.mode == Allow
    ensures !Dropped(lines, chain, p)
  {
    WhitelistDecides(rules, false, wl, sc, chain, p);
    WhitelistDecides(rules, true, wl, sc, chain, p);
  }
}
