/**
 Where the ban chain and the port chains are hooked into INPUT and FORWARD
 (internal/firewall/iptables.go, internal/firewall/ports.go), and why a ban wins.
 */
module JumpOrder {
  import opened Basics

  /** A rule of a parent chain: a jump to one of SkyGuard's chains, or someone else's rule. */
  datatype Entry = BanJump | PortJump | Foreign(id: nat)

  function Without(rules: seq<Entry>, i: int): seq<Entry>
    requires 0 <= i < |rules|
  {
    rules[..i] + rules[i + 1..]
  }

  function With(rules: seq<Entry>, i: int, e: Entry): seq<Entry>
    requires 0 <= i <= |rules|
  {
    rules[..i] + [e] + rules[i..]
  }

  /** The place of the first e, |rules| when there is none. */
  function PlaceOf(rules: seq<Entry>, e: Entry): (i: nat)
    ensures i <= |rules| && e !in rules[..i] && (i < |rules| ==> rules[i] == e)
  {
    if rules == [] || rules[0] == e then 0 else 1 + PlaceOf(rules[1..], e)
  }

  // ---- what happens to a parent chain

  datatype Event =
    | PortsHooked(listed: bool, inserted: bool)
    | BansHooked(checked: bool, inserted: bool)
    | Deleted(i: nat)                  // by anyone: any rule, or none when i is too large
    | Inserted(i: nat, id: nat)        // by anyone: a rule of their own

  function Next(rules: seq<Entry>, e: Event): seq<Entry> {
    match e
    case PortsHooked(listed, inserted) =>
      if !listed || !inserted || PortJump in rules then rules
      else With(rules, if BanJump in rules then PlaceOf(rules, BanJump) + 1 else 0, PortJump)
    case BansHooked(checked, inserted) =>
      if !checked || !inserted || BanJump in rules then rules else With(rules, 0, BanJump)
    case Deleted(i) => if i < |rules| then Without(rules, i) else rules
    case Inserted(i, id) => if i <= |rules| then With(rules, i, Foreign(id)) else rules
  }

  /** The rules with e put in at that place: taking it out leaves what was there. */
  predicate PutIn(rules: seq<Entry>, next: seq<Entry>, e: Entry, at: nat) {
    at < |next| && next[at] == e && Without(next, at) == rules
  }

  lemma WithPutsIn(rules: seq<Entry>, at: nat, e: Entry)
    requires at <= |rules|
    ensures PutIn(rules, With(rules, at, e), e, at)
  {
  }

  /** What a hook whose calls are taken leaves: the jump at its place among the others, or all as it was when it was there. */
  lemma HookedAt(rules: seq<Entry>)
    ensures var bans := Next(rules, BansHooked(true, true));
      if BanJump in rules then bans == rules else PutIn(rules, bans, BanJump, 0)
    ensures var ports := Next(rules, PortsHooked(true, true));
      if PortJump in rules then ports == rules
      else if BanJump in rules then PutIn(rules, ports, PortJump, PlaceOf(rules, BanJump) + 1)
      else PutIn(rules, ports, PortJump, 0)
  {
    WithPutsIn(rules, 0, BanJump);
    WithPutsIn(rules, if BanJump in rules then PlaceOf(rules, BanJump) + 1 else 0, PortJump);
  }

  /** What others do: one rule less, one of theirs more; a hook of which a call is refused does nothing. */
  lemma OthersDo(rules: seq<Entry>, i: nat, id: nat, one: bool)
    ensures i < |rules| ==> PutIn(Next(rules, Deleted(i)), rules, rules[i], i)
    ensures i <= |rules| ==> PutIn(rules, Next(rules, Inserted(i, id)), Foreign(id), i)
    ensures Next(rules, BansHooked(one, false)) == rules == Next(rules, BansHooked(false, one))
    ensures Next(rules, PortsHooked(one, false)) == rules == Next(rules, PortsHooked(false, one))
  {
    if i <= |rules| { WithPutsIn(rules, i, Foreign(id)); }
  }

  class Parent {
    var rules: seq<Entry>

    /** PortGuard.hook: right after the first ban jump, or at the top. */
    method HookPorts(listed: bool, inserted: bool)
      modifies this
      ensures rules == Next(old(rules), PortsHooked(listed, inserted))
    {
      if !listed {
        return;
      }
      var pos, banPos := 0, 0;
      while pos < |rules|
        invariant rules == old(rules) && pos <= |rules| && PortJump !in rules[..pos]
        invariant banPos == if BanJump in rules[..pos] then PlaceOf(rules, BanJump) + 1 else 0
      {
        pos := pos + 1;
        assert rules[..pos] == rules[..pos - 1] + [rules[pos - 1]];
        if rules[pos - 1] == BanJump && banPos == 0 {
          banPos := pos;
        }
        if rules[pos - 1] == PortJump {
          return;
        }
      }
      assert rules[..|rules|] == rules;
      if inserted {
        rules := With(rules, banPos, PortJump);
      }
    }

    /** ensureChain and hookForward: at the very top, unless some jump is there already. */
    method HookBans(checked: bool, inserted: bool)
      modifies this
      ensures rules == Next(old(rules), BansHooked(checked, inserted))
    {
      if !checked || BanJump in rules {
        return;
      }
      if inserted {
        rules := With(rules, 0, BanJump);
      }
    }
  }

  // ---- runs

  function Run(rules: seq<Entry>, events: seq<Event>): seq<Entry>
    decreases |events|
  {
    if events == [] then rules else Run(Next(rules, events[0]), events[1..])
  }

  /** Every jump to the ban chain comes before every jump to a port chain, and there is at most one. */
  ghost predicate BansFirst(rules: seq<Entry>) {
    && (forall i, j :: 0 <= i < |rules| && 0 <= j < |rules| && rules[i] == PortJump && rules[j] == BanJump ==> j < i)
    && (forall i, j :: 0 <= i < |rules| && 0 <= j < |rules| && rules[i] == BanJump && rules[j] == BanJump ==> i == j)
  }

  lemma WithKeeps(rules: seq<Entry>, at: nat, e: Entry)
    requires BansFirst(rules) && at <= |rules|
    requires e == BanJump ==> at == 0 && BanJump !in rules
    requires e == PortJump ==> forall j :: at <= j < |rules| ==> rules[j] != BanJump
    ensures BansFirst(With(rules, at, e))
  {
    var next := With(rules, at, e);
    assert forall k :: 0 <= k < at ==> next[k] == rules[k];
    assert forall k :: at < k < |next| ==> next[k] == rules[k - 1] && rules[k - 1] in rules;
  }

  lemma StepKeepsBansFirst(rules: seq<Entry>, e: Event)
    requires BansFirst(rules)
    ensures BansFirst(Next(rules, e))
  {
    match e
    case Deleted(_) =>
    case Inserted(i, id) => if i <= |rules| { WithKeeps(rules, i, Foreign(id)); }
    case BansHooked(_, _) => if BanJump !in rules { WithKeeps(rules, 0, BanJump); }
    case PortsHooked(_, _) =>
      if PortJump !in rules {
        WithKeeps(rules, if BanJump in rules then PlaceOf(rules, BanJump) + 1 else 0, PortJump);
      }
  }

  lemma {:induction false} RunKeepsBansFirst(rules: seq<Entry>, events: seq<Event>)
    requires BansFirst(rules)
    ensures BansFirst(Run(rules, events))
    decreases |events|
  {
    if events == [] {
    } else {
      StepKeepsBansFirst(rules, events[0]);
      RunKeepsBansFirst(Next(rules, events[0]), events[1..]);
    }
  }

  lemma {:induction false} RunPush(rules: seq<Entry>, events: seq<Event>, e: Event)
    ensures Run(rules, events + [e]) == Next(Run(rules, events), e)
    decreases |events|
  {
    if events == [] {
      assert [] + [e] == [e] && Run(Next(rules, e), []) == Next(rules, e);
    } else {
      assert (events + [e])[1..] == events[1..] + [e];
      RunPush(Next(rules, events[0]), events[1..], e);
    }
  }

  /** However a chain came about, one more hook of each kind that is taken leaves both jumps, the ban jump first. */
  lemma HooksRestore(rules: seq<Entry>, events: seq<Event>)
    requires BansFirst(rules)
    ensures var now := Run(rules, events + [BansHooked(true, true)] + [PortsHooked(true, true)]);
      BanJump in now && PortJump in now && PlaceOf(now, BanJump) < PlaceOf(now, PortJump)
  {
    var hooked := events + [BansHooked(true, true)];
    RunPush(rules, events, BansHooked(true, true));
    RunPush(rules, hooked, PortsHooked(true, true));
    RunKeepsBansFirst(rules, hooked + [PortsHooked(true, true)]);
    HookedAt(Run(rules, events));
    HookedAt(Run(rules, hooked));
    var before, now := Run(rules, hooked), Run(rules, hooked + [PortsHooked(true, true)]);
    assert BanJump in before by {
      if BanJump !in Run(rules, events) { assert before[0] == BanJump; }
    }
    BothThere(before, now);
  }

  lemma BothThere(before: seq<Entry>, now: seq<Entry>)
    requires BanJump in before && now == Next(before, PortsHooked(true, true)) && BansFirst(now)
    ensures BanJump in now && PortJump in now && PlaceOf(now, BanJump) < PlaceOf(now, PortJump)
  {
    HookedAt(before);
    if PortJump !in before {
      var at := PlaceOf(before, BanJump);
      assert now[at + 1] == PortJump && before == Without(now, at + 1);
      assert before[at] == now[at];
    }
    assert now[PlaceOf(now, BanJump)] == BanJump && now[PlaceOf(now, PortJump)] == PortJump;
  }

  // ---- what a packet meets

  datatype Verdict = Accept | Drop

  /**
   The walk through the parent chain of a packet the ban chain lists or not,
   and the port chain drops or not; a rule of someone else may decide.
   */
  function Walk(rules: seq<Entry>, banned: bool, portsDrop: bool, foreign: nat -> Option<Verdict>): Option<Verdict> {
    if rules == [] then None
    else
      var here := match rules[0]
        case BanJump => if banned then Some(Drop) else None
        case PortJump => if portsDrop then Some(Drop) else None
        case Foreign(id) => foreign(id);
      OrElse(here, Walk(rules[1..], banned, portsDrop, foreign))
  }

  lemma {:induction false} WalkToBan(rules: seq<Entry>, portsDrop: bool, foreign: nat -> Option<Verdict>)
    requires BansFirst(rules) && BanJump in rules
    ensures Walk(rules, true, portsDrop, foreign) == OrElse(Walk(rules[..PlaceOf(rules, BanJump)], false, false, foreign), Some(Drop))
  {
    var at := PlaceOf(rules, BanJump);
    if at == 0 {
    } else {
      assert rules[0] != PortJump by { assert rules[at] == BanJump; }
      assert rules[1..][..at - 1] == rules[1..at];
      assert rules[..at][1..] == rules[1..at];
      WalkToBan(rules[1..], portsDrop, foreign);
    }
  }

  /**
   After any run of hooks, deletions and other people's insertions, a banned
   packet that reaches the ban jump is dropped, whatever the port rules say:
   only a rule of someone else above the jump can decide otherwise.
   */
  lemma {:induction false} BansWin(rules: seq<Entry>, events: seq<Event>, portsDrop: bool, foreign: nat -> Option<Verdict>)
    requires BansFirst(rules) && BanJump in Run(rules, events)
    ensures var now := Run(rules, events);
      && Walk(now, true, portsDrop, foreign) == Walk(now, true, !portsDrop, foreign)
      && ((forall id: nat :: Foreign(id) in now[..PlaceOf(now, BanJump)] ==> foreign(id).None?) ==> Walk(now, true, portsDrop, foreign) == Some(Drop))
  {
    RunKeepsBansFirst(rules, events);
    var now := Run(rules, events);
    WalkToBan(now, portsDrop, foreign);
    WalkToBan(now, !portsDrop, foreign);
    if forall id: nat :: Foreign(id) in now[..PlaceOf(now, BanJump)] ==> foreign(id).None? {
      Undecided(now[..PlaceOf(now, BanJump)], foreign);
    }
  }

  /** A packet that is not banned and that no other rule decides meets the port chain, wherever that hangs. */
  lemma {:induction false} PortsDecide(rules: seq<Entry>, portsDrop: bool, foreign: nat -> Option<Verdict>)
    requires PortJump in rules && forall id: nat :: Foreign(id) in rules ==> foreign(id).None?
    ensures Walk(rules, false, portsDrop, foreign) == if portsDrop then Some(Drop) else None
  {
    if rules == [] {
    } else {
      assert rules[0] in rules && forall e :: e in rules[1..] ==> e in rules;
      assert forall e :: e in rules ==> e == rules[0] || e in rules[1..];
      if PortJump in rules[1..] {
        PortsDecide(rules[1..], portsDrop, foreign);
      } else {
        Passes(rules[1..], portsDrop, foreign);
      }
    }
  }

  lemma {:induction false} Passes(rules: seq<Entry>, portsDrop: bool, foreign: nat -> Option<Verdict>)
    requires PortJump !in rules && forall id: nat :: Foreign(id) in rules ==> foreign(id).None?
    ensures Walk(rules, false, portsDrop, foreign) == None
  {
    if rules == [] {
    } else {
      assert rules[0] in rules && forall e :: e in rules[1..] ==> e in rules;
      Passes(rules[1..], portsDrop, foreign);
    }
  }

  lemma {:induction false} Undecided(rules: seq<Entry>, foreign: nat -> Option<Verdict>)
    requires forall id: nat :: Foreign(id) in rules ==> foreign(id).None?
    ensures Walk(rules, false, false, foreign) == None
  {
    if rules == [] {
    } else {
      assert rules[0] in rules;
      assert forall e :: e in rules[1..] ==> e in rules;
      Undecided(rules[1..], foreign);
    }
  }

  // ---- the DROP rules themselves

  const MAX_DELETES := 16

  function Count(drops: seq<int>, ip: int): nat {
    multiset(drops)[ip]
  }

  function Fewer(count: nat): nat {
    if count <= MAX_DELETES then 0 else count - MAX_DELETES
  }

  method DeleteFirst(drops: seq<int>, ip: int) returns (left: seq<int>)
    requires ip in drops
    ensures multiset(left) == multiset(drops) - multiset{ip}
  {
    var i := 0;
    while drops[i] != ip
      invariant 0 <= i < |drops| && ip in drops[i..]
      decreases |drops| - i
    {
      i := i + 1;
    }
    assert drops == drops[..i] + [ip] + drops[i + 1..];
    left := drops[..i] + drops[i + 1..];
  }

  /** All calls numbered from up to next were answered. */
  predicate Answered(answers: nat -> bool, from: nat, next: nat) {
    forall n: nat :: from <= n < next ==> answers(n)
  }

  /** Deletes rules for ip from one chain, one at a time, at most sixteen; a refused call ends it. */
  method DeleteSome(drops: seq<int>, ip: int, answers: nat -> bool, from: nat) returns (left: seq<int>, ok: bool, next: nat)
    ensures from < next && (ok <==> Answered(answers, from, next))
    // each rule takes two calls, and one more finds that there are none left
    ensures ok ==> next == from + 2 * (Count(drops, ip) - Count(left, ip)) + if Count(drops, ip) < MAX_DELETES then 1 else 0
    ensures ok ==> Count(left, ip) == Fewer(Count(drops, ip))
    ensures Count(left, ip) <= Count(drops, ip) <= Count(left, ip) + MAX_DELETES
    ensures forall other :: other != ip ==> Count(left, other) == Count(drops, other)
  {
    left, next := drops, from;
    var i := 0;
    while i < MAX_DELETES
      invariant 0 <= i <= MAX_DELETES && from <= next && (i > 0 ==> from < next) && Answered(answers, from, next)
      invariant Count(drops, ip) == Count(left, ip) + i && next == from + 2 * i
      invariant forall other :: other != ip ==> Count(left, other) == Count(drops, other)
    {
      next := next + 1;
      if !answers(next - 1) {
        return left, false, next;
      }
      if ip !in left {
        assert ip !in multiset(left);
        return left, true, next;
      }
      next := next + 1;
      if !answers(next - 1) {
        return left, false, next;
      }
      left := DeleteFirst(left, ip);
      i := i + 1;
    }
    ok := true;
  }

  class Firewall {
    const coverForwarded: bool
    const forward: Parent
    var drops: seq<int>    // the ban chain's rules, by source
    var direct: seq<int>   // rules that older versions put into INPUT itself

    constructor (coverForwarded: bool, forward: Parent, drops: seq<int>, direct: seq<int>)
      ensures this.coverForwarded == coverForwarded && this.forward == forward && this.drops == drops && this.direct == direct
    {
      this.coverForwarded, this.forward, this.drops, this.direct := coverForwarded, forward, drops, direct;
    }

    /** Inserts a rule at the top unless there is one; before that it hooks the chain into FORWARD if bans cover that. */
    method Ban(ip: int, checked: bool, hookChecked: bool, hookInserted: bool, inserted: bool) returns (ok: bool)
      modifies this`drops, forward
      ensures ok <==> checked && (ip in old(drops) || inserted)
      ensures drops == if checked && ip !in old(drops) && inserted then [ip] + old(drops) else old(drops)
      ensures forward.rules == if coverForwarded && checked && ip !in old(drops)
        then Next(old(forward.rules), BansHooked(hookChecked, hookInserted)) else old(forward.rules)
    {
      if !checked {
        return false;
      }
      if ip in drops {
        return true;
      }
      if coverForwarded {
        forward.HookBans(hookChecked, hookInserted);
      }
      if inserted {
        drops := [ip] + drops;
      }
      return inserted;
    }

    /** Deletes rules for ip from the ban chain, then from INPUT; call n is answered only if answers(n). */
    method Unban(ip: int, answers: nat -> bool) returns (ok: bool, ghost calls: nat)
      modifies this`drops, this`direct
      ensures ok <==> Answered(answers, 0, calls)
      ensures ok ==> Count(drops, ip) == Fewer(Count(old(drops), ip)) && Count(direct, ip) == Fewer(Count(old(direct), ip))
      ensures ok ==> (ip !in drops && ip !in direct <==> Count(old(drops), ip) <= MAX_DELETES && Count(old(direct), ip) <= MAX_DELETES)
      ensures Count(drops, ip) <= Count(old(drops), ip) && Count(direct, ip) <= Count(old(direct), ip)
      ensures forall other :: other != ip ==> Count(drops, other) == Count(old(drops), other) && Count(direct, other) == Count(old(direct), other)
    {
      var next;
      drops, ok, next := DeleteSome(drops, ip, answers, 0);
      calls := next;
      if ok {
        direct, ok, next := DeleteSome(direct, ip, answers, next);
        calls := next;
      }
      assert ip in drops <==> ip in multiset(drops);
      assert ip in direct <==> ip in multiset(direct);
    }
  }

  lemma {:induction false} CountOfMany(ip: int, n: nat)
    ensures Count(seq(n, i => ip), ip) == n
  {
    if n == 0 {
    } else {
      CountOfMany(ip, n - 1);
      assert seq(n, i => ip) == seq(n - 1, i => ip) + [ip];
    }
  }

  /** Of seventeen rules for one address, all calls answered, one stays. */
  method UnbanSeventeen(ip: int, forward: Parent) returns (f: Firewall, ok: bool)
    ensures ok && Count(f.drops, ip) == 1 && ip in f.drops
  {
    CountOfMany(ip, 17);
    f := new Firewall(true, forward, seq(17, i => ip), []);
    ghost var calls;
    ok, calls := f.Unban(ip, n => true);
    assert ip in multiset(f.drops);
  }
}
