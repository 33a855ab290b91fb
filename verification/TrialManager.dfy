/** The port rules manager (internal/portrules/manager.go): what is saved, what is enforced, and the trial. */
module TrialManager {
  import opened Basics
  import opened PortModel
  import opened TrialTest

  const MAX_RULES := 200

  /** One address of the server: its own, or one it passes on. */
  datatype Address = Address(ip: Addr, forwarded: bool)

  /** What the store holds, and what the kernel holds. */
  datatype Stored = Stored(rules: seq<PortRule>, follow: set<Addr>)
  datatype Installed = Installed(rules: seq<PortRule>, scope: Scope)

  datatype Trial = Trial(id: nat, ports: set<int>)

  datatype State = State(
    available: bool,
    saved: seq<PortRule>,
    active: seq<PortRule>,
    follow: set<Addr>,
    scope: Scope,
    trial: Option<Trial>,
    nextTrial: nat,
    store: Stored,
    installed: Option<Installed>)

  /** What the surroundings answer while one step runs. A refused call changes nothing. */
  datatype Env = Env(
    prot: seq<int>,
    addrs: seq<Address>,
    applyOk: bool,      // the firewall takes the rules
    restoreOk: bool,    // and takes the previous ones back
    removeOk: bool,     // the chains can be taken out; nobody is told when not
    saveOk: bool)       // the store takes the save

  datatype Reply = Refused | Kept | OnTrial(ports: set<int>)

  // ---- the scope

  predicate Before(a: Addr, b: Addr) {
    (!a.v6 && b.v6) || (a.v6 == b.v6 && a.n <= b.n)
  }

  function InsertAddr(xs: seq<Addr>, a: Addr): (out: seq<Addr>)
    ensures forall x :: x in out <==> x in xs || x == a
  {
    if xs == [] || Before(a, xs[0]) then [a] + xs else [xs[0]] + InsertAddr(xs[1..], a)
  }

  function SortAddrs(xs: seq<Addr>): (out: seq<Addr>)
    ensures forall x :: x in out <==> x in xs
  {
    if xs == [] then []
    else
      assert xs == xs[..|xs| - 1] + [xs[|xs| - 1]];
      InsertAddr(SortAddrs(xs[..|xs| - 1]), xs[|xs| - 1])
  }

  predicate Sorted(xs: seq<Addr>) {
    forall i, j :: 0 <= i < j < |xs| ==> Before(xs[i], xs[j])
  }

  lemma {:induction false} InsertSorts(xs: seq<Addr>, a: Addr)
    requires Sorted(xs)
    ensures Sorted(InsertAddr(xs, a)) && multiset(InsertAddr(xs, a)) == multiset(xs) + multiset{a}
  {
    if xs == [] {
    } else {
      assert xs == [xs[0]] + xs[1..];
      if Before(a, xs[0]) {
        assert multiset([a] + xs) == multiset{a} + multiset(xs);
      } else {
        InsertSorts(xs[1..], a);
        var rest := InsertAddr(xs[1..], a);
        forall k | 0 <= k < |rest| ensures Before(xs[0], rest[k]) {
          assert rest[k] in rest;
          if rest[k] != a { var i :| 0 <= i < |xs[1..]| && xs[1..][i] == rest[k]; assert xs[1..][i] == xs[i + 1]; }
        }
        assert multiset([xs[0]] + rest) == multiset{xs[0]} + multiset(rest);
      }
    }
  }

  lemma {:induction false} SortSorts(xs: seq<Addr>)
    ensures Sorted(SortAddrs(xs)) && multiset(SortAddrs(xs)) == multiset(xs)
  {
    if xs == [] {
    } else {
      var n := |xs| - 1;
      SortSorts(xs[..n]);
      assert xs == xs[..n] + [xs[n]];
      InsertSorts(SortAddrs(xs[..n]), xs[n]);
    }
  }

  lemma FirstIsLeast(xs: seq<Addr>, ys: seq<Addr>)
    requires Sorted(xs) && xs != [] && ys != [] && ys[0] in multiset(xs)
    ensures xs[0] == ys[0] || Before(xs[0], ys[0])
  {
    var j :| 0 <= j < |xs| && xs[j] == ys[0];
  }

  lemma {:induction false} SortedIsUnique(xs: seq<Addr>, ys: seq<Addr>)
    requires Sorted(xs) && Sorted(ys) && multiset(xs) == multiset(ys)
    ensures xs == ys
  {
    if |xs| == 0 || |ys| == 0 {
      assert |multiset(xs)| == |xs| && |multiset(ys)| == |ys|;
    } else {
      assert xs[0] in multiset(xs) && ys[0] in multiset(ys);
      FirstIsLeast(xs, ys);
      FirstIsLeast(ys, xs);
      TailsAgree(xs, ys);
      SortedIsUnique(xs[1..], ys[1..]);
    }
  }

  lemma TailsAgree(xs: seq<Addr>, ys: seq<Addr>)
    requires xs != [] && ys != [] && xs[0] == ys[0] && multiset(xs) == multiset(ys)
    ensures multiset(xs[1..]) == multiset(ys[1..]) && (xs[1..] == ys[1..] ==> xs == ys)
  {
    assert xs == [xs[0]] + xs[1..] && ys == [ys[0]] + ys[1..];
    assert multiset(xs[1..]) == multiset(xs) - multiset{xs[0]};
    assert multiset(ys[1..]) == multiset(ys) - multiset{ys[0]};
  }

  /** The addresses as the compiler gets them: without a length. */
  function Entries(xs: seq<Addr>): seq<Entry> {
    seq(|xs|, i requires 0 <= i < |xs| => Bare(xs[i]))
  }

  function PassedOn(addrs: seq<Address>, follow: set<Addr>, followed: bool): seq<Addr> {
    if addrs == [] then []
    else
      var a := addrs[|addrs| - 1];
      PassedOn(addrs[..|addrs| - 1], follow, followed) +
      if a.forwarded && (a.ip in follow) == followed then [a.ip] else []
  }

  function ScopeOf(addrs: seq<Address>, follow: set<Addr>): Scope {
    Scope(Entries(SortAddrs(PassedOn(addrs, follow, true))), Entries(SortAddrs(PassedOn(addrs, follow, false))))
  }

  lemma {:induction false} PassedOnMembers(addrs: seq<Address>, follow: set<Addr>, followed: bool)
    ensures forall a :: a in PassedOn(addrs, follow, followed) <==> Address(a, true) in addrs && (a in follow) == followed
  {
    if addrs == [] {
    } else {
      PassedOnMembers(addrs[..|addrs| - 1], follow, followed);
      assert addrs == addrs[..|addrs| - 1] + [addrs[|addrs| - 1]];
    }
  }

  lemma EntriesCover(xs: seq<Addr>, a: Addr)
    ensures Covers(Entries(xs), a) <==> exists x :: x in xs && Unmap(x) == a
  {
    var es := Entries(xs);
    if x :| x in xs && Unmap(x) == a {
      var i :| 0 <= i < |xs| && xs[i] == x;
      assert es[i] in es && NetHolds(NetOf(es[i]), a);
    }
    if Covers(es, a) {
      var e :| e in es && NetHolds(NetOf(e), a);
      var i :| 0 <= i < |es| && es[i] == e;
      assert xs[i] in xs && Unmap(xs[i]) == a;
    }
  }

  /** Some passed-on address is this one, and its switch is thrown or not. */
  ghost predicate PassedOnAs(addrs: seq<Address>, follow: set<Addr>, followed: bool, a: Addr) {
    exists x :: Address(x, true) in addrs && (x in follow) == followed && Unmap(x) == a
  }

  /** The scope holds the passed-on addresses, each on the side its switch says, and no other address. */
  lemma ScopeSplits(addrs: seq<Address>, follow: set<Addr>, a: Addr)
    ensures Covers(ScopeOf(addrs, follow).follow, a) <==> PassedOnAs(addrs, follow, true, a)
    ensures Covers(ScopeOf(addrs, follow).noFollow, a) <==> PassedOnAs(addrs, follow, false, a)
  {
    PassedOnMembers(addrs, follow, true);
    PassedOnMembers(addrs, follow, false);
    EntriesCover(SortAddrs(PassedOn(addrs, follow, true)), a);
    EntriesCover(SortAddrs(PassedOn(addrs, follow, false)), a);
  }

  lemma {:induction false} PassedOnIgnoresOrder(xs: seq<Address>, follow: set<Addr>, followed: bool)
    ensures forall a :: multiset(PassedOn(xs, follow, followed))[a] == if (a in follow) == followed then multiset(xs)[Address(a, true)] else 0
  {
    if xs == [] {
    } else {
      var n := |xs| - 1;
      PassedOnIgnoresOrder(xs[..n], follow, followed);
      assert xs == xs[..n] + [xs[n]];
    }
  }

  /** Maintenance compares scopes: the same addresses in another order are the same scope. */
  lemma ScopeIgnoresOrder(xs: seq<Address>, ys: seq<Address>, follow: set<Addr>)
    requires multiset(xs) == multiset(ys)
    ensures ScopeOf(xs, follow) == ScopeOf(ys, follow)
  {
    SplitIgnoresOrder(xs, ys, follow, true);
    SplitIgnoresOrder(xs, ys, follow, false);
  }

  lemma SplitIgnoresOrder(xs: seq<Address>, ys: seq<Address>, follow: set<Addr>, followed: bool)
    requires multiset(xs) == multiset(ys)
    ensures SortAddrs(PassedOn(xs, follow, followed)) == SortAddrs(PassedOn(ys, follow, followed))
  {
    var p, q := PassedOn(xs, follow, followed), PassedOn(ys, follow, followed);
    PassedOnIgnoresOrder(xs, follow, followed);
    PassedOnIgnoresOrder(ys, follow, followed);
    assert multiset(p) == multiset(q);
    SortSorts(p);
    SortSorts(q);
    SortedIsUnique(SortAddrs(p), SortAddrs(q));
  }

  function HostAddrs(addrs: seq<Address>): seq<Addr> {
    if addrs == [] then []
    else
      var a := addrs[|addrs| - 1];
      HostAddrs(addrs[..|addrs| - 1]) + if a.forwarded then [] else [a.ip]
  }

  /** The server's own addresses are those it does not pass on. */
  lemma {:induction false} HostAddrsAre(addrs: seq<Address>)
    ensures forall a :: a in HostAddrs(addrs) <==> Address(a, false) in addrs
  {
    if addrs == [] {
    } else {
      HostAddrsAre(addrs[..|addrs| - 1]);
      assert addrs == addrs[..|addrs| - 1] + [addrs[|addrs| - 1]];
    }
  }

  // ---- the steps, as functions on a state; the manager at the end takes them in place

  predicate Acceptable(rules: seq<PortRule>) {
    |rules| <= MAX_RULES && forall i, j :: 0 <= i < j < |rules| ==> rules[i].id != rules[j].id
  }

  function RiskySet(saved: seq<PortRule>, next: seq<PortRule>, prot: seq<int>, host: seq<Addr>): set<int> {
    set port | port in prot && Risky(AsTested, saved, next, port, host)
  }

  /** What the kernel holds after the chains are taken out, whether or not that worked. */
  function Removed(installed: Option<Installed>, env: Env): Option<Installed> {
    if env.removeOk then None else installed
  }

  function Enforce(s: State, rules: seq<PortRule>, env: Env): (State, bool) {
    if rules == [] then
      (s.(active := [], installed := if s.active != [] then Removed(s.installed, env) else s.installed), true)
    else
      var sc := ScopeOf(env.addrs, s.follow);
      if env.applyOk then
        (s.(active := rules, scope := sc, installed := Some(Installed(rules, sc))), true)
      else if s.active == [] then
        (s.(installed := Removed(s.installed, env)), false)
      else
        (s.(installed := if env.restoreOk then Some(Installed(s.active, s.scope)) else s.installed), false)
  }

  function Persist(s: State, rules: seq<PortRule>, env: Env): State {
    if env.saveOk then s.(store := Stored(rules, s.follow)) else s
  }

  function Set(s: State, rules: seq<PortRule>, env: Env): (State, Reply) {
    if !s.available || !Acceptable(rules) then (s, Refused)
    else
      var risky := RiskySet(s.saved, rules, env.prot, HostAddrs(env.addrs));
      var (s1, ok) := Enforce(s, rules, env);
      if !ok then (s1, Refused)
      else if risky == {} then
        var s2 := s1.(trial := None);
        if env.saveOk then (Persist(s2, rules, env).(saved := rules), Kept) else (s2, Refused)
      else
        (s1.(trial := Some(Trial(s.nextTrial, risky)), nextTrial := s.nextTrial + 1), OnTrial(risky))
  }

  function Confirm(s: State, env: Env): (State, Reply) {
    if s.trial.None? || !env.saveOk then (s, Refused)
    else (Persist(s, s.active, env).(trial := None, saved := s.active), Kept)
  }

  function Revert(s: State, env: Env): (State, Reply) {
    if s.trial.None? then (s, Refused)
    else
      var (s1, ok) := Enforce(s.(trial := None), s.saved, env);
      (s1, if ok then Kept else Refused)
  }

  /** The timer of trial id goes off, perhaps late. */
  function Expire(s: State, id: nat, env: Env): State {
    if s.trial.None? || s.trial.value.id != id then s
    else Enforce(s.(trial := None), s.saved, env).0
  }

  function SetFollow(s: State, ip: Addr, follow: bool, env: Env): (State, Reply) {
    if Address(ip, true) !in env.addrs then (s, Refused)
    else
      var s1 := s.(follow := if follow then s.follow + {ip} else s.follow - {ip});
      var sc := ScopeOf(env.addrs, s1.follow);
      var touch := s.available && s.active != [];
      if touch && !env.applyOk then (s, Refused)
      else
        var s2 := if touch then s1.(scope := sc, installed := Some(Installed(s.active, sc))) else s1;
        (Persist(s2, s.saved, env), if env.saveOk then Kept else Refused)
  }

  function Maintain(s: State, env: Env): State {
    if !s.available || s.active == [] then s
    else
      var sc := ScopeOf(env.addrs, s.follow);
      if sc != s.scope then
        if env.applyOk then s.(scope := sc, installed := Some(Installed(s.active, sc))) else s
      else if s.installed.None? && env.applyOk then s.(installed := Some(Installed(s.active, s.scope)))
      else s
  }

  /** A new process: it starts from what the store holds, validated again, and finds the kernel as the last one left it. */
  function Restart(s: State, readable: bool, env: Env): (State, Reply) {
    var s0 := s.(saved := [], active := [], follow := {}, scope := Scope([], []), trial := None);
    if !readable then (s0, Refused)
    else
      var s1 := s0.(saved := Loaded(s.store.rules), follow := s.store.follow);
      if s1.saved == [] || !s.available then (s1, Kept)
      else if !env.applyOk then (s1, Refused)
      else
        var sc := ScopeOf(env.addrs, s1.follow);
        (s1.(active := s1.saved, scope := sc, installed := Some(Installed(s1.saved, sc))), Kept)
  }

  datatype Event =
    | DoSet(rules: seq<PortRule>)
    | DoConfirm
    | DoRevert
    | Timer(id: nat)
    | DoSetFollow(ip: Addr, follow: bool)
    | DoMaintain
    | Flush                       // something outside removes the chains
    | DoRestart(readable: bool)

  datatype Step = Step(event: Event, env: Env)

  function Next(s: State, step: Step): State {
    match step.event
    case DoSet(rules) => Set(s, rules, step.env).0
    case DoConfirm => Confirm(s, step.env).0
    case DoRevert => Revert(s, step.env).0
    case Timer(id) => Expire(s, id, step.env)
    case DoSetFollow(ip, follow) => SetFollow(s, ip, follow, step.env).0
    case DoMaintain => Maintain(s, step.env)
    case Flush => s.(installed := None)
    case DoRestart(readable) => Restart(s, readable, step.env).0
  }

  /** The state after each step of a run, the last one first taken off. */
  function Run(s: State, steps: seq<Step>): State {
    if steps == [] then s else Next(Run(s, steps[..|steps| - 1]), steps[|steps| - 1])
  }

  // ---- what a step answers and does

  /** Exactly when a set is refused, saved or put on trial, and what it leaves. */
  lemma SetAnswers(s: State, rules: seq<PortRule>, env: Env)
    ensures var (s', reply) := Set(s, rules, env);
      var fits := s.available && |rules| <= 200 && forall i, j :: 0 <= i < |rules| && 0 <= j < |rules| && rules[i].id == rules[j].id ==> i == j;
      var risky := set port | port in env.prot && Risky(AsTested, s.saved, rules, port, HostAddrs(env.addrs));
      && (reply == Kept <==> fits && risky == {} && (rules == [] || env.applyOk) && env.saveOk)
      && (reply == Kept ==> s'.trial.None? && s'.saved == rules && s'.active == rules && s'.store == Stored(rules, s.follow))
      && (reply.OnTrial? <==> fits && risky != {} && env.applyOk)
      && (reply.OnTrial? ==> reply.ports == risky && s'.trial == Some(Trial(s.nextTrial, risky)) && s'.active == rules)
      && (!reply.Kept? ==> s'.saved == s.saved && s'.store == s.store)
      && (!fits ==> s' == s)
  {
    if rules == [] {
      forall port ensures !Risky(AsTested, s.saved, rules, port, HostAddrs(env.addrs)) {}
    }
  }

  /** The kernel holds the active rules under the scope they were applied with, or nothing, as far as there are active rules. */
  predicate KernelIsOwn(s: State) {
    s.active != [] ==> s.installed.None? || s.installed.value == Installed(s.active, s.scope)
  }

  lemma StepKeepsKernelOwn(s: State, step: Step)
    requires KernelIsOwn(s)
    ensures KernelIsOwn(Next(s, step))
  {
    match step.event
    case DoSet(_) =>
    case _ =>
  }

  /** Whatever is refused, over any run. */
  lemma {:induction false} RunKeepsKernelOwn(s: State, steps: seq<Step>)
    requires KernelIsOwn(s)
    ensures KernelIsOwn(Run(s, steps))
  {
    if steps == [] {
    } else {
      RunKeepsKernelOwn(s, steps[..|steps| - 1]);
      StepKeepsKernelOwn(Run(s, steps[..|steps| - 1]), steps[|steps| - 1]);
    }
  }

  /** The step brings rules into force anew, or looks after them. */
  predicate Enforces(s: State, step: Step) {
    match step.event
    case DoSet(rules) => Acceptable(rules)
    case DoRevert => s.trial.Some?
    case Timer(id) => s.trial.Some? && s.trial.value.id == id
    case DoSetFollow(ip, _) => Address(ip, true) in step.env.addrs
    case DoMaintain => true
    case DoRestart(readable) => readable
    case _ => false
  }

  /** The kernel holds the active rules, if there are any, split by the switches and addresses of the moment. */
  predicate Follows(t: State, env: Env) {
    t.active != [] ==> t.installed == Some(Installed(t.active, ScopeOf(env.addrs, t.follow)))
  }

  lemma EnforceFollows(t: State, rules: seq<PortRule>, env: Env)
    requires env.applyOk
    ensures var t' := Enforce(t, rules, env).0; t'.active == rules && t'.follow == t.follow && Follows(t', env)
  {
  }

  lemma SetFollows(t: State, rules: seq<PortRule>, env: Env)
    requires env.applyOk && t.available && Acceptable(rules)
    ensures Follows(Set(t, rules, env).0, env)
  {
    EnforceFollows(t, rules, env);
  }

  lemma SwitchFollows(t: State, ip: Addr, follow: bool, env: Env)
    requires env.applyOk && t.available && Address(ip, true) in env.addrs
    ensures Follows(SetFollow(t, ip, follow, env).0, env)
  {
  }

  lemma MaintainFollows(t: State, env: Env)
    requires env.applyOk && t.available && KernelIsOwn(t)
    ensures Follows(Maintain(t, env), env) && Maintain(t, env).active == t.active && Maintain(t, env).follow == t.follow
  {
  }

  lemma StepFollows(t: State, step: Step)
    requires KernelIsOwn(t) && t.available && Enforces(t, step) && step.env.applyOk
    ensures Follows(Next(t, step), step.env)
  {
    match step.event
    case DoSet(rules) => SetFollows(t, rules, step.env);
    case DoRevert => EnforceFollows(t.(trial := None), t.saved, step.env);
    case Timer(_) => EnforceFollows(t.(trial := None), t.saved, step.env);
    case DoSetFollow(ip, follow) => SwitchFollows(t, ip, follow, step.env);
    case DoMaintain => MaintainFollows(t, step.env);
    case DoRestart(_) =>
  }

  /**
   After any run, a step whose rules the firewall takes leaves the kernel with
   exactly the active rules, split by the switches and addresses of the moment.
   */
  lemma {:induction false} KernelFollows(s: State, steps: seq<Step>, step: Step)
    requires KernelIsOwn(s)
    ensures var t := Run(s, steps);
      var t' := Next(t, step);
      t.available && Enforces(t, step) && step.env.applyOk ==> Follows(t', step.env)
  {
    RunKeepsKernelOwn(s, steps);
    var t := Run(s, steps);
    if t.available && Enforces(t, step) && step.env.applyOk { StepFollows(t, step); }
  }

  /** While the firewall refuses everything, only something else changes what the kernel holds. */
  lemma KernelNeedsFirewall(s: State, step: Step)
    requires !step.env.applyOk && !step.env.restoreOk && !step.env.removeOk && step.event != Flush
    ensures Next(s, step).installed == s.installed
  {
    match step.event
    case DoSet(_) =>
    case _ =>
  }

  /** A start takes over what is stored, validated once more, and puts it into force if there are rules and the firewall takes them. */
  lemma RestartAnswers(s: State, readable: bool, env: Env)
    ensures var (s', reply) := Restart(s, readable, env);
      var inForce := readable && s.store.rules != [] && s.available && env.applyOk;
      && s'.saved == (if readable then Loaded(s.store.rules) else []) && s'.follow == (if readable then s.store.follow else {})
      && s'.active == (if inForce then Loaded(s.store.rules) else [])
      && s'.installed == (if inForce then Some(Installed(s'.active, ScopeOf(env.addrs, s'.follow))) else s.installed)
      && s'.trial.None? && s'.store == s.store
      && (reply == Refused <==> !readable || (s.store.rules != [] && s.available && !env.applyOk))
  {
    LoadedAt(s.store.rules);
  }

  /** A switch that is taken and stored is as asked, and all others are as they were. */
  lemma SwitchTakes(s: State, ip: Addr, follow: bool, env: Env)
    ensures var (s', reply) := SetFollow(s, ip, follow, env);
      && (reply == Kept <==> Address(ip, true) in env.addrs && (s.available && s.active != [] ==> env.applyOk) && env.saveOk)
      && (reply == Kept ==> s'.store == Stored(s.saved, s'.follow) && (ip in s'.follow <==> follow))
      && (forall other :: other != ip ==> (other in s'.follow <==> other in s.follow))
      && s'.active == s.active && s'.saved == s.saved && s'.trial == s.trial
  {
  }

  // ---- a trial from its beginning to its end

  /** What may happen while trial id goes on: anything but another set, a confirmation, a revert, its own timer and a restart. */
  predicate Quiet(step: Step, id: nat) {
    match step.event
    case Timer(other) => other != id
    case DoSetFollow(_, _) => true
    case DoMaintain => true
    case Flush => true
    case _ => false
  }

  predicate SameTrial(s: State, t: State) {
    t.trial == s.trial && t.active == s.active && t.saved == s.saved
  }

  lemma QuietStep(s: State, step: Step, id: nat)
    requires s.trial.Some? && s.trial.value.id == id && Quiet(step, id)
    ensures SameTrial(s, Next(s, step))
  {
  }

  lemma {:induction false} TrialGoesOn(s: State, steps: seq<Step>, id: nat)
    requires s.trial.Some? && s.trial.value.id == id && StoresSaved(s)
    requires forall i :: 0 <= i < |steps| ==> Quiet(steps[i], id)
    ensures SameTrial(s, Run(s, steps)) && StoresSaved(Run(s, steps))
  {
    if steps == [] {
    } else {
      var n := |steps| - 1;
      TrialGoesOn(s, steps[..n], id);
      QuietStep(Run(s, steps[..n]), steps[n], id);
      StepKeepsStoreSaved(Run(s, steps[..n]), steps[n]);
    }
  }

  lemma ConfirmAnswers(s: State, env: Env)
    ensures var (s', reply) := Confirm(s, env);
      && (reply == Kept <==> s.trial.Some? && env.saveOk)
      && (reply == Kept ==> s'.trial.None? && s'.saved == s'.active == s'.store.rules == s.active && s'.follow == s.follow == s'.store.follow)
      && (reply != Kept ==> s' == s)
  {
  }

  lemma RunPush(s: State, steps: seq<Step>, step: Step)
    ensures Run(s, steps + [step]) == Next(Run(s, steps), step)
  {
    assert (steps + [step])[..|steps|] == steps;
  }

  lemma Confirmed(t: State, id: nat, confirm: Env, later: Env)
    requires t.trial.Some? && t.trial.value.id == id && confirm.saveOk
    ensures var s' := Next(t, Step(DoConfirm, confirm));
      && s'.trial.None? && s'.active == t.active && s'.saved == t.active && s'.store.rules == t.active
      && Next(s', Step(DoRestart(true), later)).saved == Loaded(t.active)
      && Next(s', Step(Timer(id), later)) == s'
  {
    var s' := Confirm(t, confirm).0;
    ConfirmAnswers(t, confirm);
    RestartLoads(s', later);
  }

  /** From the set that goes on trial to the step that ends it. */
  lemma TrialRun(s: State, rules: seq<PortRule>, env: Env, steps: seq<Step>, last: Step)
    requires StoresSaved(s) && Set(s, rules, env).1.OnTrial?
    requires forall i :: 0 <= i < |steps| ==> Quiet(steps[i], s.nextTrial)
    ensures var t := Run(Next(s, Step(DoSet(rules), env)), steps);
      && Run(Next(s, Step(DoSet(rules), env)), steps + [last]) == Next(t, last)
      && t.trial.Some? && t.trial.value.id == s.nextTrial && t.active == rules != [] && t.saved == s.saved && StoresSaved(t)
  {
    SetAnswers(s, rules, env);
    assert rules != [] by {
      forall port ensures !Risky(AsTested, s.saved, [], port, HostAddrs(env.addrs)) {}
    }
    TrialGoesOn(Set(s, rules, env).0, steps, s.nextTrial);
    RunPush(Set(s, rules, env).0, steps, last);
  }

  /**
   A set that goes on trial and is confirmed, whatever happens in between:
   what was asked is active, saved and stored, a restart loads it, and the
   trial's timer does nothing any more.
   */
  lemma TrialConfirmed(s: State, rules: seq<PortRule>, env: Env, steps: seq<Step>, confirm: Env, later: Env)
    requires StoresSaved(s) && Set(s, rules, env).1.OnTrial? && confirm.saveOk
    requires forall i :: 0 <= i < |steps| ==> Quiet(steps[i], s.nextTrial)
    ensures var s' := Run(Next(s, Step(DoSet(rules), env)), steps + [Step(DoConfirm, confirm)]);
      && s'.trial.None? && s'.active == rules && s'.saved == rules && s'.store.rules == rules
      && Next(s', Step(DoRestart(true), later)).saved == Loaded(rules)
      && Next(s', Step(Timer(s.nextTrial), later)) == s'
  {
    TrialRun(s, rules, env, steps, Step(DoConfirm, confirm));
    Confirmed(Run(Next(s, Step(DoSet(rules), env)), steps), s.nextTrial, confirm, later);
  }

  /** Ending a trial while the firewall obeys leaves the saved rules active and in the kernel, and the store as it was. */
  lemma UndoTakes(t: State, env: Env)
    requires t.trial.Some? && t.active != [] && if t.saved == [] then env.removeOk else env.applyOk
    ensures var s' := Revert(t, env).0;
      && s' == Expire(t, t.trial.value.id, env) && s'.trial.None?
      && s'.active == t.saved && s'.saved == t.saved && s'.store == t.store && s'.follow == t.follow
      && s'.installed == if t.saved == [] then None else Some(Installed(t.saved, ScopeOf(env.addrs, t.follow)))
  {
  }

  lemma RestartLoads(s: State, env: Env)
    requires StoresSaved(s)
    ensures Restart(s, true, env).0.saved == Loaded(s.saved) && Restart(s, true, env).0.follow == s.store.follow
  {
  }

  lemma Undone(t: State, id: nat, last: Step, later: Env)
    requires t.trial.Some? && t.trial.value.id == id && t.active != [] && StoresSaved(t)
    requires last.event == Timer(id) || last.event == DoRevert
    requires if t.saved == [] then last.env.removeOk else last.env.applyOk
    ensures var s' := Next(t, last);
      && s'.trial.None? && s'.active == t.saved && s'.saved == t.saved
      && s'.installed == (if t.saved == [] then None else Some(Installed(t.saved, ScopeOf(last.env.addrs, s'.follow))))
      && Next(s', Step(DoRestart(true), later)).saved == Loaded(t.saved)
  {
    UndoTakes(t, last.env);
    var s' := Revert(t, last.env).0;
    assert Next(t, last) == s';
    RestartLoads(s', later);
  }

  /**
   A set that goes on trial and is not confirmed: when its timer goes off, or
   it is taken back, and the firewall obeys, the rules from before are active
   and in the kernel, and a restart loads them.
   */
  lemma TrialUndone(s: State, rules: seq<PortRule>, env: Env, steps: seq<Step>, last: Step, later: Env)
    requires StoresSaved(s) && Set(s, rules, env).1.OnTrial?
    requires last.event == Timer(s.nextTrial) || last.event == DoRevert
    requires if s.saved == [] then last.env.removeOk else last.env.applyOk
    requires forall i :: 0 <= i < |steps| ==> Quiet(steps[i], s.nextTrial)
    ensures var s' := Run(Next(s, Step(DoSet(rules), env)), steps + [last]);
      && s'.trial.None? && s'.active == s.saved && s'.saved == s.saved
      && s'.installed == (if s.saved == [] then None else Some(Installed(s.saved, ScopeOf(last.env.addrs, s'.follow))))
      && Next(s', Step(DoRestart(true), later)).saved == Loaded(s.saved)
  {
    TrialRun(s, rules, env, steps, last);
    var t := Run(Next(s, Step(DoSet(rules), env)), steps);
    Undone(t, s.nextTrial, last, later);
  }

  /** A revert is answered with yes exactly when there was a trial and the saved rules went in, or there are none. */
  lemma RevertAnswers(s: State, env: Env)
    ensures Revert(s, env).1 == Kept <==> s.trial.Some? && (s.saved == [] || env.applyOk)
    ensures s.trial.None? ==> Revert(s, env).0 == s
  {
  }

  /** Rules the firewall does not take: those from before stay active, are put back if it takes them, or the chains are taken out. */
  lemma RefusedRulesGo(s: State, rules: seq<PortRule>, env: Env)
    requires rules != [] && !env.applyOk
    ensures var (s', ok) := Enforce(s, rules, env);
      && !ok && s'.active == s.active && s'.scope == s.scope && s'.saved == s.saved && s'.store == s.store
      && (s.active == [] && env.removeOk ==> s'.installed == None)
      && (s.active != [] && env.restoreOk ==> s'.installed == Some(Installed(s.active, s.scope)))
      && (s'.installed == s.installed || (s.active == [] && env.removeOk) || (s.active != [] && env.restoreOk))
  {
  }

  /** Chains that something else took out are back after the next maintenance. */
  lemma FlushIsRepaired(s: State, flush: Env, env: Env)
    requires s.available && s.active != [] && env.applyOk
    ensures var flushed := Next(s, Step(Flush, flush));
      && flushed.installed == None && flushed.active == s.active
      && Next(flushed, Step(DoMaintain, env)).installed == Some(Installed(s.active, ScopeOf(env.addrs, s.follow)))
  {
  }

  // ---- trials that overtake each other

  predicate TrialIsLatest(s: State) {
    s.trial.Some? ==> s.trial.value.id < s.nextTrial
  }

  lemma StepKeepsLatest(s: State, step: Step)
    requires TrialIsLatest(s)
    ensures TrialIsLatest(Next(s, step)) && s.nextTrial <= Next(s, step).nextTrial
  {
    match step.event
    case DoSet(_) =>
    case _ =>
  }

  /** Over any run a trial's identifier is new: the timer of an earlier one, however late, leaves a later one alone. */
  lemma OldTimersAreDead(s: State, steps: seq<Step>, env: Env)
    requires TrialIsLatest(s)
    ensures var t := Run(s, steps);
      && TrialIsLatest(t) && s.nextTrial <= t.nextTrial
      && (t.trial.Some? && s.trial.Some? && t.trial != s.trial ==> Next(t, Step(Timer(s.trial.value.id), env)) == t)
  {
    IdsGrow(s, steps);
  }

  /** The trial of a state after a run is the one from before, or one numbered later. */
  lemma {:induction false} IdsGrow(s: State, steps: seq<Step>)
    requires TrialIsLatest(s)
    ensures var t := Run(s, steps);
      && TrialIsLatest(t) && s.nextTrial <= t.nextTrial
      && (t.trial.Some? ==> t.trial == s.trial || s.nextTrial <= t.trial.value.id)
  {
    if steps == [] {
    } else {
      var n := |steps| - 1;
      IdsGrow(s, steps[..n]);
      StepKeepsLatest(Run(s, steps[..n]), steps[n]);
      TrialAfter(Run(s, steps[..n]), steps[n]);
    }
  }

  lemma TrialAfter(s: State, step: Step)
    ensures var t := Next(s, step); t.trial.None? || t.trial == s.trial || t.trial.value.id == s.nextTrial
  {
    match step.event
    case DoSet(_) =>
    case _ =>
  }

  // ---- what the store holds

  /** For the examples: port 22 closed to everyone. */
  const TRIAL_RULE := PortRule("a", TcpOnly, Range(22, 22), Allow, [], [], true)

  predicate Readable(steps: seq<Step>) {
    forall i :: 0 <= i < |steps| && steps[i].event.DoRestart? ==> steps[i].event.readable
  }

  /** No switch of a passed-on address is thrown while the store refuses. */
  predicate SwitchesSaved(steps: seq<Step>) {
    forall i :: 0 <= i < |steps| && steps[i].event.DoSetFollow? ==> steps[i].env.saveOk
  }

  /** A restart would load the rules that are called saved, validated again. */
  predicate StoresSaved(s: State) {
    Loaded(s.store.rules) == Loaded(s.saved)
  }

  /** A step leaves the stored and the saved rules alone, makes them the same, or loads the saved ones. */
  lemma StoreAfter(s: State, step: Step)
    requires step.event.DoRestart? ==> step.event.readable
    ensures var s' := Next(s, step);
      || (s'.store.rules == s.store.rules && s'.saved == s.saved)
      || s'.store.rules == s'.saved
      || (s'.store.rules == s.store.rules && s'.saved == Loaded(s.store.rules))
  {
    match step.event
    case DoSet(_) =>
    case _ =>
  }

  lemma StepKeepsStoreSaved(s: State, step: Step)
    requires StoresSaved(s)
    requires step.event.DoRestart? ==> step.event.readable
    ensures StoresSaved(Next(s, step))
  {
    StoreAfter(s, step);
    LoadedTwice(s.store.rules);
  }

  /** A switch is turned over that the firewall takes and the store refuses, or a start cannot read the switches. */
  predicate LosesSwitch(s: State, step: Step) {
    match step.event
    case DoSetFollow(ip, follow) =>
      && Address(ip, true) in step.env.addrs && (ip in s.follow) != follow
      && (s.available && s.active != [] ==> step.env.applyOk) && !step.env.saveOk
    case DoRestart(readable) => !readable && s.follow != {}
    case _ => false
  }

  lemma OthersKeepFollow(s: State, step: Step)
    requires !step.event.DoSetFollow? && !step.event.DoRestart?
    ensures var s' := Next(s, step); s'.follow == s.follow && (s'.store.follow == s.follow || s'.store.follow == s.store.follow)
  {
    match step.event
    case DoSet(_) =>
    case _ =>
  }

  lemma SwitchStoredIff(s: State, ip: Addr, follow: bool, env: Env)
    requires s.store.follow == s.follow
    ensures SetFollow(s, ip, follow, env).0.store.follow == SetFollow(s, ip, follow, env).0.follow
      <==> !LosesSwitch(s, Step(DoSetFollow(ip, follow), env))
  {
    assert (s.follow + {ip} == s.follow <==> ip in s.follow) && (s.follow - {ip} == s.follow <==> ip !in s.follow);
  }

  /** While the store holds the switches in use, a step changes that exactly so. */
  lemma FollowStoredIff(s: State, step: Step)
    requires s.store.follow == s.follow
    ensures Next(s, step).store.follow == Next(s, step).follow <==> !LosesSwitch(s, step)
  {
    match step.event
    case DoSetFollow(ip, follow) => SwitchStoredIff(s, ip, follow, step.env);
    case DoRestart(_) =>
    case _ => OthersKeepFollow(s, step);
  }

  lemma StepKeepsFollowStored(s: State, step: Step)
    requires s.store.follow == s.follow
    requires step.event.DoRestart? ==> step.event.readable
    requires step.event.DoSetFollow? ==> step.env.saveOk
    ensures Next(s, step).store.follow == Next(s, step).follow
  {
    FollowStoredIff(s, step);
  }

  /**
   Whatever the firewall and the store refuse and whenever timers fire, the
   rules a restart would load are what the manager calls saved; so are the
   switches, if none was thrown while the store refused.
   */
  lemma {:induction false} StoreIsSaved(s: State, steps: seq<Step>)
    requires StoresSaved(s) && Readable(steps)
    ensures StoresSaved(Run(s, steps))
    ensures s.store.follow == s.follow && SwitchesSaved(steps) ==> Run(s, steps).store.follow == Run(s, steps).follow
  {
    if steps == [] {
    } else {
      var n := |steps| - 1;
      StoreIsSaved(s, steps[..n]);
      StepKeepsStoreSaved(Run(s, steps[..n]), steps[n]);
      if s.store.follow == s.follow && SwitchesSaved(steps) {
        StepKeepsFollowStored(Run(s, steps[..n]), steps[n]);
      }
    }
  }

  /** A switch thrown while the store refuses is in force until the next start, which takes it back. */
  lemma SwitchLostExample(ip: Addr)
    ensures var s := State(true, [TRIAL_RULE], [TRIAL_RULE], {}, Scope([], []), None, 0, Stored([TRIAL_RULE], {}), None);
      var env := Env([], [Address(ip, true)], true, true, true, false);
      var s' := SetFollow(s, ip, true, env).0;
      s'.follow == {ip} && s'.store.follow == {} && Restart(s', true, env).0.follow == {}
  {
  }

  /**
   After a start that cannot read the store the manager takes its rules for
   none: the first switch that is thrown erases what is stored.
   */
  lemma UnreadableStart(s: State, start: Env, ip: Addr, follow: bool, env: Env)
    requires Address(ip, true) in env.addrs
    ensures var s' := Restart(s, false, start).0;
      SetFollow(s', ip, follow, env).0.store.rules == if env.saveOk then [] else s.store.rules
  {
  }

  /** The store changes only to a confirmed set, to one the test let pass, or back to the saved one. */
  lemma StoreTakesOnlySettledRules(s: State, step: Step)
    ensures var s' := Next(s, step);
      s'.store.rules == s.store.rules
      || (step.event.DoConfirm? && s.trial.Some? && s'.store.rules == s.active)
      || (step.event.DoSet? && s'.store.rules == step.event.rules
          && forall port :: port in step.env.prot ==> !Risky(AsTested, s.saved, step.event.rules, port, HostAddrs(step.env.addrs)))
      || (step.event.DoSetFollow? && s'.store.rules == s.saved)
  {
    if step.event.DoSet? {
      var risky := RiskySet(s.saved, step.event.rules, step.env.prot, HostAddrs(step.env.addrs));
      if risky == {} {
        forall port | port in step.env.prot ensures !Risky(AsTested, s.saved, step.event.rules, port, HostAddrs(step.env.addrs)) {
          assert port !in risky;
        }
      }
    }
  }

  // ---- nobody is locked out

  /** As they are compiled, the rules guard each port as the saved ones do, or not at all; how often they were validated is no difference. */
  predicate AsSaved(saved: seq<PortRule>, rules: seq<PortRule>, prot: seq<int>, host: seq<Addr>) {
    forall port :: port in prot ==> !Risky(AsCompiled, Loaded(saved), Loaded(rules), port, host)
  }

  predicate KernelAsSaved(saved: seq<PortRule>, installed: Option<Installed>, prot: seq<int>, host: seq<Addr>) {
    installed.None? || AsSaved(saved, installed.value.rules, prot, host)
  }

  /** What holds between steps for the given protected ports and addresses of the server. */
  predicate Steady(s: State, prot: seq<int>, host: seq<Addr>) {
    && StoresSaved(s)
    && (s.active != [] ==> s.installed.None? || s.installed.value == Installed(s.active, s.scope))
    && (s.trial.None? ==> AsSaved(s.saved, s.active, prot, host) && KernelAsSaved(s.saved, s.installed, prot, host))
    && (s.trial.Some? ==> s.active != [])
    && (!s.available ==> s.active == [] && s.trial.None? && s.installed.None?)
  }

  predicate SameServer(env: Env, prot: seq<int>, host: seq<Addr>) {
    HostAddrs(env.addrs) == host && forall port :: port in prot ==> port in env.prot
  }

  /** Ending the trial brings the saved rules back, or the kernel is rid of the trial's, or those do no harm. */
  predicate UndoSettles(s: State, env: Env, prot: seq<int>, host: seq<Addr>) {
    || (if s.saved == [] then env.removeOk || s.installed.None? else env.applyOk)
    || AsSaved(s.saved, s.active, prot, host)
  }

  /** Deleting every rule takes them out of the kernel, or what stays there does no harm. */
  predicate EmptySettles(s: State, env: Env, prot: seq<int>, host: seq<Addr>) {
    (s.active != [] && env.removeOk) || KernelAsSaved(if env.saveOk then [] else s.saved, s.installed, prot, host)
  }

  /** A new process puts the saved rules back, or what it finds in the kernel does no harm. */
  predicate RestartSettles(s: State, readable: bool, env: Env, prot: seq<int>, host: seq<Addr>) {
    if readable then (s.saved != [] && s.available && env.applyOk) || KernelAsSaved(s.saved, s.installed, prot, host)
    else s.store.rules == [] && KernelAsSaved([], s.installed, prot, host)
  }

  /** A set that the test lets pass is saved, or refused, or does no harm as it is compiled. */
  predicate SetSettles(s: State, rules: seq<PortRule>, env: Env, prot: seq<int>, host: seq<Addr>) {
    s.available && Acceptable(rules) && RiskySet(s.saved, rules, env.prot, HostAddrs(env.addrs)) == {} ==>
      if rules == [] then EmptySettles(s, env, prot, host)
      else !env.applyOk || env.saveOk || AsSaved(s.saved, rules, prot, host)
  }

  predicate Settles(s: State, step: Step, prot: seq<int>, host: seq<Addr>) {
    match step.event
    case DoSet(rules) => SetSettles(s, rules, step.env, prot, host)
    case DoRevert => s.trial.Some? ==> UndoSettles(s, step.env, prot, host)
    case Timer(id) => s.trial.Some? && s.trial.value.id == id ==> UndoSettles(s, step.env, prot, host)
    case DoRestart(readable) => RestartSettles(s, readable, step.env, prot, host)
    case _ => true
  }

  predicate AllSettle(s: State, steps: seq<Step>, prot: seq<int>, host: seq<Addr>) {
    steps == [] ||
    var n := |steps| - 1;
    AllSettle(s, steps[..n], prot, host) && SameServer(steps[n].env, prot, host) && Settles(Run(s, steps[..n]), steps[n], prot, host)
  }

  /** A set that the test lets pass does no harm if the test sees its rules and the saved ones. */
  lemma SeenSettles(saved: seq<PortRule>, next: seq<PortRule>, env: Env, prot: seq<int>, host: seq<Addr>)
    requires SameServer(env, prot, host) && RiskySet(saved, next, env.prot, HostAddrs(env.addrs)) == {}
    requires TestSees(saved, host) && TestSees(next, host)
    ensures AsSaved(saved, next, prot, host)
  {
    forall port | port in prot ensures !Risky(AsCompiled, Loaded(saved), Loaded(next), port, host) {
      assert port !in RiskySet(saved, next, env.prot, HostAddrs(env.addrs));
      SeenCoversAlike(saved, port, host);
      SeenCoversAlike(next, port, host);
      LoadedNoRiskier(saved, next, port, host);
    }
  }

  lemma AsSavedToItself(rules: seq<PortRule>, prot: seq<int>, host: seq<Addr>)
    ensures AsSaved(rules, rules, prot, host) && AsSaved(rules, [], prot, host)
  {
  }

  lemma SetSteadyIff(s: State, rules: seq<PortRule>, env: Env, prot: seq<int>, host: seq<Addr>)
    requires Steady(s, prot, host) && SameServer(env, prot, host)
    ensures Steady(Set(s, rules, env).0, prot, host) <==> SetSettles(s, rules, env, prot, host)
  {
    var risky := RiskySet(s.saved, rules, env.prot, HostAddrs(env.addrs));
    AsSavedToItself(rules, prot, host);
    AsSavedToItself(s.saved, prot, host);
    if !s.available || !Acceptable(rules) {
    } else if rules == [] {
    } else if !env.applyOk {
    } else if risky == {} {
      assert Set(s, rules, env).0.active == rules && Set(s, rules, env).0.trial.None?;
    } else {
      assert Set(s, rules, env).0.trial.Some?;
    }
  }

  /** Exactly when ending a trial keeps everyone's way in; a timer that goes off does what reverting does. */
  lemma UndoSteadyIff(s: State, env: Env, prot: seq<int>, host: seq<Addr>)
    requires Steady(s, prot, host) && s.trial.Some?
    ensures Steady(Revert(s, env).0, prot, host) <==> UndoSettles(s, env, prot, host)
    ensures Expire(s, s.trial.value.id, env) == Revert(s, env).0
  {
    AsSavedToItself(s.saved, prot, host);
  }

  /** Exactly when a restart does. */
  lemma RestartSteadyIff(s: State, readable: bool, env: Env, prot: seq<int>, host: seq<Addr>)
    requires Steady(s, prot, host)
    ensures Steady(Restart(s, readable, env).0, prot, host) <==> RestartSettles(s, readable, env, prot, host)
  {
    var loaded := Loaded(s.store.rules);
    AsSavedToItself(loaded, prot, host);
    AsSavedToItself([], prot, host);
    LoadedTwice(s.store.rules);
    LoadedTwice(s.saved);
    LoadedAt(s.store.rules);
    LoadedAt(s.saved);
    assert KernelAsSaved(loaded, s.installed, prot, host) == KernelAsSaved(s.saved, s.installed, prot, host);
  }

  /** A step keeps things steady exactly when it settles. */
  lemma StepSteadyIff(s: State, step: Step, prot: seq<int>, host: seq<Addr>)
    requires Steady(s, prot, host) && SameServer(step.env, prot, host)
    ensures Steady(Next(s, step), prot, host) <==> Settles(s, step, prot, host)
  {
    match step.event
    case DoSet(rules) => SetSteadyIff(s, rules, step.env, prot, host);
    case DoRevert => if s.trial.Some? { UndoSteadyIff(s, step.env, prot, host); }
    case Timer(id) => if s.trial.Some? && s.trial.value.id == id { UndoSteadyIff(s, step.env, prot, host); }
    case DoRestart(readable) => RestartSteadyIff(s, readable, step.env, prot, host);
    case DoConfirm => AsSavedToItself(s.active, prot, host);
    case _ =>
  }

  lemma {:induction false} RunKeepsSteady(s: State, steps: seq<Step>, prot: seq<int>, host: seq<Addr>)
    requires Steady(s, prot, host) && AllSettle(s, steps, prot, host)
    ensures Steady(Run(s, steps), prot, host)
  {
    if steps == [] {
    } else {
      var n := |steps| - 1;
      RunKeepsSteady(s, steps[..n], prot, host);
      StepSteadyIff(Run(s, steps[..n]), steps[n], prot, host);
    }
  }

  // ---- where it fails

  /** A manager before its first start, with nothing stored and nothing in the kernel. */
  const UNUSED := State(true, [], [], {}, Scope([], []), None, 0, Stored([], {}), None)

  /** Port 22 is protected; every call is taken, or none. */
  function Everything(taken: bool): Env {
    Env([22], [], taken, taken, taken, taken)
  }

  lemma UnusedIsSteady(prot: seq<int>, host: seq<Addr>)
    ensures Steady(UNUSED, prot, host)
  {
    AsSavedToItself([], prot, host);
  }

  lemma OnlyRuleCovers(how: Reading, r: PortRule, port: int, host: seq<Addr>)
    requires Guards(how, r, port, host)
    ensures CoveringOf(how, [r], port, host) == [r]
  {
    assert [r][..0] == [];
    assert CoveringOf(how, [], port, host) == [];
  }

  lemma TrialRuleRisky(how: Reading)
    ensures Risky(how, [], [TRIAL_RULE], 22, [])
  {
    OnlyRuleCovers(how, TRIAL_RULE, 22, []);
    assert CoveringOf(how, [], 22, []) == [];
  }

  /**
   The first set of an unused manager closes port 22 and goes on trial; when
   the time is up the chains cannot be taken out. The port stays closed, and
   maintenance does nothing.
   */
  lemma UndoRefusedExample()
    ensures Steady(UNUSED, [22], [])
    ensures var s := Set(UNUSED, [TRIAL_RULE], Everything(true)).0;
      var s' := Expire(s, 0, Everything(false));
      && Steady(s, [22], []) && s.trial == Some(Trial(0, {22}))
      && !Steady(s', [22], []) && s'.trial.None? && s'.active == []
      && s'.installed == Some(Installed([TRIAL_RULE], Scope([], []))) && Maintain(s', Everything(false)) == s'
  {
    UnusedIsSteady([22], []);
    TrialRuleRisky(AsTested);
    TrialRuleRisky(AsCompiled);
    assert RiskySet([], [TRIAL_RULE], [22], []) == {22} by {
      assert 22 in [22];
    }
    assert HostAddrs([]) == [] && PassedOn([], {}, true) == [] && PassedOn([], {}, false) == [];
    assert ScopeOf([], {}) == Scope([], []);
    var s := Set(UNUSED, [TRIAL_RULE], Everything(true)).0;
    assert s.active == [TRIAL_RULE] && s.installed == Some(Installed([TRIAL_RULE], Scope([], [])));
    assert [] + [TRIAL_RULE] == [TRIAL_RULE] && Loaded([TRIAL_RULE]) == [TRIAL_RULE];
  }

  /** A rule that the test does not see is saved at once, without a trial. */
  lemma HiddenSetExample()
    ensures var env := Env([22], [Address(SERVER, false)], true, true, true, true);
      var (s, reply) := Set(UNUSED, [HIDDEN_RULE], env);
      && reply == Kept && s.trial.None? && s.store.rules == [HIDDEN_RULE]
      && s.installed.Some? && s.installed.value.rules == [HIDDEN_RULE]
      && Risky(AsCompiled, [], [HIDDEN_RULE], 22, [SERVER])
  {
    var env := Env([22], [Address(SERVER, false)], true, true, true, true);
    HiddenRuleMissed();
    assert env.addrs[..0] == [] && HostAddrs(env.addrs) == [SERVER];
    assert RiskySet([], [HIDDEN_RULE], env.prot, [SERVER]) == {} by {
      assert forall port :: port in env.prot ==> port == 22;
      assert !Risky(AsTested, [], [HIDDEN_RULE], 22, [SERVER]);
    }
  }

  /** A process that dies during a trial, with nothing saved, leaves the unconfirmed chains in the kernel for good. */
  lemma RestartLeavesTrialInKernel(s: State, env: Env)
    requires s.trial.Some? && s.store == Stored([], {}) && s.installed == Some(Installed(s.active, s.scope))
    ensures var s' := Restart(s, true, env).0;
      s'.trial.None? && s'.saved == [] && s'.active == [] && s'.installed == Some(Installed(s.active, s.scope))
      && Maintain(s', env) == s'
      && (s'.available ==> Set(s', [], env).0.installed == s'.installed)
  {
  }

  /**
   The whole way: after any run that settles, with no trial running, the
   chains the kernel holds treat every TCP packet for a protected port at one
   of the server's own addresses as the saved rules would, or let it through.
   */
  lemma NeverLockedOut(s: State, steps: seq<Step>, prot: seq<int>, host: seq<Addr>, wl: seq<Entry>, v6: bool, sc: Scope,
      kernel: seq<Line>, savedLines: seq<Line>, port: int, chain: Chain, p: Packet)
    requires Steady(s, prot, host) && AllSettle(s, steps, prot, host)
    requires Run(s, steps).trial.None? && Run(s, steps).installed.Some?
    requires Implements(kernel, Run(s, steps).installed.value.rules, wl, v6, Run(s, steps).installed.value.scope)
    requires Implements(savedLines, Run(s, steps).saved, wl, v6, sc)
    requires port in prot && p.OfFamily(v6) && AsksHost(p, port, host, chain)
    requires SameEitherWay(p, chain, sc, Run(s, steps).installed.value.scope)
    ensures !Dropped(kernel, chain, p) || Dropped(savedLines, chain, p)
  {
    RunKeepsSteady(s, steps, prot, host);
    var t := Run(s, steps);
    var held := t.installed.value.rules;
    assert AsSaved(t.saved, held, prot, host);
    LoadedImplements(kernel, held, wl, v6, t.installed.value.scope);
    LoadedImplements(savedLines, t.saved, wl, v6, sc);
    HarmlessAsCompiled(Loaded(t.saved), Loaded(held), port, host, wl, v6, sc, t.installed.value.scope, savedLines, kernel, chain, p);
  }

  // ---- nothing is restricted unconfirmed

  lemma SafeSetDropsNoMore(saved: seq<PortRule>, next: seq<PortRule>, port: int, host: seq<Addr>, wl: seq<Entry>, sc: Scope, chain: Chain, p: Packet)
    requires AsSaved(saved, next, [port], host) && AsksHost(p, port, host, chain)
    ensures PolicyDrops(next, wl, sc, chain, p) ==> PolicyDrops(saved, wl, sc, chain, p)
  {
    assert port in [port];
    LoadedPolicy(saved, wl, sc, chain, p);
    LoadedPolicy(next, wl, sc, chain, p);
    if CoveringOf(AsCompiled, Loaded(next), port, host) == [] {
      UncoveredPasses(Loaded(next), wl, sc, port, host, chain, p);
    } else {
      SameCoveringSameVerdict(Loaded(saved), Loaded(next), wl, sc, sc, port, host, chain, p);
    }
  }

  /** What a step can make of the saved rules. */
  lemma SavedAfter(s: State, step: Step)
    requires StoresSaved(s)
    ensures var s' := Next(s, step);
      || s'.saved == s.saved || s'.saved == Loaded(s.saved)
      || (step.event.DoSet? && s'.saved == step.event.rules
          && RiskySet(s.saved, s'.saved, step.env.prot, HostAddrs(step.env.addrs)) == {})
      || step.event.DoConfirm? || (step.event.DoRestart? && !step.event.readable)
  {
    match step.event
    case DoSet(_) =>
    case _ =>
  }

  /** A set the test sees, no confirmation, and starts that can read the store. */
  predicate Unrestricting(step: Step, host: seq<Addr>) {
    && !step.event.DoConfirm?
    && (step.event.DoSet? ==> TestSees(step.event.rules, host))
    && (step.event.DoRestart? ==> step.event.readable)
  }

  lemma StepSavesNoRestriction(s: State, step: Step, prot: seq<int>, host: seq<Addr>, wl: seq<Entry>, sc: Scope, port: int, chain: Chain, p: Packet)
    requires StoresSaved(s) && TestSees(s.saved, host) && SameServer(step.env, prot, host)
    requires Unrestricting(step, host) && port in prot && AsksHost(p, port, host, chain)
    ensures var s' := Next(s, step);
      && StoresSaved(s') && TestSees(s'.saved, host)
      && (PolicyDrops(s'.saved, wl, sc, chain, p) ==> PolicyDrops(s.saved, wl, sc, chain, p))
  {
    var saved := Next(s, step).saved;
    StepKeepsStoreSaved(s, step);
    SavedAfter(s, step);
    if saved == Loaded(s.saved) {
      LoadedIsSeen(s.saved, host);
      LoadedPolicy(s.saved, wl, sc, chain, p);
    } else if saved != s.saved {
      SeenSettles(s.saved, saved, step.env, prot, host);
      SafeSetDropsNoMore(s.saved, saved, port, host, wl, sc, chain, p);
    }
  }

  lemma {:induction false} AllOnSameServer(s: State, steps: seq<Step>, prot: seq<int>, host: seq<Addr>)
    requires AllSettle(s, steps, prot, host)
    ensures forall i :: 0 <= i < |steps| ==> SameServer(steps[i].env, prot, host)
  {
    if steps == [] {
    } else {
      AllOnSameServer(s, steps[..|steps| - 1], prot, host);
    }
  }

  /**
   Over any run without a confirmation, of sets the test sees: the rules that
   end up saved turn away no one from a protected port at an own address whom
   the first saved rules let in.
   */
  lemma {:induction false} RunSavesNoRestriction(s: State, steps: seq<Step>, prot: seq<int>, host: seq<Addr>, wl: seq<Entry>, sc: Scope,
      port: int, chain: Chain, p: Packet)
    requires StoresSaved(s) && TestSees(s.saved, host) && forall i :: 0 <= i < |steps| ==> Unrestricting(steps[i], host)
    requires forall i :: 0 <= i < |steps| ==> SameServer(steps[i].env, prot, host)
    requires port in prot && AsksHost(p, port, host, chain)
    ensures var t := Run(s, steps);
      && StoresSaved(t) && TestSees(t.saved, host)
      && (PolicyDrops(t.saved, wl, sc, chain, p) ==> PolicyDrops(s.saved, wl, sc, chain, p))
  {
    if steps == [] {
    } else {
      var n := |steps| - 1;
      RunSavesNoRestriction(s, steps[..n], prot, host, wl, sc, port, chain, p);
      StepSavesNoRestriction(Run(s, steps[..n]), steps[n], prot, host, wl, sc, port, chain, p);
    }
  }

  /**
   Both together: after such a run that settles, with no trial running, the
   kernel turns away no one whom the rules saved at its beginning let in.
   */
  lemma NothingLostUnconfirmed(s: State, steps: seq<Step>, prot: seq<int>, host: seq<Addr>, wl: seq<Entry>, v6: bool,
      kernel: seq<Line>, port: int, chain: Chain, p: Packet)
    requires Steady(s, prot, host) && AllSettle(s, steps, prot, host)
    requires TestSees(s.saved, host) && forall i :: 0 <= i < |steps| ==> Unrestricting(steps[i], host)
    requires Run(s, steps).trial.None? && Run(s, steps).installed.Some?
    requires Implements(kernel, Run(s, steps).installed.value.rules, wl, v6, Run(s, steps).installed.value.scope)
    requires port in prot && p.OfFamily(v6) && AsksHost(p, port, host, chain)
    ensures Dropped(kernel, chain, p) ==> PolicyDrops(s.saved, wl, Run(s, steps).installed.value.scope, chain, p)
  {
    RunKeepsSteady(s, steps, prot, host);
    AllOnSameServer(s, steps, prot, host);
    var t := Run(s, steps);
    var sc := t.installed.value.scope;
    RunSavesNoRestriction(s, steps, prot, host, wl, sc, port, chain, p);
    assert AsSaved(t.saved, t.installed.value.rules, prot, host);
    SafeSetDropsNoMore(t.saved, t.installed.value.rules, port, host, wl, sc, chain, p);
  }

  // ---- the manager

  /** The manager with the kernel and the store it works on. */
  class Manager {
    const available: bool
    var saved: seq<PortRule>
    var active: seq<PortRule>
    var follow: set<Addr>
    var scope: Scope
    var trial: Option<(nat, seq<int>)>
    var nextTrial: nat
    var store: Stored
    var installed: Option<Installed>

    function Abstract(): State
      reads this
    {
      State(available, saved, active, follow, scope,
            if trial.None? then None else Some(Trial(trial.value.0, set port | port in trial.value.1)),
            nextTrial, store, installed)
    }

    constructor (available: bool, store: Stored, installed: Option<Installed>)
      ensures Abstract() == State(available, [], [], {}, Scope([], []), None, 0, store, installed)
    {
      this.available := available;
      saved, active, follow, scope, trial, nextTrial := [], [], {}, Scope([], []), None, 0;
      this.store, this.installed := store, installed;
    }

    /** Splits the passed-on addresses by whether the server-wide rules cover them. */
    method ScopeFor(addrs: seq<Address>) returns (sc: Scope)
      ensures sc == ScopeOf(addrs, follow)
    {
      var followed, left := [], [];
      for i := 0 to |addrs|
        invariant followed == PassedOn(addrs[..i], follow, true)
        invariant left == PassedOn(addrs[..i], follow, false)
      {
        assert addrs[..i + 1][..i] == addrs[..i];
        if !addrs[i].forwarded {
          continue;
        }
        if addrs[i].ip in follow {
          followed := followed + [addrs[i].ip];
        } else {
          left := left + [addrs[i].ip];
        }
      }
      assert addrs[..|addrs|] == addrs;
      sc := Scope(Entries(SortAddrs(followed)), Entries(SortAddrs(left)));
    }

    method OwnAddrs(addrs: seq<Address>) returns (host: seq<Addr>)
      ensures host == HostAddrs(addrs)
    {
      host := [];
      for i := 0 to |addrs|
        invariant host == HostAddrs(addrs[..i])
      {
        assert addrs[..i + 1][..i] == addrs[..i];
        if !addrs[i].forwarded {
          host := host + [addrs[i].ip];
        }
      }
      assert addrs[..|addrs|] == addrs;
    }

    // the firewall and the store: a refused call changes nothing

    method Apply(rules: seq<PortRule>, sc: Scope, accepts: bool)
      modifies this`installed
      ensures installed == if accepts then Some(Installed(rules, sc)) else old(installed)
    {
      if accepts { installed := Some(Installed(rules, sc)); }
    }

    method Remove(accepts: bool)
      modifies this`installed
      ensures installed == if accepts then None else old(installed)
    {
      if accepts { installed := None; }
    }

    method Save(rules: seq<PortRule>, accepts: bool)
      modifies this`store
      ensures store == if accepts then Stored(rules, follow) else old(store)
    {
      if accepts { store := Stored(rules, follow); }
    }

    method EnforceRules(rules: seq<PortRule>, env: Env) returns (ok: bool)
      modifies this`active, this`scope, this`installed
      ensures (Abstract(), ok) == Enforce(old(Abstract()), rules, env)
    {
      if rules == [] {
        if active != [] { Remove(env.removeOk); }
        active := [];
        return true;
      }
      var sc := ScopeFor(env.addrs);
      Apply(rules, sc, env.applyOk);
      if !env.applyOk {
        if active != [] {
          Apply(active, scope, env.restoreOk);
        } else {
          Remove(env.removeOk);
        }
        return false;
      }
      active, scope := rules, sc;
      return true;
    }

    method NoSharedIds(rules: seq<PortRule>) returns (ok: bool)
      ensures ok <==> forall i, j :: 0 <= i < j < |rules| ==> rules[i].id != rules[j].id
    {
      var seen: set<string> := {};
      for i := 0 to |rules|
        invariant forall id :: id in seen <==> exists j :: 0 <= j < i && rules[j].id == id
        invariant forall j, k :: 0 <= j < k < i ==> rules[j].id != rules[k].id
      {
        if rules[i].id in seen {
          return false;
        }
        seen := seen + {rules[i].id};
      }
      return true;
    }

    /** The asked rules come into force: saved at once when TrialTest finds no port of theirs at risk, unsaved behind a deadline otherwise. */
    method SetRules(rules: seq<PortRule>, env: Env) returns (r: Reply)
      modifies this
      ensures (Abstract(), r) == Set(old(Abstract()), rules, env)
    {
      var distinct := NoSharedIds(rules);
      if !available || |rules| > MAX_RULES || !distinct {
        return Refused;
      }
      var host := OwnAddrs(env.addrs);
      var risky := RiskyPorts(saved, rules, env.prot, host);
      ghost var riskySet := RiskySet(saved, rules, env.prot, host);
      assert (set port | port in risky) == riskySet;
      var ok := EnforceRules(rules, env);
      if !ok {
        return Refused;
      }
      if |risky| == 0 {
        trial := None;
        Save(rules, env.saveOk);
        if !env.saveOk {
          return Refused;
        }
        saved := rules;
        return Kept;
      }
      assert risky[0] in riskySet;
      trial := Some((nextTrial, risky));
      nextTrial := nextTrial + 1;
      return OnTrial(set port | port in risky);
    }

    method ConfirmTrial(env: Env) returns (r: Reply)
      modifies this
      ensures (Abstract(), r) == Confirm(old(Abstract()), env)
    {
      if trial.None? {
        return Refused;
      }
      Save(active, env.saveOk);
      if !env.saveOk {
        return Refused;
      }
      trial := None;
      saved := active;
      return Kept;
    }

    method RevertTrial(env: Env) returns (r: Reply)
      modifies this
      ensures (Abstract(), r) == Revert(old(Abstract()), env)
    {
      if trial.None? {
        return Refused;
      }
      trial := None;
      var ok := EnforceRules(saved, env);
      return if ok then Kept else Refused;
    }

    method ExpireTrial(id: nat, env: Env)
      modifies this
      ensures Abstract() == Expire(old(Abstract()), id, env)
    {
      if trial.None? || trial.value.0 != id {
        return;
      }
      trial := None;
      var _ := EnforceRules(saved, env);
    }

    method FollowAddress(ip: Addr, on: bool, env: Env) returns (r: Reply)
      modifies this
      ensures (Abstract(), r) == SetFollow(old(Abstract()), ip, on, env)
    {
      var known := false;
      for i := 0 to |env.addrs|
        invariant known <==> Address(ip, true) in env.addrs[..i]
      {
        if env.addrs[i].ip == ip && env.addrs[i].forwarded {
          known := true;
        }
      }
      assert env.addrs[..|env.addrs|] == env.addrs;
      if !known {
        return Refused;
      }
      var prev := ip in follow;
      follow := if on then follow + {ip} else follow - {ip};
      if available && active != [] {
        var sc := ScopeFor(env.addrs);
        Apply(active, sc, env.applyOk);
        if !env.applyOk {
          follow := if prev then follow + {ip} else follow - {ip};
          assert follow == old(follow);
          return Refused;
        }
        scope := sc;
      }
      Save(saved, env.saveOk);
      return if env.saveOk then Kept else Refused;
    }

    method MaintainRules(env: Env)
      modifies this
      ensures Abstract() == Maintain(old(Abstract()), env)
    {
      if !available || active == [] {
        return;
      }
      var sc := ScopeFor(env.addrs);
      if sc != scope {
        Apply(active, sc, env.applyOk);
        if env.applyOk { scope := sc; }
        return;
      }
      if installed.None? {
        Apply(active, scope, env.applyOk);
      }
    }

    /** The stored rules, each validated again. */
    method LoadRules(rules: seq<PortRule>) returns (loaded: seq<PortRule>)
      ensures loaded == Loaded(rules)
    {
      loaded := [];
      for i := 0 to |rules|
        invariant loaded == Loaded(rules[..i])
      {
        assert rules[..i + 1][..i] == rules[..i];
        loaded := loaded + [Reloaded(rules[i])];
      }
      assert rules[..|rules|] == rules;
    }

    /** What a new process does first, with the manager fresh from its constructor. */
    method Start(readable: bool, env: Env) returns (r: Reply)
      requires saved == [] && active == [] && follow == {} && scope == Scope([], []) && trial == None
      modifies this
      ensures (Abstract(), r) == Restart(old(Abstract()), readable, env)
    {
      if !readable {
        return Refused;
      }
      var loaded := LoadRules(store.rules);
      saved, follow := loaded, store.follow;
      if saved == [] || !available {
        return Kept;
      }
      var sc := ScopeFor(env.addrs);
      Apply(saved, sc, env.applyOk);
      if !env.applyOk {
        return Refused;
      }
      active, scope := saved, sc;
      return Kept;
    }
  }
}
