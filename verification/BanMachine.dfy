/** Bans, scores and firewall rules over time (internal/server/server.go, internal/storage). */
module BanMachine {
  import opened Basics

  datatype Ban = Permanent | Until(expires: int)

  predicate Active(b: Ban, now: int) {
    b.Permanent? || b.expires > now
  }

  /** The row db.BanIP stores: a ban without a duration never expires. */
  function Row(now: int, duration: int, permanent: bool): Ban {
    if permanent || duration <= 0 then Permanent else Until(now + duration)
  }

  /** A ban stored now with a duration is active until that is over, every other one always. */
  lemma RowLasts(now: int, duration: int, permanent: bool, at: int)
    ensures Active(Row(now, duration, permanent), at) <==> permanent || duration <= 0 || at < now + duration
  {
  }

  predicate IsBanned(bans: map<string, Ban>, ip: string, now: int) {
    ip in bans && Active(bans[ip], now)
  }

  predicate Expired(bans: map<string, Ban>, ip: string, now: int) {
    ip in bans && !Active(bans[ip], now)
  }

  // ---- what a history says

  datatype Event =
    | Scored(ip: string, points: int)
    | Lifted(ip: string, reset: bool)      // a ban was lifted, and its score set back if the database took it
    | Handed(ip: string)                   // given to the firewall's Ban
    | Freed(ip: string)                    // maintenance removed its rule
    | Listed                               // maintenance listed the expired bans
    | Released(ip: string, row: Ban, at: int)
    | AutoBanned(ip: string, threshold: int, scoredAt: nat)   // for the score after that many events

  /** The score an address has after a history, from the scores of an earlier run of the program. */
  function ScoreOf(base: map<string, int>, log: seq<Event>, ip: string): int {
    if log == [] then At(base, ip, 0)
    else
      var rest, e := log[..|log| - 1], log[|log| - 1];
      if e.Scored? && e.ip == ip then ScoreOf(base, rest, ip) + e.points
      else if e.Lifted? && e.ip == ip && e.reset then 0
      else ScoreOf(base, rest, ip)
  }

  /** The points an address has collected since its last ban was lifted. */
  function NewPoints(log: seq<Event>, ip: string): int {
    if log == [] then 0
    else
      var rest, e := log[..|log| - 1], log[|log| - 1];
      if e.Scored? && e.ip == ip then NewPoints(rest, ip) + e.points
      else if e.Lifted? && e.ip == ip then 0
      else NewPoints(rest, ip)
  }

  /** The score carried over the last lift: zero when the database took the reset. */
  function Carried(base: map<string, int>, log: seq<Event>, ip: string): int {
    if log == [] then At(base, ip, 0)
    else
      var rest, e := log[..|log| - 1], log[|log| - 1];
      if e.Lifted? && e.ip == ip then (if e.reset then 0 else ScoreOf(base, rest, ip)) else Carried(base, rest, ip)
  }

  lemma {:induction false} ScoreSplits(base: map<string, int>, log: seq<Event>, ip: string)
    ensures ScoreOf(base, log, ip) == Carried(base, log, ip) + NewPoints(log, ip)
  {
    if log == [] {
    } else {
      ScoreSplits(base, log[..|log| - 1], ip);
    }
  }

  /** The address's last ban was lifted with its score set back. */
  predicate LastResetTaken(log: seq<Event>, ip: string) {
    log != []
    && var e := log[|log| - 1];
       if e.Lifted? && e.ip == ip then e.reset else LastResetTaken(log[..|log| - 1], ip)
  }

  lemma {:induction false} NothingCarried(base: map<string, int>, log: seq<Event>, ip: string)
    requires LastResetTaken(log, ip)
    ensures Carried(base, log, ip) == 0
  {
    if log[|log| - 1].Lifted? && log[|log| - 1].ip == ip {
    } else {
      NothingCarried(base, log[..|log| - 1], ip);
    }
  }

  /** Whether maintenance removed the address's rule since it last listed the expired bans. */
  predicate FreedSinceListing(log: seq<Event>, ip: string) {
    log != [] && log[|log| - 1] != Listed
    && (log[|log| - 1] == Freed(ip) || FreedSinceListing(log[..|log| - 1], ip))
  }

  lemma {:induction false} FreedWhere(log: seq<Event>, i: nat, ip: string)
    requires i <= |log| && FreedSinceListing(log[..i], ip)
    ensures exists j :: 0 <= j < i && log[j] == Freed(ip) && Listed !in log[j..i]
  {
    assert log[..i][..i - 1] == log[..i - 1];
    if log[i - 1] == Freed(ip) {
      assert log[i - 1..i] == [log[i - 1]];
    } else {
      FreedWhere(log, i - 1, ip);
      var j :| 0 <= j < i - 1 && log[j] == Freed(ip) && Listed !in log[j..i - 1];
      assert log[j..i] == log[j..i - 1] + [log[i - 1]];
    }
  }

  /** After the first n events of the history the address had just been scored, and had this score. */
  predicate ScoredAt(base: map<string, int>, log: seq<Event>, n: nat, ip: string, score: int) {
    0 < n <= |log| && log[n - 1].Scored? && log[n - 1].ip == ip && ScoreOf(base, log[..n], ip) == score
  }

  /** It had at least this score. */
  predicate ReachedAt(base: map<string, int>, log: seq<Event>, n: nat, ip: string, score: int) {
    0 < n <= |log| && log[n - 1].Scored? && log[n - 1].ip == ip && ScoreOf(base, log[..n], ip) >= score
  }

  // ---- the machine: its steps are single database and firewall calls, in any interleaving; a refused call changes nothing

  /** The automatic ban's settings. */
  datatype AutoBan = AutoBan(enabled: bool, threshold: int, duration: int)

  /** A connection that was scored and is about to be judged. */
  datatype Decision = Decision(ip: string, score: int, scoredAt: nat)

  /** Where maintenance is: before a ban, past its rule, past its row. */
  datatype Upkeep = Waiting(left: seq<string>) | RuleGone(ip: string, left: seq<string>) | RowGone(ip: string, left: seq<string>)

  datatype State = State(
    bans: map<string, Ban>,           // the banned_ips table
    scores: map<string, int>,         // the ip_scores table
    rules: set<string>,               // the firewall's DROP rules
    hands: multiset<string>,          // addresses some operation is about to hand to the firewall
    decisions: multiset<Decision>,
    upkeep: Upkeep,
    log: seq<Event>)

  datatype Step =
    | Store(ip: string, row: Ban)                 // BanIP, up to the database
    | Meet(ip: string, now: int)                  // a banned address is met; its rule is to be put back
    | Score(ip: string, points: int)
    | Decide(d: Decision, ab: AutoBan, now: int, known: bool)   // known: whether an active ban would be seen
    | Hand(ip: string, ok: bool)                  // firewall.Ban
    | Remove(ip: string)                            // UnbanIP's three calls
    | Reset(ip: string, ok: bool)
    | Free(ip: string)
    | List(now: int, order: seq<string>)          // maintenance's
    | Lift(ok: bool)
    | Delete(at: int, ok: bool)
    | Clear(ok: bool)

  /** What an event makes of the scores. */
  function ScoresAfter(scores: map<string, int>, e: Event): map<string, int> {
    if e.Scored? then scores[e.ip := At(scores, e.ip, 0) + e.points]
    else if e.Lifted? && e.reset && e.ip in scores then scores[e.ip := 0]
    else scores
  }

  function Logged(s: State, e: Event): State {
    s.(scores := ScoresAfter(s.scores, e), log := s.log + [e])
  }

  predicate BanDue(whitelisted: string -> bool, s: State, d: Decision, ab: AutoBan, now: int, known: bool) {
    ab.enabled && d.score >= ab.threshold && !whitelisted(d.ip) && !(known && IsBanned(s.bans, d.ip, now))
  }

  /** The order lists exactly the expired bans, each once. */
  predicate ListsExpired(order: seq<string>, bans: map<string, Ban>, now: int) {
    && (forall ip :: ip in order ==> Expired(bans, ip, now))
    && (forall ip :: ip in bans && Expired(bans, ip, now) ==> ip in order)
    && forall i, j :: 0 <= i < j < |order| ==> order[i] != order[j]
  }

  function Next(whitelisted: string -> bool, s: State, step: Step): State {
    match step
    case Store(ip, row) =>
      if whitelisted(ip) then s else s.(bans := s.bans[ip := row], hands := s.hands + multiset{ip})
    case Meet(ip, now) =>
      if whitelisted(ip) || !IsBanned(s.bans, ip, now) then s else s.(hands := s.hands + multiset{ip})
    case Score(ip, points) =>
      var t := Logged(s, Scored(ip, points));
      t.(decisions := t.decisions + multiset{Decision(ip, t.scores[ip], |t.log|)})
    case Decide(d, ab, now, known) =>
      if s.decisions[d] == 0 then s
      else
        var t := s.(decisions := s.decisions - multiset{d});
        if BanDue(whitelisted, s, d, ab, now, known) then Logged(t, AutoBanned(d.ip, ab.threshold, d.scoredAt)) else t
    case Hand(ip, ok) =>
      if s.hands[ip] == 0 then s
      else Logged(s.(hands := s.hands - multiset{ip}, rules := if ok then s.rules + {ip} else s.rules), Handed(ip))
    case Remove(ip) => s.(bans := s.bans - {ip})
    case Reset(ip, ok) => Logged(s, Lifted(ip, ok))
    case Free(ip) => s.(rules := s.rules - {ip})
    case List(now, order) =>
      if s.upkeep == Waiting([]) && ListsExpired(order, s.bans, now) then Logged(s.(upkeep := Waiting(order)), Listed) else s
    case Lift(ok) =>
      if !s.upkeep.Waiting? || s.upkeep.left == [] then s
      else
        var ip, left := s.upkeep.left[0], s.upkeep.left[1..];
        if ok then Logged(s.(rules := s.rules - {ip}, upkeep := RuleGone(ip, left)), Freed(ip)) else s.(upkeep := Waiting(left))
    case Delete(at, ok) =>
      if !s.upkeep.RuleGone? then s
      else
        var ip, left := s.upkeep.ip, s.upkeep.left;
        if !ok then s.(upkeep := Waiting(left))
        else if !Expired(s.bans, ip, at) then s.(upkeep := RowGone(ip, left))
        else Logged(s.(bans := s.bans - {ip}, upkeep := RowGone(ip, left)), Released(ip, s.bans[ip], at))
    case Clear(ok) =>
      if !s.upkeep.RowGone? then s else Logged(s.(upkeep := Waiting(s.upkeep.left)), Lifted(s.upkeep.ip, ok))
  }

  function Run(whitelisted: string -> bool, s: State, steps: seq<Step>): State {
    if steps == [] then s
    else Next(whitelisted, Run(whitelisted, s, steps[..|steps| - 1]), steps[|steps| - 1])
  }

  /** The program starts on the tables and rules an earlier run left. */
  function Start(bans: map<string, Ban>, scores: map<string, int>, rules: set<string>): State {
    State(bans, scores, rules, multiset{}, multiset{}, Waiting([]), [])
  }

  lemma RunPush(whitelisted: string -> bool, s: State, steps: seq<Step>, step: Step)
    ensures Run(whitelisted, s, steps + [step]) == Next(whitelisted, Run(whitelisted, s, steps), step)
  {
    assert (steps + [step])[..|steps|] == steps;
  }

  /** The states a run goes through. */
  ghost predicate IsTrace(whitelisted: string -> bool, steps: seq<Step>, states: seq<State>) {
    && |states| == |steps| + 1
    && forall i {:trigger steps[i]} :: 0 <= i < |steps| ==> states[i + 1] == Next(whitelisted, states[i], steps[i])
  }

  lemma {:induction false} TraceIsRun(whitelisted: string -> bool, steps: seq<Step>, states: seq<State>)
    requires IsTrace(whitelisted, steps, states)
    ensures Run(whitelisted, states[0], steps) == states[|steps|]
  {
    if steps == [] {
    } else {
      var n := |steps| - 1;
      assert states[n + 1] == Next(whitelisted, states[n], steps[n]);
      TraceIsRun(whitelisted, steps[..n], states[..n + 1]);
    }
  }

  lemma TracePush(whitelisted: string -> bool, steps: seq<Step>, states: seq<State>, step: Step, s: State)
    requires IsTrace(whitelisted, steps, states) && s == Next(whitelisted, states[|steps|], step)
    ensures IsTrace(whitelisted, steps + [step], states + [s])
  {
    var steps' := steps + [step];
    forall i | 0 <= i < |steps'| ensures (states + [s])[i + 1] == Next(whitelisted, (states + [s])[i], steps'[i]) {
      if i < |steps| { assert steps'[i] == steps[i]; }
    }
  }

  // ---- what every run keeps

  /** What may happen after a history. */
  predicate Proper(base: map<string, int>, past: seq<Event>, e: Event, whitelisted: string -> bool) {
    match e
    case Handed(ip) => !whitelisted(ip)
    case Released(ip, row, at) => !Active(row, at) && FreedSinceListing(past, ip)
    case AutoBanned(ip, threshold, scoredAt) => !whitelisted(ip) && ReachedAt(base, past, scoredAt, ip, threshold)
    case _ => true
  }

  predicate AllProper(base: map<string, int>, log: seq<Event>, whitelisted: string -> bool) {
    log == []
    || (AllProper(base, log[..|log| - 1], whitelisted) && Proper(base, log[..|log| - 1], log[|log| - 1], whitelisted))
  }

  lemma {:induction false} ProperAt(base: map<string, int>, log: seq<Event>, i: nat, whitelisted: string -> bool)
    requires AllProper(base, log, whitelisted) && i < |log|
    ensures Proper(base, log[..i], log[i], whitelisted)
  {
    if i == |log| - 1 {
    } else {
      ProperAt(base, log[..|log| - 1], i, whitelisted);
      assert log[..|log| - 1][..i] == log[..i];
    }
  }

  ghost predicate Tallied(base: map<string, int>, scores: map<string, int>, log: seq<Event>) {
    forall ip :: At(scores, ip, 0) == ScoreOf(base, log, ip)
  }

  ghost predicate Lawful(whitelisted: string -> bool, base: map<string, int>, s: State) {
    && AllProper(base, s.log, whitelisted)
    && Tallied(base, s.scores, s.log)
    && (forall ip :: ip in s.hands ==> !whitelisted(ip))
    && (forall d :: d in s.decisions ==> ScoredAt(base, s.log, d.scoredAt, d.ip, d.score))
    && (s.upkeep.RuleGone? ==> FreedSinceListing(s.log, s.upkeep.ip))
  }

  lemma ScoredStays(base: map<string, int>, log: seq<Event>, e: Event, n: nat, ip: string, score: int)
    requires ScoredAt(base, log, n, ip, score)
    ensures ScoredAt(base, log + [e], n, ip, score)
  {
    assert (log + [e])[..n] == log[..n];
  }

  /** A proper event added to a lawful state; only a listing ends what was freed since the last one. */
  lemma LoggedIsLawful(whitelisted: string -> bool, base: map<string, int>, s: State, e: Event)
    requires Lawful(whitelisted, base, s.(upkeep := Waiting([]))) && Proper(base, s.log, e, whitelisted)
    requires s.upkeep.RuleGone? ==> e == Freed(s.upkeep.ip) || (e != Listed && FreedSinceListing(s.log, s.upkeep.ip))
    ensures Lawful(whitelisted, base, Logged(s, e))
  {
    var t := Logged(s, e);
    assert t.log[..|s.log|] == s.log;
    forall ip ensures At(t.scores, ip, 0) == ScoreOf(base, t.log, ip) {
      assert At(s.scores, ip, 0) == ScoreOf(base, s.log, ip);
    }
    forall d | d in t.decisions ensures ScoredAt(base, t.log, d.scoredAt, d.ip, d.score) {
      assert d in s.decisions;
      ScoredStays(base, s.log, e, d.scoredAt, d.ip, d.score);
    }
  }

  lemma ScoreIsLawful(whitelisted: string -> bool, base: map<string, int>, s: State, ip: string, points: int)
    requires Lawful(whitelisted, base, s)
    ensures Lawful(whitelisted, base, Next(whitelisted, s, Score(ip, points)))
  {
    var t := Logged(s, Scored(ip, points));
    LoggedIsLawful(whitelisted, base, s, Scored(ip, points));
    assert t.log[..|t.log|] == t.log && At(t.scores, ip, 0) == ScoreOf(base, t.log, ip);
  }

  lemma DecideIsLawful(whitelisted: string -> bool, base: map<string, int>, s: State, step: Step)
    requires Lawful(whitelisted, base, s) && step.Decide?
    ensures Lawful(whitelisted, base, Next(whitelisted, s, step))
  {
    var d := step.d;
    if s.decisions[d] != 0 && BanDue(whitelisted, s, d, step.ab, step.now, step.known) {
      assert ScoredAt(base, s.log, d.scoredAt, d.ip, d.score);
      LoggedIsLawful(whitelisted, base, s.(decisions := s.decisions - multiset{d}), AutoBanned(d.ip, step.ab.threshold, d.scoredAt));
    }
  }

  lemma HandIsLawful(whitelisted: string -> bool, base: map<string, int>, s: State, ip: string, ok: bool)
    requires Lawful(whitelisted, base, s)
    ensures Lawful(whitelisted, base, Next(whitelisted, s, Hand(ip, ok)))
  {
    if s.hands[ip] != 0 {
      assert ip in s.hands;
      LoggedIsLawful(whitelisted, base, s.(hands := s.hands - multiset{ip}, rules := if ok then s.rules + {ip} else s.rules), Handed(ip));
    }
  }

  lemma LiftIsLawful(whitelisted: string -> bool, base: map<string, int>, s: State, ok: bool)
    requires Lawful(whitelisted, base, s)
    ensures Lawful(whitelisted, base, Next(whitelisted, s, Lift(ok)))
  {
    if s.upkeep.Waiting? && s.upkeep.left != [] {
      var ip, left := s.upkeep.left[0], s.upkeep.left[1..];
      LoggedIsLawful(whitelisted, base, s.(rules := s.rules - {ip}, upkeep := RuleGone(ip, left)), Freed(ip));
    }
  }

  lemma DeleteIsLawful(whitelisted: string -> bool, base: map<string, int>, s: State, at: int, ok: bool)
    requires Lawful(whitelisted, base, s)
    ensures Lawful(whitelisted, base, Next(whitelisted, s, Delete(at, ok)))
  {
    if s.upkeep.RuleGone? && Expired(s.bans, s.upkeep.ip, at) {
      var ip, left := s.upkeep.ip, s.upkeep.left;
      LoggedIsLawful(whitelisted, base, s.(bans := s.bans - {ip}, upkeep := RowGone(ip, left)), Released(ip, s.bans[ip], at));
    }
  }

  lemma ListIsLawful(whitelisted: string -> bool, base: map<string, int>, s: State, now: int, order: seq<string>)
    requires Lawful(whitelisted, base, s)
    ensures Lawful(whitelisted, base, Next(whitelisted, s, List(now, order)))
  {
    if s.upkeep == Waiting([]) { LoggedIsLawful(whitelisted, base, s.(upkeep := Waiting(order)), Listed); }
  }

  lemma ClearIsLawful(whitelisted: string -> bool, base: map<string, int>, s: State, ok: bool)
    requires Lawful(whitelisted, base, s)
    ensures Lawful(whitelisted, base, Next(whitelisted, s, Clear(ok)))
  {
    if s.upkeep.RowGone? { LoggedIsLawful(whitelisted, base, s.(upkeep := Waiting(s.upkeep.left)), Lifted(s.upkeep.ip, ok)); }
  }

  lemma StepKeepsLawful(whitelisted: string -> bool, base: map<string, int>, s: State, step: Step)
    requires Lawful(whitelisted, base, s)
    ensures Lawful(whitelisted, base, Next(whitelisted, s, step))
  {
    match step
    case Score(ip, points) => ScoreIsLawful(whitelisted, base, s, ip, points);
    case Decide(_, _, _, _) => DecideIsLawful(whitelisted, base, s, step);
    case Hand(ip, ok) => HandIsLawful(whitelisted, base, s, ip, ok);
    case Reset(ip, ok) => LoggedIsLawful(whitelisted, base, s, Lifted(ip, ok));
    case Store(_, _) =>
    case Meet(_, _) =>
    case Remove(_) =>
    case Free(_) =>
    case List(now, order) => ListIsLawful(whitelisted, base, s, now, order);
    case Lift(ok) => LiftIsLawful(whitelisted, base, s, ok);
    case Delete(at, ok) => DeleteIsLawful(whitelisted, base, s, at, ok);
    case Clear(ok) => ClearIsLawful(whitelisted, base, s, ok);
  }

  lemma {:induction false} EveryRunLawful(whitelisted: string -> bool, bans: map<string, Ban>, scores: map<string, int>, rules: set<string>, steps: seq<Step>)
    ensures Lawful(whitelisted, scores, Run(whitelisted, Start(bans, scores, rules), steps))
  {
    if steps == [] {
    } else {
      var n := |steps| - 1;
      EveryRunLawful(whitelisted, bans, scores, rules, steps[..n]);
      StepKeepsLawful(whitelisted, scores, Run(whitelisted, Start(bans, scores, rules), steps[..n]), steps[n]);
    }
  }

  /** A rule comes only by a hand-over that the firewall takes. */
  lemma RuleComesIff(whitelisted: string -> bool, s: State, step: Step, ip: string)
    requires ip !in s.rules
    ensures ip in Next(whitelisted, s, step).rules <==> step == Hand(ip, true) && s.hands[ip] > 0
  {
  }

  lemma {:induction false} NoNewRule(whitelisted: string -> bool, bans: map<string, Ban>, scores: map<string, int>, rules: set<string>, steps: seq<Step>, ip: string)
    requires whitelisted(ip)
    ensures ip in Run(whitelisted, Start(bans, scores, rules), steps).rules ==> ip in rules
  {
    if steps == [] {
    } else {
      var n := |steps| - 1;
      var s := Run(whitelisted, Start(bans, scores, rules), steps[..n]);
      NoNewRule(whitelisted, bans, scores, rules, steps[..n], ip);
      EveryRunLawful(whitelisted, bans, scores, rules, steps[..n]);
      assert ip !in s.hands;
      if ip !in s.rules { RuleComesIff(whitelisted, s, steps[n], ip); }
    }
  }

  /** In every run, however calls interleave: a whitelisted address is never handed to the firewall and gets no rule. */
  lemma {:induction false} WhitelistedNeverHanded(whitelisted: string -> bool, bans: map<string, Ban>, scores: map<string, int>, rules: set<string>,
      steps: seq<Step>, ip: string)
    requires whitelisted(ip)
    ensures var s := Run(whitelisted, Start(bans, scores, rules), steps); Handed(ip) !in s.log && (ip in s.rules ==> ip in rules)
  {
    var s := Run(whitelisted, Start(bans, scores, rules), steps);
    EveryRunLawful(whitelisted, bans, scores, rules, steps);
    NoNewRule(whitelisted, bans, scores, rules, steps, ip);
    if i :| 0 <= i < |s.log| && s.log[i] == Handed(ip) {
      ProperAt(scores, s.log, i, whitelisted);
    }
  }

  /** In every run: a row maintenance deletes is expired at that moment, and its rule was removed since the bans were listed. */
  lemma {:induction false} ReleasedOnlyExpired(whitelisted: string -> bool, bans: map<string, Ban>, scores: map<string, int>, rules: set<string>,
      steps: seq<Step>, i: nat)
    ensures var log := Run(whitelisted, Start(bans, scores, rules), steps).log;
      i < |log| && log[i].Released? ==>
        !Active(log[i].row, log[i].at) && exists j :: 0 <= j < i && log[j] == Freed(log[i].ip) && Listed !in log[j..i]
  {
    var log := Run(whitelisted, Start(bans, scores, rules), steps).log;
    EveryRunLawful(whitelisted, bans, scores, rules, steps);
    if i < |log| && log[i].Released? {
      ProperAt(scores, log, i, whitelisted);
      FreedWhere(log, i, log[i].ip);
    }
  }

  /**
   In every run: an automatic ban answers a score that reached the threshold
   when it was recorded, in new points since the last lift and what was
   carried over it; in new points alone when the last reset was taken.
   */
  lemma {:induction false} AutoBanNeedsPoints(whitelisted: string -> bool, bans: map<string, Ban>, scores: map<string, int>, rules: set<string>,
      steps: seq<Step>, i: nat)
    ensures var log := Run(whitelisted, Start(bans, scores, rules), steps).log;
      i < |log| && log[i].AutoBanned? ==>
        var ip, n := log[i].ip, log[i].scoredAt;
        && 0 < n <= i && log[n - 1].Scored? && log[n - 1].ip == ip
        && Carried(scores, log[..n], ip) + NewPoints(log[..n], ip) >= log[i].threshold
        && (LastResetTaken(log[..n], ip) ==> NewPoints(log[..n], ip) >= log[i].threshold)
  {
    var log := Run(whitelisted, Start(bans, scores, rules), steps).log;
    EveryRunLawful(whitelisted, bans, scores, rules, steps);
    if i < |log| && log[i].AutoBanned? {
      ProperAt(scores, log, i, whitelisted);
      var ip, n := log[i].ip, log[i].scoredAt;
      assert log[..i][..n] == log[..n];
      ScoreSplits(scores, log[..n], ip);
      if LastResetTaken(log[..n], ip) { NothingCarried(scores, log[..n], ip); }
    }
  }

  /** The points an automatic ban goes by: new ones since the last lift, and what was carried over it. */
  function PointsAt(base: map<string, int>, log: seq<Event>, n: nat, ip: string): int
    requires n <= |log|
  {
    Carried(base, log[..n], ip) + NewPoints(log[..n], ip)
  }

  /**
   In every run, of every pending judgement: it bans exactly when automatic
   bans are on, the address is not whitelisted, no active ban is seen, and the
   points at its scoring reach the threshold.
   */
  lemma {:induction false} AutoBanIff(whitelisted: string -> bool, bans: map<string, Ban>, scores: map<string, int>, rules: set<string>,
      steps: seq<Step>, d: Decision, ab: AutoBan, now: int, known: bool)
    ensures var s := Run(whitelisted, Start(bans, scores, rules), steps);
      d in s.decisions ==>
      && d.scoredAt <= |s.log|
      && (Next(whitelisted, s, Decide(d, ab, now, known)).log == s.log + [AutoBanned(d.ip, ab.threshold, d.scoredAt)] <==>
            ab.enabled && !whitelisted(d.ip) && !(known && IsBanned(s.bans, d.ip, now))
            && PointsAt(scores, s.log, d.scoredAt, d.ip) >= ab.threshold)
  {
    var s := Run(whitelisted, Start(bans, scores, rules), steps);
    EveryRunLawful(whitelisted, bans, scores, rules, steps);
    if d in s.decisions {
      assert ScoredAt(scores, s.log, d.scoredAt, d.ip, d.score);
      ScoreSplits(scores, s.log[..d.scoredAt], d.ip);
      assert s.log != s.log + [AutoBanned(d.ip, ab.threshold, d.scoredAt)];
    }
  }

  /** Fewer new points than the threshold ban exactly when the score carried over the last lift makes up the difference. */
  lemma {:induction false} FewerPointsIff(whitelisted: string -> bool, bans: map<string, Ban>, scores: map<string, int>, rules: set<string>,
      steps: seq<Step>, d: Decision, ab: AutoBan, now: int)
    requires ab.enabled && !whitelisted(d.ip)
    ensures var s := Run(whitelisted, Start(bans, scores, rules), steps);
      d in s.decisions ==>
      && d.scoredAt <= |s.log|
      && (NewPoints(s.log[..d.scoredAt], d.ip) < ab.threshold && BanDue(whitelisted, s, d, ab, now, false) <==>
            0 < ab.threshold - NewPoints(s.log[..d.scoredAt], d.ip) <= Carried(scores, s.log[..d.scoredAt], d.ip))
      && (LastResetTaken(s.log[..d.scoredAt], d.ip) ==> Carried(scores, s.log[..d.scoredAt], d.ip) == 0)
  {
    var s := Run(whitelisted, Start(bans, scores, rules), steps);
    EveryRunLawful(whitelisted, bans, scores, rules, steps);
    if d in s.decisions {
      assert ScoredAt(scores, s.log, d.scoredAt, d.ip, d.score);
      ScoreSplits(scores, s.log[..d.scoredAt], d.ip);
      if LastResetTaken(s.log[..d.scoredAt], d.ip) { NothingCarried(scores, s.log[..d.scoredAt], d.ip); }
    }
  }

  /** A row leaves the table only by an unban, or by maintenance when it is expired at that moment. */
  lemma RowLeavesIff(whitelisted: string -> bool, s: State, step: Step, ip: string)
    requires ip in s.bans
    ensures ip !in Next(whitelisted, s, step).bans <==>
      step == Remove(ip) || (step.Delete? && step.ok && s.upkeep.RuleGone? && s.upkeep.ip == ip && Expired(s.bans, ip, step.at))
  {
  }

  // ---- operations that run to their end

  /** A banned address that is met and handed over has its rule again. */
  lemma MeetPutsBack(whitelisted: string -> bool, s: State, ip: string, now: int)
    requires IsBanned(s.bans, ip, now) && !whitelisted(ip)
    ensures var t := Run(whitelisted, s, [Meet(ip, now), Hand(ip, true)]);
      ip in t.rules && t.bans == s.bans && t.hands == s.hands
  {
    TwoSteps(whitelisted, s, Meet(ip, now), Hand(ip, true));
    assert Next(whitelisted, s, Meet(ip, now)).hands[ip] > 0;
    assert s.hands + multiset{ip} - multiset{ip} == s.hands;
  }

  /** A scored event is up for judgement, with the score it led to. */
  lemma ScoreIsJudged(whitelisted: string -> bool, s: State, ip: string, points: int)
    ensures var t := Next(whitelisted, s, Score(ip, points));
      && t.scores == s.scores[ip := At(s.scores, ip, 0) + points]
      && Decision(ip, At(s.scores, ip, 0) + points, |s.log| + 1) in t.decisions
      && t.bans == s.bans && t.rules == s.rules
  {
  }

  /** An unban whose calls are taken leaves the address without row, score and rule. */
  lemma UnbanLifts(whitelisted: string -> bool, s: State, ip: string)
    ensures var t := Next(whitelisted, Run(whitelisted, s, [Remove(ip), Reset(ip, true)]), Free(ip));
      ip !in t.bans && ip !in t.rules && At(t.scores, ip, 0) == 0
  {
    TwoSteps(whitelisted, s, Remove(ip), Reset(ip, true));
  }

  lemma DeleteTakes(whitelisted: string -> bool, s: State, ip: string, left: seq<string>, at: int)
    requires s.upkeep == RuleGone(ip, left)
    ensures var t := Next(whitelisted, s, Delete(at, true));
      && t.upkeep == RowGone(ip, left) && t.rules == s.rules
      && t.bans == if Expired(s.bans, ip, at) then s.bans - {ip} else s.bans
  {
  }

  /** The score is forgotten, so that FewerPointsIff asks for the whole threshold from here on. */
  lemma ClearTakes(whitelisted: string -> bool, s: State, ip: string, left: seq<string>)
    requires s.upkeep == RowGone(ip, left)
    ensures var t := Next(whitelisted, s, Clear(true));
      && t.upkeep == Waiting(left) && t.rules == s.rules && t.bans == s.bans
      && At(t.scores, ip, 0) == 0 && NewPoints(t.log, ip) == 0 && LastResetTaken(t.log, ip)
  {
    assert (s.log + [Lifted(ip, true)])[..|s.log|] == s.log;
  }

  /** A release whose calls are taken leaves an expired ban without row, score and rule, and goes on to the next. */
  lemma ReleaseLifts(whitelisted: string -> bool, s: State, ip: string, left: seq<string>, at: int)
    requires s.upkeep == Waiting([ip] + left)
    ensures var t := Next(whitelisted, Run(whitelisted, s, [Lift(true), Delete(at, true)]), Clear(true));
      && t.upkeep == Waiting(left) && ip !in t.rules
      && At(t.scores, ip, 0) == 0 && NewPoints(t.log, ip) == 0 && LastResetTaken(t.log, ip)
      && t.bans == if Expired(s.bans, ip, at) then s.bans - {ip} else s.bans
  {
    TwoSteps(whitelisted, s, Lift(true), Delete(at, true));
    LiftStep(whitelisted, s, true, ip);
    var lifted := Next(whitelisted, s, Lift(true));
    assert lifted.upkeep == RuleGone(ip, left);
    DeleteTakes(whitelisted, lifted, ip, left, at);
    ClearTakes(whitelisted, Next(whitelisted, lifted, Delete(at, true)), ip, left);
  }

  /** One that a refused call ends goes on to the next as well, with the ban as it was. */
  lemma RefusedReleaseGoesOn(whitelisted: string -> bool, s: State, ip: string, left: seq<string>, at: int)
    requires s.upkeep == Waiting([ip] + left)
    ensures var t := Next(whitelisted, s, Lift(false)); t.upkeep == Waiting(left) && t.bans == s.bans && t.rules == s.rules && t.scores == s.scores
    ensures var t := Run(whitelisted, s, [Lift(true), Delete(at, false)]); t.upkeep == Waiting(left) && t.bans == s.bans && t.scores == s.scores
  {
    TwoSteps(whitelisted, s, Lift(true), Delete(at, false));
    assert Next(whitelisted, s, Lift(true)).upkeep == RuleGone(ip, left);
  }

  // ---- rules without rows, rows without rules

  function Stray(s: State): set<string> {
    s.rules - s.bans.Keys
  }

  /** Exactly the three ways a rule comes to be there without a row. */
  lemma StrayIff(whitelisted: string -> bool, s: State, step: Step, ip: string)
    requires ip !in Stray(s)
    ensures ip in Stray(Next(whitelisted, s, step)) <==>
      || (step == Remove(ip) && ip in s.rules)
      || (step == Hand(ip, true) && s.hands[ip] > 0 && ip !in s.bans)
      || (step.Delete? && step.ok && s.upkeep.RuleGone? && s.upkeep.ip == ip && Expired(s.bans, ip, step.at) && ip in s.rules)
  {
  }

  /** Steps of everyone but maintenance, without an unban of the address. */
  predicate OthersOnly(steps: seq<Step>, ip: string) {
    forall i :: 0 <= i < |steps| ==>
      !(steps[i].List? || steps[i].Lift? || steps[i].Delete? || steps[i].Clear?) && steps[i] != Remove(ip) && steps[i] != Free(ip)
  }

  /** Some operation got the address's rule in. */
  ghost predicate RuleSet(whitelisted: string -> bool, s: State, steps: seq<Step>, ip: string) {
    exists i :: 0 <= i < |steps| && SetsRule(whitelisted, s, steps, i, ip)
  }

  predicate SetsRule(whitelisted: string -> bool, s: State, steps: seq<Step>, i: int, ip: string) {
    0 <= i < |steps| && steps[i] == Hand(ip, true) && Run(whitelisted, s, steps[..i]).hands[ip] > 0
  }

  lemma OtherStepKeeps(whitelisted: string -> bool, s: State, step: Step, ip: string)
    requires !(step.List? || step.Lift? || step.Delete? || step.Clear?) && step != Remove(ip) && step != Free(ip)
    ensures ip in Next(whitelisted, s, step).rules <==> ip in s.rules || (step == Hand(ip, true) && s.hands[ip] > 0)
    ensures ip in s.bans ==> ip in Next(whitelisted, s, step).bans
    ensures Next(whitelisted, s, step).upkeep == s.upkeep
  {
  }

  lemma RuleSetPush(whitelisted: string -> bool, s: State, steps: seq<Step>, ip: string)
    requires steps != []
    ensures var n := |steps| - 1;
      RuleSet(whitelisted, s, steps, ip) <==> RuleSet(whitelisted, s, steps[..n], ip) || SetsRule(whitelisted, s, steps, n, ip)
  {
    var n := |steps| - 1;
    var init := steps[..n];
    forall i | 0 <= i < n ensures SetsRule(whitelisted, s, steps, i, ip) <==> SetsRule(whitelisted, s, init, i, ip) {
      assert steps[..i] == init[..i];
    }
    if i :| 0 <= i < n && SetsRule(whitelisted, s, init, i, ip) { assert SetsRule(whitelisted, s, steps, i, ip); }
    if i :| 0 <= i < |steps| && SetsRule(whitelisted, s, steps, i, ip) { assert i == n || SetsRule(whitelisted, s, init, i, ip); }
  }

  lemma {:induction false} OthersKeep(whitelisted: string -> bool, s: State, steps: seq<Step>, ip: string)
    requires OthersOnly(steps, ip)
    ensures ip in Run(whitelisted, s, steps).rules <==> ip in s.rules || RuleSet(whitelisted, s, steps, ip)
    ensures ip in s.bans ==> ip in Run(whitelisted, s, steps).bans
    ensures Run(whitelisted, s, steps).upkeep == s.upkeep
  {
    if steps == [] {
    } else {
      var n := |steps| - 1;
      OthersKeep(whitelisted, s, steps[..n], ip);
      OtherStepKeeps(whitelisted, Run(whitelisted, s, steps[..n]), steps[n], ip);
      RuleSetPush(whitelisted, s, steps, ip);
    }
  }

  lemma LiftStep(whitelisted: string -> bool, s: State, ok: bool, ip: string)
    requires s.upkeep.Waiting? && s.upkeep.left != [] && s.upkeep.left[0] == ip
    ensures var t := Next(whitelisted, s, Lift(ok));
      t.bans == s.bans && (ip in t.rules <==> !ok && ip in s.rules)
  {
  }

  lemma DeleteStep(whitelisted: string -> bool, s: State, at: int, ok: bool, ip: string)
    requires s.upkeep.RuleGone? ==> s.upkeep.ip == ip
    ensures Next(whitelisted, s, Delete(at, ok)).rules == s.rules
    ensures IsBanned(s.bans, ip, at) ==> Next(whitelisted, s, Delete(at, ok)).bans == s.bans
  {
  }

  /** What others do before and after maintenance removes an address's rule. */
  function AroundLift(whitelisted: string -> bool, s: State, before: seq<Step>, ok: bool, after: seq<Step>): State {
    Run(whitelisted, Next(whitelisted, Run(whitelisted, s, before), Lift(ok)), after)
  }

  lemma LiftLeaves(whitelisted: string -> bool, s: State, ok: bool, ip: string)
    requires s.upkeep.Waiting? && s.upkeep.left != [] && s.upkeep.left[0] == ip
    ensures Next(whitelisted, s, Lift(ok)).upkeep.RuleGone? ==> Next(whitelisted, s, Lift(ok)).upkeep.ip == ip
  {
  }

  /**
   A ban renewed while maintenance releases the old one keeps its row whenever
   it is active when the row would be deleted; its rule is there exactly when
   it was set after the removal, or the removal was refused and it was there
   or set before.
   */
  lemma {:induction false} RenewalIff(whitelisted: string -> bool, s: State, before: seq<Step>, ok: bool, after: seq<Step>, ip: string, at: int, dbOk: bool)
    requires s.upkeep.Waiting? && s.upkeep.left != [] && s.upkeep.left[0] == ip
    requires OthersOnly(before, ip) && OthersOnly(after, ip)
    ensures var mid, end := Next(whitelisted, Run(whitelisted, s, before), Lift(ok)), AroundLift(whitelisted, s, before, ok, after);
      && (ip in end.rules <==>
            RuleSet(whitelisted, mid, after, ip) || (!ok && (ip in s.rules || RuleSet(whitelisted, s, before, ip))))
      && (IsBanned(end.bans, ip, at) ==> Next(whitelisted, end, Delete(at, dbOk)).bans == end.bans)
      && Next(whitelisted, end, Delete(at, dbOk)).rules == end.rules
  {
    var met := Run(whitelisted, s, before);
    OthersKeep(whitelisted, s, before, ip);
    LiftStep(whitelisted, met, ok, ip);
    LiftLeaves(whitelisted, met, ok, ip);
    var mid := Next(whitelisted, met, Lift(ok));
    OthersKeep(whitelisted, mid, after, ip);
    DeleteStep(whitelisted, Run(whitelisted, mid, after), at, dbOk, ip);
  }

  lemma TwoSteps(whitelisted: string -> bool, s: State, a: Step, b: Step)
    ensures Run(whitelisted, s, [a, b]) == Next(whitelisted, Next(whitelisted, s, a), b)
  {
    RunPush(whitelisted, s, [], a);
    RunPush(whitelisted, s, [a], b);
    assert [] + [a] == [a] && [a] + [b] == [a, b];
  }

  lemma RenewedBefore(whitelisted: string -> bool, s: State, ip: string, row: Ban)
    requires !whitelisted(ip)
    ensures var t := Run(whitelisted, s, [Store(ip, row), Hand(ip, true)]);
      t.bans == s.bans[ip := row] && ip in t.rules && t.upkeep == s.upkeep
  {
    TwoSteps(whitelisted, s, Store(ip, row), Hand(ip, true));
    var stored := Next(whitelisted, s, Store(ip, row));
    assert stored.bans == s.bans[ip := row] && stored.hands[ip] > 0;
  }

  lemma ListStep(whitelisted: string -> bool, s: State, now: int, order: seq<string>)
    requires s.upkeep == Waiting([]) && ListsExpired(order, s.bans, now)
    ensures var t := Next(whitelisted, s, List(now, order)); t.bans == s.bans && t.upkeep == Waiting(order)
  {
  }

  /** A ban renewed between the listing and the removal of its old rule stays in the table without a rule. */
  lemma RenewalLosesRuleExample(ip: string)
    ensures var nobody := (a: string) => false;
      var listed := Next(nobody, Start(map[ip := Until(10)], map[], {ip}), List(20, [ip]));
      var end := AroundLift(nobody, listed, [Store(ip, Permanent), Hand(ip, true)], true, []);
      end.bans == map[ip := Permanent] && ip !in end.rules && Next(nobody, end, Delete(21, true)).bans == end.bans
  {
    var nobody := (a: string) => false;
    var start := Start(map[ip := Until(10)], map[], {ip});
    assert ListsExpired([ip], start.bans, 20);
    ListStep(nobody, start, 20, [ip]);
    var listed := Next(nobody, start, List(20, [ip]));
    var renewal := [Store(ip, Permanent), Hand(ip, true)];
    RenewedBefore(nobody, listed, ip, Permanent);
    var renewed := Run(nobody, listed, renewal);
    assert renewed.bans == map[ip := Permanent];
    LiftStep(nobody, renewed, true, ip);
    LiftLeaves(nobody, renewed, true, ip);
    DeleteStep(nobody, Next(nobody, renewed, Lift(true)), 21, true, ip);
  }
}
