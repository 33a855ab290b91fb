/**
 The server's ban operations (internal/server/server.go), one at a time, in
 place: each takes steps of the machine, and leaves every address where its
 contract says.
 */
module BanServer {
  import opened Basics
  import opened BanMachine

  // ---- one address, one operation at a time

  /** Where an address stands: its row, whether it has a rule, and its score. */
  datatype Standing = Standing(row: Option<Ban>, rule: bool, score: int)

  /** A ban that comes in, and whether the firewall took its rule. */
  datatype Renewal = Renewal(row: Ban, handed: bool)

  /** What the world does while maintenance runs, address by address; a renewal may come before or after the rule is removed. */
  datatype Maintenance = Maintenance(
    before: string -> Option<Renewal>,
    fwOk: string -> bool,
    after: string -> Option<Renewal>,
    at: string -> int,
    dbOk: string -> bool,
    resetOk: string -> bool)

  function RenewedTo(was: Standing, renewal: Option<Renewal>): Standing {
    match renewal
    case None => was
    case Some(r) => was.(row := Some(r.row), rule := was.rule || r.handed)
  }

  /** Where a release leaves an address. */
  function ReleasedTo(was: Standing, ip: string, w: Maintenance): Standing {
    var met := RenewedTo(was, w.before(ip));
    if !w.fwOk(ip) then met
    else
      var freed := RenewedTo(met.(rule := false), w.after(ip));
      if !w.dbOk(ip) then freed
      else
        freed.(row := if freed.row.Some? && !Active(freed.row.value, w.at(ip)) then None else freed.row,
               score := if w.resetOk(ip) then 0 else freed.score)
  }

  /** The renewal that counts: the last one, and a refused removal ends the release before the second. */
  function LastRenewal(ip: string, w: Maintenance): Option<Renewal> {
    if w.fwOk(ip) then OrElse(w.after(ip), w.before(ip)) else w.before(ip)
  }

  /** A renewal's row always survives while it is active; its rule does exactly when it came after the removal, or that was refused. */
  lemma RenewalSurvivesIff(was: Standing, ip: string, w: Maintenance)
    requires LastRenewal(ip, w).Some? && Active(LastRenewal(ip, w).value.row, w.at(ip)) && LastRenewal(ip, w).value.handed
    ensures ReleasedTo(was, ip, w).row == Some(LastRenewal(ip, w).value.row)
    ensures ReleasedTo(was, ip, w).rule <==> !w.fwOk(ip) || w.after(ip).Some?
  {
  }

  /** Without a renewal in between, a release leaves neither row nor rule once its calls are taken and the ban is still expired. */
  lemma ReleaseIsWhole(was: Standing, ip: string, w: Maintenance)
    requires w.before(ip).None? && w.after(ip).None? && was.row.Some? && !Active(was.row.value, w.at(ip))
    ensures ReleasedTo(was, ip, w).row.None? <==> w.fwOk(ip) && w.dbOk(ip)
    ensures ReleasedTo(was, ip, w).row.None? ==> !ReleasedTo(was, ip, w).rule
    ensures ReleasedTo(was, ip, w).row.Some? ==> ReleasedTo(was, ip, w).row == was.row
  {
  }

  /** A release leaves a rule without a row exactly when a renewal after the removal has expired again. */
  lemma ReleaseStrayIff(was: Standing, ip: string, w: Maintenance)
    requires was.row.Some?
    ensures ReleasedTo(was, ip, w).row.None? && ReleasedTo(was, ip, w).rule <==>
      w.fwOk(ip) && w.dbOk(ip) && w.after(ip).Some? && w.after(ip).value.handed && !Active(w.after(ip).value.row, w.at(ip))
  {
  }

  /** A release whose calls are taken forgets the score. */
  lemma ReleasedScore(was: Standing, ip: string, w: Maintenance)
    ensures ReleasedTo(was, ip, w).score == if w.fwOk(ip) && w.dbOk(ip) && w.resetOk(ip) then 0 else was.score
  {
  }

  /** So a ban that falls at the next event falls for that event's points alone; BanMachine.FewerPointsIff says it of any number of events. */
  lemma ReleasedNeedsAll(was: Standing, ip: string, w: Maintenance, points: int, ab: AutoBan, now: int, whitelisted: bool, ok: Calls)
    requires w.fwOk(ip) && w.dbOk(ip) && w.resetOk(ip)
    requires ScoredTo(ReleasedTo(was, ip, w), points, ab, now, whitelisted, ok).row != ReleasedTo(was, ip, w).row
    ensures points >= ab.threshold
  {
    ScoredMeans(ReleasedTo(was, ip, w), points, ab, now, whitelisted, ok);
  }

  /** Where the sync at start leaves an address: only active bans are touched. */
  function Synced(was: Standing, ip: string, now: int, whitelisted: bool, w: Maintenance): Standing {
    if was.row.None? || !Active(was.row.value, now) then was
    else if !whitelisted then was.(rule := was.rule || w.fwOk(ip))
    else if !w.dbOk(ip) then was
    else Standing(None, was.rule && !w.fwOk(ip), if w.resetOk(ip) then 0 else was.score)
  }

  /**
   What the sync is for: afterwards an address has an active ban only if it is
   not whitelisted or the database refused, and then a rule unless the
   firewall did; whatever was not an active ban is as before.
   */
  lemma SyncedMeans(was: Standing, ip: string, now: int, whitelisted: bool, w: Maintenance)
    ensures var s := Synced(was, ip, now, whitelisted, w);
      var active := was.row.Some? && Active(was.row.value, now);
      && (!active ==> s == was)
      && (active ==> (s.row.Some? <==> !whitelisted || !w.dbOk(ip)))
      && (s.row.Some? ==> s.row == was.row && s.score == was.score)
      && (active && !whitelisted ==> (s.rule <==> was.rule || w.fwOk(ip)))
      && (active && whitelisted && !w.dbOk(ip) ==> s == was)
      && (active && whitelisted && w.dbOk(ip) ==>
            (s.rule <==> was.rule && !w.fwOk(ip)) && s.score == if w.resetOk(ip) then 0 else was.score)
  {
  }

  datatype Outcome = Done | Whitelisted | NotStored | NotInFirewall

  /** Which of the calls one operation makes are accepted. */
  datatype Calls = Calls(isBanned: bool, score: bool, isBannedAgain: bool, store: bool, firewall: bool)

  predicate Due(was: Standing, ab: AutoBan, whitelisted: bool) {
    ab.enabled && was.score >= ab.threshold && !whitelisted
  }

  /** A ban is due, and none is seen. */
  predicate Falls(was: Standing, ab: AutoBan, now: int, whitelisted: bool, ok: Calls) {
    Due(was, ab, whitelisted) && !(ok.isBannedAgain && was.row.Some? && Active(was.row.value, now))
  }

  /** Where the judgement of its score leaves an address. */
  function JudgedTo(was: Standing, ab: AutoBan, now: int, whitelisted: bool, ok: Calls): Standing {
    if Falls(was, ab, now, whitelisted, ok) && ok.store
    then was.(row := Some(Row(now, ab.duration, ab.duration == 0)), rule := was.rule || ok.firewall)
    else was
  }

  /** Whether it is then banned. */
  predicate BannedBy(was: Standing, ab: AutoBan, now: int, whitelisted: bool, ok: Calls) {
    Due(was, ab, whitelisted) && (Falls(was, ab, now, whitelisted, ok) ==> ok.store && ok.firewall)
  }

  function Plus(was: Standing, points: int): Standing {
    was.(score := was.score + points)
  }

  /** Where a scored event leaves its address. */
  function ScoredTo(was: Standing, points: int, ab: AutoBan, now: int, whitelisted: bool, ok: Calls): Standing {
    if ok.score then JudgedTo(Plus(was, points), ab, now, whitelisted, ok) else was
  }

  /**
   Exactly what a scored event does to its address: the points count if the
   database takes them, and a ban is stored if that makes the threshold of an
   address that is neither whitelisted nor seen to be banned.
   */
  lemma ScoredMeans(was: Standing, points: int, ab: AutoBan, now: int, whitelisted: bool, ok: Calls)
    ensures var s := ScoredTo(was, points, ab, now, whitelisted, ok);
      var seen := ok.isBannedAgain && was.row.Some? && Active(was.row.value, now);
      var falls := ok.score && ab.enabled && was.score + points >= ab.threshold && !whitelisted && !seen && ok.store;
      && s.score == (if ok.score then was.score + points else was.score)
      && s.row == (if falls then Some(if ab.duration <= 0 then Permanent else Until(now + ab.duration)) else was.row)
      && (s.rule <==> was.rule || (falls && ok.firewall))
  {
  }

  /** The answer is yes exactly when a ban is due and one stands: one that was seen, or a new one in table and firewall. */
  lemma BannedMeans(was: Standing, ab: AutoBan, now: int, whitelisted: bool, ok: Calls)
    ensures var s := JudgedTo(was, ab, now, whitelisted, ok);
      var seen := ok.isBannedAgain && was.row.Some? && Active(was.row.value, now);
      && (BannedBy(was, ab, now, whitelisted, ok) <==>
            ab.enabled && was.score >= ab.threshold && !whitelisted && (seen || (ok.store && ok.firewall)))
      && (BannedBy(was, ab, now, whitelisted, ok) ==> s.row.Some? && Active(s.row.value, now) && (seen || s.rule))
  {
  }

  /** What the checks between the ban and the handler decide about a connection. */
  datatype Check = Pass | Drop | ScoreAndDrop(points: int) | ScoreAndPass(points: int)

  /** Where a connection's check leaves its address, when that is neither whitelisted nor known to be banned. */
  function CheckedTo(was: Standing, check: Check, ab: AutoBan, now: int, ok: Calls): Standing {
    match check
    case ScoreAndDrop(points) => ScoredTo(was, points, ab, now, false, ok)
    case ScoreAndPass(points) => ScoredTo(was, points, ab, now, false, ok)
    case _ => was
  }

  predicate Serves(was: Standing, check: Check, ab: AutoBan, now: int, ok: Calls) {
    check.Pass? || (check.ScoreAndPass? && !(ok.score && BannedBy(Plus(was, check.points), ab, now, false, ok)))
  }

  /** What a check leads to: nothing for a pass or a plain drop; otherwise the points count, and only a check that lets pass can serve. */
  lemma ChecksMean(was: Standing, points: int, ab: AutoBan, now: int, ok: Calls)
    ensures CheckedTo(was, Pass, ab, now, ok) == was && Serves(was, Pass, ab, now, ok)
    ensures CheckedTo(was, Drop, ab, now, ok) == was && !Serves(was, Drop, ab, now, ok)
    ensures CheckedTo(was, ScoreAndDrop(points), ab, now, ok) == CheckedTo(was, ScoreAndPass(points), ab, now, ok)
      == ScoredTo(was, points, ab, now, false, ok)
    ensures !Serves(was, ScoreAndDrop(points), ab, now, ok)
    ensures var seen := ok.isBannedAgain && was.row.Some? && Active(was.row.value, now);
      Serves(was, ScoreAndPass(points), ab, now, ok) <==>
        !(ok.score && ab.enabled && was.score + points >= ab.threshold && (seen || (ok.store && ok.firewall)))
  {
  }

  // ---- the server

  class Server {
    const whitelisted: string -> bool
    var bans: map<string, Ban>     // the banned_ips table
    var scores: map<string, int>   // the ip_scores table
    var rules: set<string>         // the firewall's DROP rules
    ghost var taken: seq<Step>     // every step since the start
    ghost var states: seq<State>   // and every state
    ghost var hands: multiset<string>
    ghost var decisions: multiset<Decision>
    ghost var upkeep: Upkeep
    ghost var log: seq<Event>

    ghost function Now(): State
      reads this
    {
      State(bans, scores, rules, hands, decisions, upkeep, log)
    }

    /** The states are those the steps taken lead through, from a start to now. */
    ghost predicate Valid()
      reads this
    {
      && IsTrace(whitelisted, taken, states)
      && states[0] == Start(states[0].bans, states[0].scores, states[0].rules)
      && states[|taken|] == Now()
    }

    /** So now is where the run of the steps taken ends. */
    lemma NowEndsRun()
      requires Valid()
      ensures Now() == Run(whitelisted, Start(states[0].bans, states[0].scores, states[0].rules), taken)
    {
      TraceIsRun(whitelisted, taken, states);
    }

    function StandingOf(ip: string): Standing
      reads this
    {
      Standing(Find(bans, ip), ip in rules, At(scores, ip, 0))
    }

    /** The program starts on the tables and the rules that an earlier run left. */
    constructor (whitelisted: string -> bool, bans: map<string, Ban>, scores: map<string, int>, rules: set<string>)
      ensures Valid() && taken == [] && this.whitelisted == whitelisted && Now() == Start(bans, scores, rules)
    {
      this.whitelisted, this.bans, this.scores, this.rules := whitelisted, bans, scores, rules;
      taken, states, hands, decisions, upkeep, log := [], [Start(bans, scores, rules)], multiset{}, multiset{}, Waiting([]), [];
    }

    ghost method Took(step: Step)
      requires IsTrace(whitelisted, taken, states)
      requires states[0] == Start(states[0].bans, states[0].scores, states[0].rules)
      requires Now() == Next(whitelisted, states[|taken|], step)
      modifies this`taken, this`states
      ensures Valid() && taken == old(taken) + [step] && states == old(states) + [Now()]
    {
      TracePush(whitelisted, taken, states, step, Now());
      taken, states := taken + [step], states + [Now()];
    }

    // ---- single calls

    /** db.BanIP. */
    method StoreRow(ip: string, row: Ban)
      requires Valid() && !whitelisted(ip)
      modifies this`bans, this`hands, this`taken, this`states
      ensures Valid() && bans == old(bans)[ip := row] && hands == old(hands) + multiset{ip}
    {
      bans := bans[ip := row];
      hands := hands + multiset{ip};
      Took(Store(ip, row));
    }

    /** The address is found in the table while its ban is active. */
    method Met(ip: string, now: int)
      requires Valid() && !whitelisted(ip) && IsBanned(bans, ip, now)
      modifies this`hands, this`taken, this`states
      ensures Valid() && hands == old(hands) + multiset{ip}
    {
      hands := hands + multiset{ip};
      Took(Meet(ip, now));
    }

    /** firewall.Ban. */
    method FirewallBan(ip: string, accepted: bool)
      requires Valid() && ip in hands
      modifies this`rules, this`hands, this`log, this`taken, this`states
      ensures Valid() && hands == old(hands) - multiset{ip} && log == old(log) + [Handed(ip)]
      ensures rules == if accepted then old(rules) + {ip} else old(rules)
    {
      if accepted { rules := rules + {ip}; }
      hands, log := hands - multiset{ip}, log + [Handed(ip)];
      Took(Hand(ip, accepted));
    }

    /** firewall.Unban, for UnbanIP. */
    method FirewallUnban(ip: string, accepted: bool)
      requires Valid()
      modifies this`rules, this`taken, this`states
      ensures Valid() && rules == if accepted then old(rules) - {ip} else old(rules)
    {
      if accepted {
        rules := rules - {ip};
        Took(Free(ip));
      }
    }

    /** db.UnbanIP. */
    method DropRow(ip: string)
      requires Valid()
      modifies this`bans, this`taken, this`states
      ensures Valid() && bans == old(bans) - {ip}
    {
      bans := bans - {ip};
      Took(Remove(ip));
    }

    /** db.ResetScore, for UnbanIP. */
    method ResetScore(ip: string, accepted: bool)
      requires Valid()
      modifies this`scores, this`log, this`taken, this`states
      ensures Valid() && log == old(log) + [Lifted(ip, accepted)] && scores == ScoresAfter(old(scores), Lifted(ip, accepted))
    {
      if accepted && ip in scores { scores := scores[ip := 0]; }
      log := log + [Lifted(ip, accepted)];
      Took(Reset(ip, accepted));
    }

    /** db.RecordScore: the new score. */
    method RecordScore(ip: string, points: int) returns (score: int, ghost d: Decision)
      requires Valid()
      modifies this`scores, this`decisions, this`log, this`taken, this`states
      ensures Valid() && score == StandingOf(ip).score && StandingOf(ip) == old(Plus(StandingOf(ip), points))
      ensures forall other :: other != ip ==> StandingOf(other) == old(StandingOf(other))
      ensures log == old(log) + [Scored(ip, points)]
      ensures d == Decision(ip, score, |log|) && decisions == old(decisions) + multiset{d}
    {
      score := At(scores, ip, 0) + points;
      d := Decision(ip, score, |log| + 1);
      ghost var next := Next(whitelisted, Now(), Score(ip, points));
      scores := scores[ip := score];
      log := log + [Scored(ip, points)];
      decisions := decisions + multiset{d};
      assert Now() == next;
      Took(Score(ip, points));
    }

    /** The moment a score is judged. */
    ghost method Judge(d: Decision, ab: AutoBan, now: int, known: bool)
      requires Valid() && d in decisions
      modifies this`decisions, this`log, this`taken, this`states
      ensures Valid() && decisions == old(decisions) - multiset{d}
      ensures log == old(log) + if old(BanDue(whitelisted, Now(), d, ab, now, known)) then [AutoBanned(d.ip, ab.threshold, d.scoredAt)] else []
    {
      if BanDue(whitelisted, Now(), d, ab, now, known) { log := log + [AutoBanned(d.ip, ab.threshold, d.scoredAt)]; }
      decisions := decisions - multiset{d};
      Took(Decide(d, ab, now, known));
    }

    // ---- operations

    /** A banned address is met: its rule is put back. */
    method PutBack(ip: string, now: int, accepted: bool)
      requires Valid() && !whitelisted(ip) && IsBanned(bans, ip, now)
      modifies this`rules, this`hands, this`log, this`taken, this`states
      ensures Valid() && hands == old(hands) && log == old(log) + [Handed(ip)]
      ensures rules == if accepted then old(rules) + {ip} else old(rules)
    {
      Met(ip, now);
      FirewallBan(ip, accepted);
    }

    method BanIP(ip: string, now: int, duration: int, permanent: bool, dbOk: bool, fwOk: bool) returns (outcome: Outcome)
      requires Valid()
      modifies this`bans, this`rules, this`hands, this`log, this`taken, this`states
      ensures Valid() && hands == old(hands)
      ensures outcome == if whitelisted(ip) then Whitelisted else if !dbOk then NotStored else if fwOk then Done else NotInFirewall
      ensures bans == if outcome.Done? || outcome.NotInFirewall? then old(bans)[ip := Row(now, duration, permanent)] else old(bans)
      ensures rules == if outcome.Done? then old(rules) + {ip} else old(rules)
      ensures log == if outcome.Done? || outcome.NotInFirewall? then old(log) + [Handed(ip)] else old(log)
    {
      if whitelisted(ip) {
        return Whitelisted;
      }
      if !dbOk {
        return NotStored;
      }
      StoreRow(ip, Row(now, duration, permanent));
      FirewallBan(ip, fwOk);
      return if fwOk then Done else NotInFirewall;
    }

    /** The row goes first: a firewall that refuses leaves a rule without one. */
    method UnbanIP(ip: string, dbOk: bool, resetOk: bool, fwOk: bool) returns (outcome: Outcome)
      requires Valid()
      modifies this`bans, this`scores, this`rules, this`log, this`taken, this`states
      ensures Valid()
      ensures outcome == if !dbOk then NotStored else if fwOk then Done else NotInFirewall
      ensures outcome.NotStored? ==> bans == old(bans) && scores == old(scores) && rules == old(rules) && log == old(log)
      ensures !outcome.NotStored? ==> bans == old(bans) - {ip} && scores == ScoresAfter(old(scores), Lifted(ip, resetOk))
      ensures !outcome.NotStored? ==> log == old(log) + [Lifted(ip, resetOk)]
      ensures rules == if outcome.Done? then old(rules) - {ip} else old(rules)
      ensures !outcome.NotStored? ==> (ip in rules - bans.Keys <==> outcome.NotInFirewall? && ip in old(rules))
    {
      if !dbOk {
        return NotStored;
      }
      DropRow(ip);
      ResetScore(ip, resetOk);
      FirewallUnban(ip, fwOk);
      return if fwOk then Done else NotInFirewall;
    }

    /** Bans an address whose score has reached the threshold: whether it is now banned. */
    method MaybeAutoBan(ip: string, score: int, ghost d: Decision, ab: AutoBan, now: int, ok: Calls) returns (banned: bool)
      requires Valid() && d in decisions && d.ip == ip && d.score == score == StandingOf(ip).score
      modifies this`bans, this`rules, this`hands, this`decisions, this`log, this`taken, this`states
      ensures Valid() && hands == old(hands) && decisions == old(decisions) - multiset{d}
      ensures StandingOf(ip) == old(JudgedTo(StandingOf(ip), ab, now, whitelisted(ip), ok))
      ensures forall other :: other != ip ==> StandingOf(other) == old(StandingOf(other))
      ensures banned == old(BannedBy(StandingOf(ip), ab, now, whitelisted(ip), ok))
      ensures log == old(log) + if !old(Falls(StandingOf(ip), ab, now, whitelisted(ip), ok)) then []
        else [AutoBanned(ip, ab.threshold, d.scoredAt)] + if ok.store then [Handed(ip)] else []
    {
      Judge(d, ab, now, ok.isBannedAgain);
      if !ab.enabled || score < ab.threshold || whitelisted(ip) {
        return false;
      }
      if ok.isBannedAgain && IsBanned(bans, ip, now) {
        return true;
      }
      var outcome := BanIP(ip, now, ab.duration, ab.duration == 0, ok.store, ok.firewall);
      return outcome.Done?;
    }

    /** Scores an event and bans at the threshold: whether the address is now banned. */
    method RecordAndMaybeBan(ip: string, points: int, ab: AutoBan, now: int, ok: Calls) returns (banned: bool)
      requires Valid()
      modifies this`bans, this`scores, this`rules, this`hands, this`decisions, this`log, this`taken, this`states
      ensures Valid() && hands == old(hands) && decisions == old(decisions) && old(log) <= log
      ensures StandingOf(ip) == old(ScoredTo(StandingOf(ip), points, ab, now, whitelisted(ip), ok))
      ensures forall other :: other != ip ==> StandingOf(other) == old(StandingOf(other))
      ensures banned == old(ok.score && BannedBy(Plus(StandingOf(ip), points), ab, now, whitelisted(ip), ok))
      ensures ok.score && old(Falls(Plus(StandingOf(ip), points), ab, now, whitelisted(ip), ok)) && ok.store ==>
        log == old(log) + [Scored(ip, points), AutoBanned(ip, ab.threshold, |old(log)| + 1), Handed(ip)]
    {
      if !ok.score {
        return false;
      }
      var score;
      ghost var d;
      score, d := RecordScore(ip, points);
      banned := MaybeAutoBan(ip, score, d, ab, now, ok);
    }

    /**
     A connection up to its handler: one from a whitelisted address is never
     scored or banned, one from a banned address has its rule put back.
     */
    method HandleConnection(ip: string, now: int, check: Check, ab: AutoBan, ok: Calls) returns (served: bool)
      requires Valid()
      modifies this`bans, this`scores, this`rules, this`hands, this`decisions, this`log, this`taken, this`states
      ensures Valid() && hands == old(hands) && decisions == old(decisions) && old(log) <= log
      ensures forall other :: other != ip ==> StandingOf(other) == old(StandingOf(other))
      ensures whitelisted(ip) ==> served && StandingOf(ip) == old(StandingOf(ip)) && log == old(log)
      ensures !whitelisted(ip) && ok.isBanned && old(IsBanned(bans, ip, now)) ==>
        !served && StandingOf(ip) == old(StandingOf(ip).(rule := ok.firewall || ip in rules)) && log == old(log) + [Handed(ip)]
      ensures !whitelisted(ip) && !(ok.isBanned && old(IsBanned(bans, ip, now))) ==>
        StandingOf(ip) == old(CheckedTo(StandingOf(ip), check, ab, now, ok))
      ensures !whitelisted(ip) && !(ok.isBanned && old(IsBanned(bans, ip, now))) ==>
        served == old(Serves(StandingOf(ip), check, ab, now, ok))
    {
      if whitelisted(ip) {
        return true;
      }
      if ok.isBanned && IsBanned(bans, ip, now) {
        PutBack(ip, now, ok.firewall);
        return false;
      }
      match check
      case Pass => return true;
      case Drop => return false;
      case ScoreAndDrop(points) =>
        var _ := RecordAndMaybeBan(ip, points, ab, now, ok);
        return false;
      case ScoreAndPass(points) =>
        var banned := RecordAndMaybeBan(ip, points, ab, now, ok);
        return !banned;
    }

    // ---- maintenance

    /** The addresses whose ban has expired, in some order. */
    method ExpiredBans(now: int) returns (ips: seq<string>)
      ensures ListsExpired(ips, bans, now)
    {
      ips := [];
      var todo: set<string> := bans.Keys;
      while todo != {}
        invariant todo <= bans.Keys && forall ip :: ip in ips <==> ip in bans && ip !in todo && !Active(bans[ip], now)
        invariant forall i, j :: 0 <= i < j < |ips| ==> ips[i] != ips[j]
        decreases todo
      {
        var ip: string :| ip in todo;
        todo := todo - {ip};
        if !Active(bans[ip], now) { ips := ips + [ip]; }
      }
    }

    /** db.GetExpiredBans. */
    method ListExpired(now: int) returns (ips: seq<string>)
      requires Valid() && upkeep == Waiting([])
      modifies this`upkeep, this`log, this`taken, this`states
      ensures Valid() && old(log) <= log && ListsExpired(ips, bans, now) && upkeep == Waiting(ips)
    {
      ips := ExpiredBans(now);
      log := log + [Listed];
      upkeep := Waiting(ips);
      Took(List(now, ips));
    }

    /** firewall.Unban for the next expired ban. */
    method LiftRule(ip: string, accepted: bool, ghost left: seq<string>)
      requires Valid() && upkeep == Waiting([ip] + left)
      modifies this`rules, this`upkeep, this`log, this`taken, this`states
      ensures Valid() && old(log) <= log && rules == (if accepted then old(rules) - {ip} else old(rules))
      ensures upkeep == if accepted then RuleGone(ip, left) else Waiting(left)
    {
      if accepted {
        rules := rules - {ip};
        log := log + [Freed(ip)];
      }
      upkeep := if accepted then RuleGone(ip, left) else Waiting(left);
      Took(Lift(accepted));
    }

    /** db.DeleteExpiredBan: only a row that is still expired goes. */
    method DeleteRow(ip: string, at: int, accepted: bool, ghost left: seq<string>)
      requires Valid() && upkeep == RuleGone(ip, left)
      modifies this`bans, this`upkeep, this`log, this`taken, this`states
      ensures Valid() && old(log) <= log && upkeep == (if accepted then RowGone(ip, left) else Waiting(left))
      ensures bans == if accepted && Expired(old(bans), ip, at) then old(bans) - {ip} else old(bans)
    {
      if accepted && ip in bans && !Active(bans[ip], at) {
        log := log + [Released(ip, bans[ip], at)];
        bans := bans - {ip};
      }
      upkeep := if accepted then RowGone(ip, left) else Waiting(left);
      Took(Delete(at, accepted));
    }

    /** db.ResetScore, for maintenance. */
    method ClearScore(ip: string, accepted: bool, ghost left: seq<string>)
      requires Valid() && upkeep == RowGone(ip, left)
      modifies this`scores, this`upkeep, this`log, this`taken, this`states
      ensures Valid() && old(log) <= log && upkeep == Waiting(left) && scores == ScoresAfter(old(scores), Lifted(ip, accepted))
    {
      if accepted && ip in scores { scores := scores[ip := 0]; }
      log := log + [Lifted(ip, accepted)];
      upkeep := Waiting(left);
      Took(Clear(accepted));
    }

    /** Another operation bans the address just now. */
    method Renew(ip: string, renewal: Option<Renewal>)
      requires Valid() && (renewal.Some? ==> !whitelisted(ip))
      modifies this`bans, this`rules, this`hands, this`log, this`taken, this`states
      ensures Valid() && hands == old(hands) && old(log) <= log
      ensures StandingOf(ip) == old(RenewedTo(StandingOf(ip), renewal))
      ensures forall other :: other != ip ==> StandingOf(other) == old(StandingOf(other))
    {
      if renewal.Some? {
        StoreRow(ip, renewal.value.row);
        FirewallBan(ip, renewal.value.handed);
      }
    }

    /** Up to the removal of the rule. */
    method RenewAndLift(ip: string, renewal: Option<Renewal>, fwOk: bool, ghost left: seq<string>)
      requires Valid() && upkeep == Waiting([ip] + left) && (renewal.Some? ==> !whitelisted(ip))
      modifies this`bans, this`rules, this`hands, this`upkeep, this`log, this`taken, this`states
      ensures Valid() && hands == old(hands) && old(log) <= log
      ensures upkeep == if fwOk then RuleGone(ip, left) else Waiting(left)
      ensures StandingOf(ip) == old(var met := RenewedTo(StandingOf(ip), renewal); if fwOk then met.(rule := false) else met)
      ensures forall other :: other != ip ==> StandingOf(other) == old(StandingOf(other))
    {
      Renew(ip, renewal);
      LiftRule(ip, fwOk, left);
    }

    /** Past the rule: the row, if it is still expired, and the score. */
    method Forget(ip: string, at: int, dbOk: bool, resetOk: bool, ghost left: seq<string>)
      requires Valid() && upkeep == RuleGone(ip, left)
      modifies this`bans, this`scores, this`upkeep, this`log, this`taken, this`states
      ensures Valid() && old(log) <= log && upkeep == Waiting(left)
      ensures forall other :: other != ip ==> StandingOf(other) == old(StandingOf(other))
      ensures var was := old(StandingOf(ip));
        StandingOf(ip) == if !dbOk then was else
          was.(row := if Expired(old(bans), ip, at) then None else was.row, score := if resetOk then 0 else was.score)
    {
      DeleteRow(ip, at, dbOk, left);
      if dbOk {
        ClearScore(ip, resetOk, left);
      }
    }

    /** Maintenance releases one ban: its rule, then its row if that is still expired, then its score. */
    method Release(ip: string, w: Maintenance, ghost left: seq<string>)
      requires Valid() && upkeep == Waiting([ip] + left)
      requires w.before(ip).Some? || w.after(ip).Some? ==> !whitelisted(ip)
      modifies this`bans, this`scores, this`rules, this`hands, this`upkeep, this`log, this`taken, this`states
      ensures Valid() && hands == old(hands) && old(log) <= log && upkeep == Waiting(left)
      ensures StandingOf(ip) == old(ReleasedTo(StandingOf(ip), ip, w))
      ensures forall other :: other != ip ==> StandingOf(other) == old(StandingOf(other))
    {
      RenewAndLift(ip, w.before(ip), w.fwOk(ip), left);
      if w.fwOk(ip) {
        Renew(ip, w.after(ip));
        Forget(ip, w.at(ip), w.dbOk(ip), w.resetOk(ip), left);
      }
    }

    /** One pass of maintenance: each ban that had expired is released, the others are left alone. */
    method ReleaseExpired(now: int, w: Maintenance)
      requires Valid() && upkeep == Waiting([])
      requires forall ip :: w.before(ip).Some? || w.after(ip).Some? ==> !whitelisted(ip)
      modifies this`bans, this`scores, this`rules, this`hands, this`upkeep, this`log, this`taken, this`states
      ensures Valid() && hands == old(hands) && old(log) <= log && upkeep == Waiting([])
      ensures forall ip :: old(Expired(bans, ip, now)) ==> StandingOf(ip) == old(ReleasedTo(StandingOf(ip), ip, w))
      ensures forall ip :: !old(Expired(bans, ip, now)) ==> StandingOf(ip) == old(StandingOf(ip))
    {
      var expired := ListExpired(now);
      ghost var done: set<string> := {};
      for i := 0 to |expired|
        invariant Valid() && hands == old(hands) && old(log) <= log && upkeep == Waiting(expired[i..])
        invariant forall ip :: StandingOf(ip) == if ip in done then old(ReleasedTo(StandingOf(ip), ip, w)) else old(StandingOf(ip))
        invariant forall ip :: ip in done <==> ip in expired[..i]
      {
        assert expired[..i + 1] == expired[..i] + [expired[i]];
        assert expired[i..] == [expired[i]] + expired[i + 1..];
        Release(expired[i], w, expired[i + 1..]);
        done := done + {expired[i]};
      }
      assert expired[..|expired|] == expired;
    }

    method SyncOne(ip: string, now: int, w: Maintenance)
      requires Valid() && IsBanned(bans, ip, now)
      modifies this`bans, this`scores, this`rules, this`hands, this`log, this`taken, this`states
      ensures Valid() && hands == old(hands) && old(log) <= log
      ensures forall other :: other != ip ==> StandingOf(other) == old(StandingOf(other))
      ensures StandingOf(ip) == old(Synced(StandingOf(ip), ip, now, whitelisted(ip), w))
    {
      if whitelisted(ip) {
        var _ := UnbanIP(ip, w.dbOk(ip), w.resetOk(ip), w.fwOk(ip));
      } else {
        PutBack(ip, now, w.fwOk(ip));
      }
    }

    /** At start, every active ban is handed to the firewall again, and bans of whitelisted addresses go. */
    method SyncBans(now: int, w: Maintenance)
      requires Valid()
      modifies this`bans, this`scores, this`rules, this`hands, this`log, this`taken, this`states
      ensures Valid() && hands == old(hands) && old(log) <= log
      ensures forall ip :: StandingOf(ip) == old(Synced(StandingOf(ip), ip, now, whitelisted(ip), w))
    {
      var todo: set<string> := set ip | ip in bans && Active(bans[ip], now);
      while todo != {}
        invariant Valid() && hands == old(hands) && old(log) <= log
        invariant forall ip :: ip in todo ==> ip in old(bans) && Active(old(bans)[ip], now)
        invariant forall ip :: ip in todo ==> StandingOf(ip) == old(StandingOf(ip))
        invariant forall ip :: ip !in todo ==> StandingOf(ip) == old(Synced(StandingOf(ip), ip, now, whitelisted(ip), w))
        decreases todo
      {
        var ip: string :| ip in todo;
        todo := todo - {ip};
        assert StandingOf(ip).row == old(StandingOf(ip)).row;
        SyncOne(ip, now, w);
      }
    }
  }

  lemma NewPointsPush(log: seq<Event>, e: Event, ip: string)
    ensures NewPoints(log + [e], ip) ==
      if e.Scored? && e.ip == ip then NewPoints(log, ip) + e.points else if e.Lifted? && e.ip == ip then 0 else NewPoints(log, ip)
  {
    assert (log + [e])[..|log|] == log;
  }

  lemma OneNewPoint(past: seq<Event>, log: seq<Event>, ip: string, threshold: int, n: nat)
    requires log == past + [Lifted(ip, false)] + [Scored(ip, 1), AutoBanned(ip, threshold, n), Handed(ip)]
    ensures NewPoints(log, ip) == 1
  {
    var a := past + [Lifted(ip, false)];
    var b := a + [Scored(ip, 1)];
    var c := b + [AutoBanned(ip, threshold, n)];
    NewPointsPush(past, Lifted(ip, false), ip);
    NewPointsPush(a, Scored(ip, 1), ip);
    NewPointsPush(b, AutoBanned(ip, threshold, n), ip);
    NewPointsPush(c, Handed(ip), ip);
    assert log == c + [Handed(ip)];
  }

  const AT_FIFTY := AutoBan(true, 50, 0)
  const ALL_TAKEN := Calls(true, true, true, true, true)

  /** An address that scores fifty points at once. */
  method BannedRun(ip: string, nobody: string -> bool) returns (s: Server)
    requires !nobody(ip)
    ensures fresh(s) && s.Valid() && s.whitelisted == nobody && s.StandingOf(ip) == Standing(Some(Permanent), true, 50)
  {
    s := new Server(nobody, map[], map[], {});
    assert s.StandingOf(ip) == Standing(None, false, 0);
    var _ := s.RecordAndMaybeBan(ip, 50, AT_FIFTY, 0, ALL_TAKEN);
  }

  /** Its ban is lifted, but the database refuses to set the score back: one new point bans it again. */
  method RefusedResetRun(ip: string, nobody: string -> bool) returns (s: Server)
    requires !nobody(ip)
    ensures s.Valid() && s.StandingOf(ip) == Standing(Some(Permanent), true, 51) && NewPoints(s.log, ip) == 1
  {
    s := BannedRun(ip, nobody);
    ghost var past := s.log;
    var _ := s.UnbanIP(ip, true, false, true);
    assert s.StandingOf(ip) == Standing(None, false, 50);
    var _ := s.RecordAndMaybeBan(ip, 1, AT_FIFTY, 10, ALL_TAKEN);
    OneNewPoint(past, s.log, ip, 50, |past| + 2);
  }
}
