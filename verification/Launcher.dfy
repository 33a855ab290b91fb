/**
 The self-undoing updater: what each start of the installed binary hands over
 to (internal/update/state.go), and what feeds it (internal/update/manager.go).
 */
module Launcher {
  import opened Basics
  import opened Text
  import opened Versions

  const MAX_ATTEMPTS := 3

  /** A staged version; its binary lies in the directory of that name. */
  datatype Slot = Slot(version: string, appliedAt: int, good: bool, attempts: nat)

  /** state.json: what the launcher starts, and what it goes back to. */
  datatype State = State(current: Option<Slot>, previous: Option<Slot>)

  const EMPTY := State(None, None)

  /** What a start finds: whether the installed binary is newer than a slot, and the versions whose binary can run. */
  datatype Found = Found(newer: Slot -> bool, runnable: set<string>)

  /** The installed binary is newer: by version when it is a release, otherwise by the time of its file. */
  function NewerThan(base: string, fileTime: Option<int>): Slot -> bool {
    (c: Slot) => if ParseSpec(base).Some? then Compare(base, c.version) >= 0 else fileTime.Some? && fileTime.value > c.appliedAt
  }

  /** Makes the previous good version current again, or none. */
  function RolledBack(st: State, failed: Slot): State {
    if st.previous.Some? && st.previous.value.good && st.previous.value.version != failed.version
    then State(st.previous, None) else EMPTY
  }

  datatype Outcome = Installed | HandOver(slot: Slot) | Again

  /** Which of the saves that one pass may try are taken; Launch does not ask. */
  datatype Writes = Writes(replaced: bool, undone: bool, counted: bool, gone: bool)

  const ALL_TAKEN := Writes(true, true, true, true)
  const ALL_REFUSED := Writes(false, false, false, false)

  function Counted(st: State, c: Slot): State {
    st.(current := Some(c.(attempts := c.attempts + 1)))
  }

  /** What is left to start once a slot has its attempt counted, or is given up after too many. */
  function Tried(st: State, c: Slot): State {
    if c.good then st
    else if c.attempts + 1 > MAX_ATTEMPTS then RolledBack(Counted(st, c), c)
    else Counted(st, c)
  }

  /** What of that is on disk. */
  function TriedOnDisk(st: State, c: Slot, w: Writes): State {
    if c.good then st
    else if w.counted && Tried(st, c).current.Some? then Tried(st, c)
    else if w.undone && c.attempts + 1 > MAX_ATTEMPTS then Tried(st, c)
    else st
  }

  /** One pass of Launch: the state on disk after it, and what it does then. */
  function Round(st: State, f: Found, w: Writes): (State, Outcome) {
    if st.current.None? then (st, Installed)
    else if f.newer(st.current.value) then (if w.replaced then EMPTY else st, Installed)
    else
      var tried, disk := Tried(st, st.current.value), TriedOnDisk(st, st.current.value, w);
      if tried.current.None? then (disk, Installed)
      else if tried.current.value.version in f.runnable then (disk, HandOver(tried.current.value))
      else (if w.gone then RolledBack(tried, tried.current.value) else disk, Again)
  }

  /** What is saved when an attempt is counted: once, and again after giving up, unless that leaves nothing. */
  function Attempts(st: State, c: Slot, w: Writes): seq<(State, bool)> {
    var tried := Tried(st, c);
    if c.good then [] else if c.attempts < MAX_ATTEMPTS then [(tried, w.counted)]
    else if tried == EMPTY then [(EMPTY, w.undone)] else [(tried, w.undone), (tried, w.counted)]
  }

  /** The states one pass tries to save, in that order, and which of them are taken. */
  function Saves(st: State, f: Found, w: Writes): seq<(State, bool)> {
    if st.current.None? then []
    else if f.newer(st.current.value) then [(EMPTY, w.replaced)]
    else
      var tried := Tried(st, st.current.value);
      Attempts(st, st.current.value, w)
      + if tried.current.Some? && tried.current.value.version !in f.runnable then [(RolledBack(tried, tried.current.value), w.gone)] else []
  }

  function LastTaken(st: State, saves: seq<(State, bool)>): State {
    if saves == [] then st
    else if saves[|saves| - 1].1 then saves[|saves| - 1].0
    else LastTaken(st, saves[..|saves| - 1])
  }

  lemma OneMoreSave(st: State, saves: seq<(State, bool)>, save: (State, bool))
    ensures LastTaken(st, saves + [save]) == if save.1 then save.0 else LastTaken(st, saves)
  {
    assert (saves + [save])[..|saves|] == saves;
  }

  /** What counting an attempt, or giving up, leaves on disk. */
  lemma TriedOnDiskIsLastTaken(st: State, f: Found, w: Writes)
    requires st.current.Some? && !f.newer(st.current.value)
    ensures LastTaken(st, Attempts(st, st.current.value, w)) == TriedOnDisk(st, st.current.value, w)
  {
    var c := st.current.value;
    var tried := Tried(st, c);
    assert LastTaken(st, []) == st && [] + [(tried, w.undone)] == [(tried, w.undone)] && [] + [(tried, w.counted)] == [(tried, w.counted)];
    OneMoreSave(st, [], (tried, w.undone));
    OneMoreSave(st, [], (tried, w.counted));
    OneMoreSave(st, [(tried, w.undone)], (tried, w.counted));
    assert [(tried, w.undone)] + [(tried, w.counted)] == [(tried, w.undone), (tried, w.counted)];
  }

  /** After a pass the disk holds the last of those states that was taken, or what it held. */
  lemma DiskIsLastTaken(st: State, f: Found, w: Writes)
    ensures Round(st, f, w).0 == LastTaken(st, Saves(st, f, w))
  {
    if st.current.Some? {
      if f.newer(st.current.value) {
        OneMoreSave(st, [], (EMPTY, w.replaced));
        assert [] + [(EMPTY, w.replaced)] == [(EMPTY, w.replaced)];
      } else {
        var tried := Tried(st, st.current.value);
        var attempts := Attempts(st, st.current.value, w);
        TriedOnDiskIsLastTaken(st, f, w);
        assert attempts + [] == attempts;
        if tried.current.Some? { OneMoreSave(st, attempts, (RolledBack(tried, tried.current.value), w.gone)); }
      }
    }
  }

  /** What failed is never put back in place of itself, nor anything that was not good. */
  lemma RolledBackIff(st: State, failed: Slot)
    ensures var back := RolledBack(st, failed);
      && back.previous.None?
      && (back.current.Some? <==> st.previous.Some? && st.previous.value.good && st.previous.value.version != failed.version)
      && (back.current.Some? ==> back.current == st.previous)
  {
  }

  function Slots(st: State): nat {
    (if st.current.Some? then 1 else 0) + (if st.previous.Some? then 1 else 0)
  }

  /** The passes numbered from `from`, until one decides or the process is stopped before pass `limit`. */
  function Passes(st: State, f: Found, w: nat -> Writes, from: nat, limit: nat): (State, Outcome)
    requires from <= limit
    decreases limit - from
  {
    if from == limit then (st, Again)
    else
      var (st', out) := Round(st, f, w(from));
      if out == Again then Passes(st', f, w, from + 1, limit) else (st', out)
  }

  /** The whole of Launch while every save is taken: passes until one decides. */
  function Launched(st: State, f: Found): (State, Outcome)
    decreases Slots(st)
  {
    var (st', out) := Round(st, f, ALL_TAKEN);
    if out == Again then Launched(st', f) else (st', out)
  }

  /** That takes no more passes than there are slots, and one. */
  lemma {:induction false} TakenPasses(st: State, f: Found, from: nat, limit: nat)
    requires from + Slots(st) < limit
    ensures Passes(st, f, (n: nat) => ALL_TAKEN, from, limit) == Launched(st, f)
    decreases Slots(st)
  {
    var (st', out) := Round(st, f, ALL_TAKEN);
    if out == Again {
      TakenPasses(st', f, from + 1, limit);
    }
  }

  function GoodMarked(st: State, version: string): State {
    if st.current.Some? && st.current.value.version == version && !st.current.value.good
    then st.(current := Some(st.current.value.(good := true, attempts := 0))) else st
  }

  function Applied(st: State, version: string, now: int): State {
    var prev := if st.current.Some? && st.current.value.good then st.current
                else if st.current.None? then None
                else st.previous;
    State(Some(Slot(version, now, false, 0)), prev)
  }

  function WentBack(st: State): State {
    if st.current.None? then st else State(st.previous, None)
  }

  // ---- the state on disk

  class Updates {
    var stored: State

    constructor ()
      ensures stored == EMPTY
    {
      stored := EMPTY;
    }

    method Rollback(st: State, failed: Slot) returns (out: State)
      ensures out == RolledBack(st, failed)
    {
      out := EMPTY;
      if st.previous.Some? {
        var p := st.previous.value;
        if p.good && p.version != failed.version {
          out := State(Some(p), None);
        }
      }
    }

    /** Runs first in every start; pass n saves what w(n) takes. The process may be stopped before any pass. */
    method Launch(f: Found, w: nat -> Writes, from: nat, limit: nat) returns (out: Outcome)
      requires from <= limit
      modifies this
      decreases limit - from
      ensures (stored, out) == Passes(old(stored), f, w, from, limit)
    {
      if from == limit {
        return Again;
      }
      var st := stored;
      if st.current.None? {
        return Installed;
      }
      var c := st.current.value;
      if f.newer(c) {
        if w(from).replaced { stored := EMPTY; }
        return Installed;
      }
      if !c.good {
        c := c.(attempts := c.attempts + 1);
        st := st.(current := Some(c));
        if c.attempts > MAX_ATTEMPTS {
          st := Rollback(st, c);
          if w(from).undone { stored := st; }
          if st.current.None? {
            return Installed;
          }
          c := st.current.value;
        }
        if w(from).counted { stored := st; }
      }
      if c.version !in f.runnable {
        st := Rollback(st, c);
        if w(from).gone { stored := st; }
        out := Launch(f, w, from + 1, limit);
        return;
      }
      return HandOver(c);
    }

    method MarkGood(version: string)
      modifies this
      ensures stored == GoodMarked(old(stored), version)
    {
      if stored.current.None? || stored.current.value.version != version || stored.current.value.good {
        return;
      }
      stored := stored.(current := Some(stored.current.value.(good := true, attempts := 0)));
    }

    method GoBack() returns (ok: bool)
      modifies this
      ensures stored == WentBack(old(stored)) && ok == old(stored).current.Some?
    {
      if stored.current.None? {
        return false;
      }
      stored := State(stored.previous, None);
      return true;
    }
  }

  // ---- runs

  datatype Event =
    | Start(f: Found, w: nat -> Writes, passes: nat)
    | Apply(version: string, now: int)
    | Good(version: string)
    | Back

  /**
   The state, how often since the last update a start was handed to a version
   not known to be good, and how often of those the attempt was not stored.
   */
  datatype Run = Run(st: State, unproven: nat, uncounted: nat)

  function Next(r: Run, e: Event): Run {
    match e
    case Start(f, w, passes) =>
      var (st, out) := Passes(r.st, f, w, 0, passes);
      if !out.HandOver? || out.slot.good then r.(st := st)
      else Run(st, r.unproven + 1, if st.current == Some(out.slot) then r.uncounted else r.uncounted + 1)
    case Apply(version, now) => Run(Applied(r.st, version, now), 0, 0)
    case Good(version) => r.(st := GoodMarked(r.st, version))
    case Back => r.(st := WentBack(r.st))
  }

  function After(events: seq<Event>): Run {
    if events == [] then Run(EMPTY, 0, 0) else Next(After(events[..|events| - 1]), events[|events| - 1])
  }

  /** The slots are good where they have to be, and attempts stay within their bound. */
  ghost predicate SoundState(st: State) {
    && (st.previous.Some? ==> st.previous.value.good && st.previous.value.attempts == 0 && st.current.Some?)
    && (st.current.Some? && st.current.value.good ==> st.current.value.attempts == 0)
    && (st.current.Some? ==> st.current.value.attempts <= MAX_ATTEMPTS)
  }

  ghost predicate Sound(r: Run) {
    && SoundState(r.st)
    && (r.st.current.Some? && !r.st.current.value.good ==> r.unproven <= r.st.current.value.attempts + r.uncounted)
    && r.unproven <= MAX_ATTEMPTS + r.uncounted
  }

  /** The slot on disk after a pass: the same with no fewer attempts, a good one, or none. */
  ghost predicate Onwards(st: State, st': State) {
    || st'.current.None? || st'.current.value.good
    || (st.current.Some? && !st.current.value.good && st'.previous == st.previous
        && st'.current == Some(st.current.value.(attempts := st'.current.value.attempts))
        && st.current.value.attempts <= st'.current.value.attempts <= MAX_ATTEMPTS)
  }

  /**
   What a start leaves and hands over: a version that can run and is good, or
   the current one with attempts left. That attempt is stored, or not.
   */
  ghost predicate Handed(st: State, f: Found, st': State, out: Outcome) {
    && SoundState(st') && Onwards(st, st')
    && (out.HandOver? ==> out.slot.version in f.runnable)
    && (out.HandOver? && !out.slot.good ==>
          && st.current.Some? && !st.current.value.good && st.current.value.attempts < MAX_ATTEMPTS
          && out.slot.version == st.current.value.version
          && st'.current.Some? && !st'.current.value.good
          && (st'.current == Some(out.slot) ==> st.current.value.attempts < st'.current.value.attempts))
  }

  /** Whichever of the saves of a start are refused. */
  lemma {:induction false} StartFromSound(st: State, f: Found, w: nat -> Writes, from: nat, limit: nat)
    requires SoundState(st) && from <= limit
    ensures var (st', out) := Passes(st, f, w, from, limit); Handed(st, f, st', out)
    decreases limit - from
  {
    if from == limit {
    } else {
      var (st1, out1) := Round(st, f, w(from));
      if out1 == Again {
        StartFromSound(st1, f, w, from + 1, limit);
      }
    }
  }

  /** With every save taken a start ends: at a good version, once more at an unproven one, or at the installed one. */
  lemma TakenStart(st: State, f: Found)
    requires SoundState(st)
    ensures var (st', out) := Launched(st, f);
      && out != Again && (out == Installed ==> st' == EMPTY)
      && (out.HandOver? ==> st'.current == Some(out.slot) && out.slot.version in f.runnable)
  {
    var (st1, out1) := Round(st, f, ALL_TAKEN);
    assert Launched(EMPTY, f) == (EMPTY, Installed);
    if out1 == Again && st1 != EMPTY {
      assert st1.current.value.good && st1.previous.None?;
      assert Round(st1, f, ALL_TAKEN).1 == Again ==> Round(st1, f, ALL_TAKEN).0 == EMPTY;
    }
  }

  lemma StepKeepsSound(r: Run, e: Event)
    requires Sound(r)
    ensures Sound(Next(r, e))
  {
    if e.Start? { StartFromSound(r.st, e.f, e.w, 0, e.passes); }
  }

  /**
   Over any starts, stopped anywhere and with any saves refused, updates, good
   marks and ways back: an unproven version is handed over to at most three
   times, and once more for each attempt that was not stored.
   */
  lemma {:induction false} EveryRunSound(events: seq<Event>)
    ensures Sound(After(events))
  {
    if events == [] {
    } else {
      EveryRunSound(events[..|events| - 1]);
      StepKeepsSound(After(events[..|events| - 1]), events[|events| - 1]);
    }
  }

  /** A bad update undoes itself: once that many starts were handed to it, no later one is. */
  lemma BadUpdateUndone(events: seq<Event>, f: Found, w: nat -> Writes, passes: nat)
    requires After(events).unproven == MAX_ATTEMPTS + After(events).uncounted
    ensures var (st, out) := Passes(After(events).st, f, w, 0, passes); out.HandOver? ==> out.slot.good
  {
    EveryRunSound(events);
    StartFromSound(After(events).st, f, w, 0, passes);
  }

  lemma AfterPush(events: seq<Event>, e: Event)
    ensures After(events + [e]) == Next(After(events), e)
  {
    assert (events + [e])[..|events|] == events;
  }

  /** A start whose attempt cannot be stored. */
  function Uncounted(): Event {
    Start(Found((c: Slot) => false, {"a"}), (n: nat) => ALL_REFUSED, 1)
  }

  lemma UncountedStart(events: seq<Event>, unproven: nat)
    requires After(events) == Run(State(Some(Slot("a", 1, false, 0)), None), unproven, unproven)
    ensures After(events + [Uncounted()]) == Run(After(events).st, unproven + 1, unproven + 1)
  {
    AfterPush(events, Uncounted());
    assert Passes(After(events).st, Uncounted().f, Uncounted().w, 1, 1).1 == Again;
  }

  /** While nothing can be written, a version that does not stay up is handed over to a fourth time. */
  lemma UncountedExample()
    ensures After([Apply("a", 1)] + [Uncounted()] + [Uncounted()] + [Uncounted()] + [Uncounted()]).unproven == 4
  {
    var applied := [Apply("a", 1)];
    AfterPush([], Apply("a", 1));
    assert [] + [Apply("a", 1)] == applied;
    UncountedStart(applied, 0);
    UncountedStart(applied + [Uncounted()], 1);
    UncountedStart(applied + [Uncounted()] + [Uncounted()], 2);
    UncountedStart(applied + [Uncounted()] + [Uncounted()] + [Uncounted()], 3);
  }

  // ---- the installed binary against what is handed over

  /** Too many attempts put a previous version back that the installed binary is newer than. */
  predicate Overlooked(st: State, f: Found) {
    && st.current.Some? && !f.newer(st.current.value)
    && !st.current.value.good && st.current.value.attempts >= MAX_ATTEMPTS
    && var back := RolledBack(st, st.current.value).current;
      back.Some? && f.newer(back.value) && back.value.version in f.runnable
  }

  // ---- which of the two runs, by version and by time

  /** The binary a start finds: its version, the time of its file, and what can run. */
  function Finds(base: string, fileTime: Option<int>, runnable: set<string>): Found {
    Found(NewerThan(base, fileTime), runnable)
  }

  /** By version when the installed binary is a release: below the staged one, or not. */
  ghost predicate Outranked(base: string, fileTime: Option<int>, c: Slot) {
    if ParseSpec(base).Some? then Below(base, c.version) else fileTime.None? || fileTime.value <= c.appliedAt
  }

  /** Versions that the standard orders, where versions are compared. */
  predicate Comparable(base: string, st: State) {
    ParseSpec(base).Some? ==>
      && PlainVersion(base)
      && (st.current.Some? ==> PlainVersion(st.current.value.version))
      && (st.previous.Some? ==> PlainVersion(st.previous.value.version))
  }

  lemma NewerIff(base: string, fileTime: Option<int>, c: Slot)
    requires ParseSpec(base).Some? ==> PlainVersion(base) && PlainVersion(c.version)
    ensures NewerThan(base, fileTime)(c) <==> !Outranked(base, fileTime, c)
  {
    if ParseSpec(base).Some? { NotBelowIff(base, c.version); }
  }

  /** A good update that can run and ranks above the installed binary is what every start hands over to, whatever is refused. */
  lemma GoodUpdateRuns(st: State, base: string, fileTime: Option<int>, runnable: set<string>, w: nat -> Writes, limit: nat)
    requires Comparable(base, st) && limit > 0
    requires st.current.Some? && st.current.value.good && st.current.value.version in runnable
    requires Outranked(base, fileTime, st.current.value)
    ensures Passes(st, Finds(base, fileTime, runnable), w, 0, limit) == (st, HandOver(st.current.value))
  {
    NewerIff(base, fileTime, st.current.value);
  }

  /** One that does not gives way to it: after any run, and for good once that is stored. */
  lemma NewerBinaryWins(events: seq<Event>, base: string, fileTime: Option<int>, runnable: set<string>, w: nat -> Writes, limit: nat)
    requires After(events).st.current.Some? && Comparable(base, After(events).st) && limit > 0
    requires !Outranked(base, fileTime, After(events).st.current.value)
    ensures var f := Finds(base, fileTime, runnable);
      && Passes(After(events).st, f, w, 0, limit).1 == Installed
      && After(events + [Start(f, w, limit)]).st == if w(0).replaced then EMPTY else After(events).st
  {
    NewerIff(base, fileTime, After(events).st.current.value);
    AfterPush(events, Start(Finds(base, fileTime, runnable), w, limit));
  }

  /** What a start hands over to is a version that was staged, with its time. */
  lemma {:induction false} HandedWasStaged(st: State, f: Found, w: nat -> Writes, from: nat, limit: nat)
    requires from <= limit
    ensures var (st', out) := Passes(st, f, w, from, limit);
      && (forall c :: c in StagedIn(st') ==> c in StagedIn(st))
      && (out.HandOver? ==> (out.slot.version, out.slot.appliedAt) in StagedIn(st))
    decreases limit - from
  {
    if from == limit {
    } else {
      var (st1, out1) := Round(st, f, w(from));
      if out1 == Again { HandedWasStaged(st1, f, w, from + 1, limit); }
    }
  }

  function StagedIn(st: State): set<(string, int)> {
    (if st.current.Some? then {(st.current.value.version, st.current.value.appliedAt)} else {})
    + if st.previous.Some? then {(st.previous.value.version, st.previous.value.appliedAt)} else {}
  }

  /** Except after too many attempts, whatever a start hands over to ranks above the installed binary. */
  lemma HandedOutranks(st: State, base: string, fileTime: Option<int>, runnable: set<string>, w: nat -> Writes, limit: nat)
    requires Comparable(base, st) && !OverlookedOnce(st, Finds(base, fileTime, runnable), w, 0, limit)
    ensures var out := Passes(st, Finds(base, fileTime, runnable), w, 0, limit).1;
      out.HandOver? ==> Outranked(base, fileTime, out.slot)
  {
    var out := Passes(st, Finds(base, fileTime, runnable), w, 0, limit).1;
    NewestWinsUnlessOverlooked(st, base, fileTime, runnable, w, 0, limit);
    HandedWasStaged(st, Finds(base, fileTime, runnable), w, 0, limit);
    if out.HandOver? { NewerIff(base, fileTime, out.slot); }
  }

  // ---- marking and going back

  /** Only the running version is marked, and nothing else about the state changes. */
  lemma MarkedIff(events: seq<Event>, version: string)
    ensures var (st, st') := (After(events).st, After(events + [Good(version)]).st);
      && st'.previous == st.previous
      && (st' != st <==> st.current.Some? && st.current.value.version == version && !st.current.value.good)
      && (st' != st ==> st'.current == Some(st.current.value.(good := true, attempts := 0)))
  {
    AfterPush(events, Good(version));
  }

  lemma BackFromApplied(st: State, version: string, now: int)
    ensures var back := WentBack(Applied(st, version, now));
      && back.previous.None?
      && (st.current.Some? ==> back.current == if st.current.value.good then st.current else st.previous)
      && (st.current.None? ==> back == EMPTY)
  {
  }

  /** An update that is applied and taken back leaves the version that ran before it, if that was good; otherwise the one before. */
  lemma BackUndoesApply(events: seq<Event>, version: string, now: int)
    ensures var st := After(events).st;
      var back := After(events + [Apply(version, now)] + [Back]).st;
      && back.previous.None?
      && (st.current.Some? ==> back.current == if st.current.value.good then st.current else st.previous)
      && (st.current.None? ==> back == EMPTY)
  {
    assert After(events + [Apply(version, now)] + [Back]).st == WentBack(Applied(After(events).st, version, now)) by {
      AfterPush(events, Apply(version, now));
      AfterPush(events + [Apply(version, now)], Back);
    }
    BackFromApplied(After(events).st, version, now);
  }

  /** One of the passes of a start begins with such a state. */
  predicate OverlookedOnce(st: State, f: Found, w: nat -> Writes, from: nat, limit: nat)
    requires from <= limit
    decreases limit - from
  {
    && from < limit
    && (Overlooked(st, f)
        || (Round(st, f, w(from)).1 == Again && OverlookedOnce(Round(st, f, w(from)).0, f, w, from + 1, limit)))
  }

  ghost predicate IgnoresAttempts(newer: Slot -> bool) {
    forall c: Slot, n :: newer(c.(attempts := n)) == newer(c)
  }

  lemma InstalledIgnoresAttempts(base: string, fileTime: Option<int>)
    ensures IgnoresAttempts(NewerThan(base, fileTime))
  {
    forall c: Slot, n ensures NewerThan(base, fileTime)(c.(attempts := n)) == NewerThan(base, fileTime)(c) {}
  }

  lemma PassOverlooksIff(st: State, f: Found, w: Writes)
    requires IgnoresAttempts(f.newer)
    ensures var (st', out) := Round(st, f, w);
      (out.HandOver? && f.newer(out.slot)) <==> Overlooked(st, f)
  {
  }

  /** A start hands over to something the installed binary is newer than exactly then: the comparison is not made again. */
  lemma {:induction false} NewestWinsUnlessOverlooked(st: State, base: string, fileTime: Option<int>, runnable: set<string>,
      w: nat -> Writes, from: nat, limit: nat)
    requires from <= limit
    ensures var f := Found(NewerThan(base, fileTime), runnable);
      var (st', out) := Passes(st, f, w, from, limit);
      (out.HandOver? && f.newer(out.slot)) <==> OverlookedOnce(st, f, w, from, limit)
    decreases limit - from
  {
    if from == limit {
    } else {
      var f := Found(NewerThan(base, fileTime), runnable);
      InstalledIgnoresAttempts(base, fileTime);
      PassOverlooksIff(st, f, w(from));
      var (st', out) := Round(st, f, w(from));
      if out == Again { NewestWinsUnlessOverlooked(st', base, fileTime, runnable, w, from + 1, limit); }
    }
  }

  lemma {:induction false} NewestWins(st: State, f: Found)
    requires IgnoresAttempts(f.newer)
    ensures var (st', out) := Launched(st, f);
      (out.HandOver? && f.newer(out.slot)) <==> Overlooked(st, f)
  {
    var (st1, out1) := Round(st, f, ALL_TAKEN);
    PassOverlooksIff(st, f, ALL_TAKEN);
    if out1 == Again {
      assert Launched(st, f) == Launched(st1, f);
      assert Launched(EMPTY, f) == (EMPTY, Installed);
      if st1 != EMPTY {
        assert st1.current.value.good && st1.previous.None?;
        PassOverlooksIff(st1, f, ALL_TAKEN);
        assert Launched(RolledBack(st1, st1.current.value), f) == (EMPTY, Installed);
      }
    }
  }

  /** With every save taken only the first pass can. */
  lemma {:induction false} NewestWinsWhenTaken(st: State, base: string, fileTime: Option<int>, runnable: set<string>)
    ensures var f := Found(NewerThan(base, fileTime), runnable);
      var (st', out) := Launched(st, f);
      (out.HandOver? && f.newer(out.slot)) <==> Overlooked(st, f)
  {
    InstalledIgnoresAttempts(base, fileTime);
    NewestWins(st, Found(NewerThan(base, fileTime), runnable));
  }

  lemma DevIsNoRelease()
    ensures ParseSpec("dev").None?
  {
    assert IndexOf("dev", '+') == 3 && IndexOf("dev", '-') == 3 && IndexOf("dev", '.') == 3;
    assert TrimLeft("dev") == "dev" && TrimRight("dev") == "dev";
    assert "dev"[..3] == "dev";
  }

  /** b does not stay up, a ran before. */
  function Failing(attempts: nat): State {
    State(Some(Slot("b", 10, false, attempts)), Some(Slot("a", 1, true, 0)))
  }

  /** A file that is newer than the slot applied at 1 and older than the one applied at 10. */
  function NewFile(): Found {
    Found(NewerThan("dev", Some(5)), {"a", "b"})
  }

  /** A start that finds it, with every save taken. */
  function Failed(): Event {
    Start(NewFile(), (n: nat) => ALL_TAKEN, 3)
  }

  lemma FailedStart(events: seq<Event>, attempts: nat)
    requires attempts < MAX_ATTEMPTS && After(events).st == Failing(attempts)
    ensures After(events + [Failed()]).st == Failing(attempts + 1)
  {
    DevIsNoRelease();
    AfterPush(events, Failed());
  }

  lemma AppliedTwice()
    ensures After([Apply("a", 1)] + [Good("a")] + [Apply("b", 10)]).st == Failing(0)
  {
    AfterPush([], Apply("a", 1));
    assert [] + [Apply("a", 1)] == [Apply("a", 1)];
    AfterPush([Apply("a", 1)], Good("a"));
    AfterPush([Apply("a", 1)] + [Good("a")], Apply("b", 10));
  }

  /** Version a ran, a newer file was installed, b was applied and did not stay up: the fourth start hands over to a. */
  lemma OverlookedExample()
    ensures var start := Failed();
      var st := After([Apply("a", 1)] + [Good("a")] + [Apply("b", 10)] + [start] + [start] + [start]).st;
      Overlooked(st, NewFile()) && Launched(st, NewFile()).1 == HandOver(Slot("a", 1, true, 0))
  {
    var start := Failed();
    var applied := [Apply("a", 1)] + [Good("a")] + [Apply("b", 10)];
    AppliedTwice();
    FailedStart(applied, 0);
    FailedStart(applied + [start], 1);
    FailedStart(applied + [start] + [start], 2);
  }

  // ---- when state.json cannot be written

  /** The slot that is left after counting an attempt is there but cannot run. */
  predicate Stuck(st: State, f: Found) {
    && st.current.Some? && !f.newer(st.current.value)
    && Tried(st, st.current.value).current.Some? && Tried(st, st.current.value).current.value.version !in f.runnable
  }

  function Refused(): nat -> Writes {
    (n: nat) => ALL_REFUSED
  }

  /** Launch then ends exactly when it is not stuck; otherwise it calls itself for ever. */
  lemma RefusedWritesEndIff(st: State, f: Found)
    ensures (exists n: nat :: Passes(st, f, Refused(), 0, n).1 != Again) <==> !Stuck(st, f)
  {
    if Stuck(st, f) {
      forall n: nat ensures Passes(st, f, Refused(), 0, n).1 == Again { StuckForever(st, f, 0, n); }
    } else {
      assert Passes(st, f, Refused(), 0, 1) == Round(st, f, ALL_REFUSED);
    }
  }

  lemma {:induction false} StuckForever(st: State, f: Found, from: nat, limit: nat)
    requires Stuck(st, f) && from <= limit
    ensures Passes(st, f, Refused(), from, limit) == (st, Again)
    decreases limit - from
  {
    if from == limit {
    } else {
      StuckForever(st, f, from + 1, limit);
    }
  }

  /** An update whose binary is gone while nothing can be written. */
  lemma StuckExample(n: nat)
    ensures var st, f := After([Apply("a", 1)]).st, Found((c: Slot) => false, {});
      Stuck(st, f) && Passes(st, f, Refused(), 0, n).1 == Again
  {
    var f := Found((c: Slot) => false, {});
    AfterPush([], Apply("a", 1));
    assert [] + [Apply("a", 1)] == [Apply("a", 1)];
    StuckForever(After([Apply("a", 1)]).st, f, 0, n);
  }
}
