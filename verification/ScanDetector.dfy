/** The port-scan detector (internal/analysis/detector.go), against the whole history of touched ports. */
module ScanDetector {
  import opened Basics

  datatype Port = Port(number: int)
  datatype Touch = Touch(port: Port, at: int)

  datatype Tracker = Tracker(ports: map<Port, int>, reported: bool)

  /** The distinct ports touched at since or later, in the whole history. */
  function Recent(touches: seq<Touch>, since: int): set<Port> {
    if touches == [] then {}
    else
      var t := touches[|touches| - 1];
      Recent(touches[..|touches| - 1], since) + if t.at >= since then {t.port} else {}
  }

  /** What the history says about its latest touch. */
  predicate Scanning(touches: seq<Touch>, window: int, threshold: int) {
    touches != [] && |Recent(touches, touches[|touches| - 1].at - window)| >= threshold
  }

  /** The i-th touch is the one that began a burst: it was scanning, the one before it was not. */
  predicate Begins(touches: seq<Touch>, i: nat, window: int, threshold: int)
    requires i < |touches|
  {
    Scanning(touches[..i + 1], window, threshold) && !Scanning(touches[..i], window, threshold)
  }

  /** Between two touches that began a burst lies one that was not scanning. */
  lemma BurstsAreApart(touches: seq<Touch>, i: nat, j: nat, window: int, threshold: int)
    requires i < j < |touches| && Begins(touches, i, window, threshold) && Begins(touches, j, window, threshold)
    ensures exists k {:trigger touches[..k + 1]} :: i < k < j && !Scanning(touches[..k + 1], window, threshold)
  {
    var k := j - 1;
    assert touches[..k + 1] == touches[..j];
    assert i < k;
  }

  function KeptSince(ports: map<Port, int>, since: int): (kept: map<Port, int>)
    ensures forall p :: p in kept <==> p in ports && ports[p] >= since
    ensures forall p :: p in kept ==> kept[p] == ports[p]
  {
    map p | p in ports && ports[p] >= since :: ports[p]
  }

  /** The remembered ports stand for the history as far as any moment from bound on can tell. */
  ghost predicate StandsFor(ports: map<Port, int>, touches: seq<Touch>, bound: int) {
    forall since :: since >= bound ==> KeptSince(ports, since).Keys == Recent(touches, since)
  }

  predicate NotAfter(ports: map<Port, int>, now: int) {
    forall p :: p in ports ==> ports[p] <= now
  }

  lemma {:induction false} RecentShrinks(touches: seq<Touch>, since: int, later: int)
    requires since <= later
    ensures Recent(touches, later) <= Recent(touches, since)
  {
    if touches == [] {
    } else {
      RecentShrinks(touches[..|touches| - 1], since, later);
    }
  }

  lemma Touched(ports: map<Port, int>, touches: seq<Touch>, bound: int, port: Port, now: int)
    requires StandsFor(ports, touches, bound) && bound <= now && NotAfter(ports, now)
    ensures StandsFor(ports[port := now], touches + [Touch(port, now)], bound)
  {
    forall since | since >= bound
      ensures KeptSince(ports[port := now], since).Keys == Recent(touches + [Touch(port, now)], since)
    {
      var kept, kept' := KeptSince(ports, since).Keys, KeptSince(ports[port := now], since).Keys;
      if since <= now {
        assert kept' == kept + {port};
      } else {
        assert kept == {} && kept' == {};
      }
    }
  }

  lemma {:induction false} Evicted(ports: map<Port, int>, touches: seq<Touch>, bound: int, since: int)
    requires StandsFor(ports, touches, bound) && since >= bound
    ensures StandsFor(KeptSince(ports, since), touches, since)
    ensures KeptSince(ports, since).Keys == Recent(touches, since)
  {
    forall s | s >= since ensures KeptSince(KeptSince(ports, since), s).Keys == Recent(touches, s) {
      assert KeptSince(KeptSince(ports, since), s) == KeptSince(ports, s);
    }
  }

  /** Removes the ports last touched before cutoff, in any order. */
  method Evict(ports: map<Port, int>, cutoff: int) returns (kept: map<Port, int>)
    ensures kept == KeptSince(ports, cutoff)
  {
    kept := ports;
    var todo: set<Port> := ports.Keys;
    while todo != {}
      invariant todo <= ports.Keys && kept.Keys <= ports.Keys
      invariant forall p :: p in ports ==> (p in kept <==> (p in todo || ports[p] >= cutoff))
      invariant forall p :: p in kept ==> kept[p] == ports[p]
      decreases todo
    {
      var p: Port :| p in todo;
      if ports[p] < cutoff {
        kept := kept - {p};
      }
      todo := todo - {p};
    }
  }

  // ---- one address

  const FRESH := Tracker(map[], false)

  /** A tracker stands for its address's history; without one, nothing was touched within the window. */
  ghost predicate Sound(t: Option<Tracker>, touches: seq<Touch>, latest: int, window: int, threshold: int) {
    match t
    case Some(t) =>
      && StandsFor(t.ports, touches, latest - window)
      && NotAfter(t.ports, latest)
      && t.reported == Scanning(touches, window, threshold)
    case None => Recent(touches, latest - window) == {}
  }

  lemma SoundLater(t: Option<Tracker>, touches: seq<Touch>, latest: int, now: int, window: int, threshold: int)
    requires Sound(t, touches, latest, window, threshold) && now >= latest
    ensures Sound(t, touches, now, window, threshold)
  {
    RecentShrinks(touches, latest - window, now - window);
  }

  /** Without recent touches no port at all stands for the history. */
  lemma NothingRecent(touches: seq<Touch>, bound: int)
    requires Recent(touches, bound) == {}
    ensures StandsFor(map[], touches, bound)
  {
    forall since | since >= bound ensures KeptSince(map[], since).Keys == Recent(touches, since) {
      RecentShrinks(touches, bound, since);
    }
  }

  /** What cleanup leaves of a tracker. */
  function Cleaned(t: Option<Tracker>, cutoff: int): Option<Tracker> {
    if t.None? then None
    else
      var ports := KeptSince(t.value.ports, cutoff);
      if |ports| == 0 then None else Some(Tracker(ports, t.value.reported))
  }

  lemma CleanupInvisible(t: Option<Tracker>, touches: seq<Touch>, latest: int, now: int, window: int, threshold: int)
    requires Sound(t, touches, latest, window, threshold) && now >= latest
    ensures Sound(Cleaned(t, now - window), touches, now, window, threshold)
  {
    if t.Some? {
      var ports := KeptSince(t.value.ports, now - window);
      assert StandsFor(ports, touches, now - window) && ports.Keys == Recent(touches, now - window) by {
        Evicted(t.value.ports, touches, latest - window, now - window);
      }
    } else {
      SoundLater(t, touches, latest, now, window, threshold);
    }
  }

  /** The ports within the window after one more touch. */
  lemma TouchedSound(ports: map<Port, int>, touches: seq<Touch>, port: Port, now: int, window: int, threshold: int)
    requires StandsFor(ports, touches, now - window) && NotAfter(ports, now) && window > 0
    requires KeptSince(ports, now - window) == ports
    ensures var ports', touches' := ports[port := now], touches + [Touch(port, now)];
      && (|ports'| >= threshold <==> Scanning(touches', window, threshold))
      && Sound(Some(Tracker(ports', |ports'| >= threshold)), touches', now, window, threshold)
  {
    var ports', touches' := ports[port := now], touches + [Touch(port, now)];
    assert StandsFor(ports', touches', now - window) by { Touched(ports, touches, now - window, port, now); }
    assert |ports'| >= threshold <==> Scanning(touches', window, threshold) by {
      assert KeptSince(ports', now - window) == ports';
    }
  }

  /** One connection seen by one address's tracker. */
  method Touching(t: Tracker, port: Port, now: int, window: int, threshold: int, ghost touches: seq<Touch>)
    returns (out: Tracker, scanning: bool, first: bool)
    requires StandsFor(t.ports, touches, now - window) && NotAfter(t.ports, now) && window > 0
    ensures scanning == Scanning(touches + [Touch(port, now)], window, threshold)
    ensures first == (scanning && !t.reported)
    ensures Sound(Some(out), touches + [Touch(port, now)], now, window, threshold)
  {
    var ports := Evict(t.ports, now - window);
    assert StandsFor(ports, touches, now - window) by { Evicted(t.ports, touches, now - window, now - window); }
    TouchedSound(ports, touches, port, now, window, threshold);
    ports := ports[port := now];
    if |ports| < threshold {
      return Tracker(ports, false), false, false;
    }
    return Tracker(ports, true), true, !t.reported;
  }

  // ---- the detector

  ghost predicate AllSound(trackers: map<string, Tracker>, touches: map<string, seq<Touch>>, latest: int, window: int, threshold: int) {
    forall ip :: Sound(Find(trackers, ip), At(touches, ip, []), latest, window, threshold)
  }

  lemma OneChanged(trackers: map<string, Tracker>, touches: map<string, seq<Touch>>, latest: int, window: int, threshold: int,
      ip: string, t: Tracker, touched: seq<Touch>, now: int)
    requires AllSound(trackers, touches, latest, window, threshold) && now >= latest
    requires Sound(Some(t), touched, now, window, threshold)
    ensures AllSound(trackers[ip := t], touches[ip := touched], now, window, threshold)
  {
    var trackers', touches' := trackers[ip := t], touches[ip := touched];
    forall other ensures Sound(Find(trackers', other), At(touches', other, []), now, window, threshold) {
      if other != ip {
        SoundLater(Find(trackers, other), At(touches, other, []), latest, now, window, threshold);
      }
    }
  }

  lemma AllCleaned(trackers: map<string, Tracker>, kept: map<string, Tracker>, touches: map<string, seq<Touch>>,
      latest: int, now: int, window: int, threshold: int)
    requires AllSound(trackers, touches, latest, window, threshold) && now >= latest
    requires forall ip :: Find(kept, ip) == Cleaned(Find(trackers, ip), now - window)
    ensures AllSound(kept, touches, now, window, threshold)
  {
    forall ip ensures Sound(Find(kept, ip), At(touches, ip, []), now, window, threshold) {
      CleanupInvisible(Find(trackers, ip), At(touches, ip, []), latest, now, window, threshold);
    }
  }

  /** A forgotten address's next touch is alone in its window. */
  lemma AloneAfterForgetting(touches: seq<Touch>, latest: int, port: Port, now: int, window: int, threshold: int)
    requires Recent(touches, latest - window) == {} && now >= latest && threshold >= 2
    ensures !Scanning(touches + [Touch(port, now)], window, threshold)
  {
    RecentShrinks(touches, latest - window, now - window);
    assert Recent(touches + [Touch(port, now)], now - window) <= {port};
    Card(Recent(touches + [Touch(port, now)], now - window), port);
  }

  lemma Card(s: set<Port>, p: Port)
    requires s <= {p}
    ensures |s| <= 1
  {
    if p in s { assert s == {p}; } else { assert s == {}; }
  }

  /** The tracker a connection starts from: its address's own, or a new one. */
  lemma StartsSound(t: Option<Tracker>, touches: seq<Touch>, latest: int, now: int, window: int, threshold: int)
    requires Sound(t, touches, latest, window, threshold) && now >= latest
    ensures var tracker := if t.Some? then t.value else FRESH;
      StandsFor(tracker.ports, touches, now - window) && NotAfter(tracker.ports, now)
  {
    SoundLater(t, touches, latest, now, window, threshold);
    if t.None? { NothingRecent(touches, now - window); }
  }

  /** The answers for one address, from its tracker as it is. */
  method Answer(t: Option<Tracker>, ghost touches: seq<Touch>, ghost latest: int, port: Port, now: int, window: int, threshold: int)
    returns (out: Tracker, scanning: bool, first: bool)
    requires Sound(t, touches, latest, window, threshold) && now >= latest && window > 0
    ensures Sound(Some(out), touches + [Touch(port, now)], now, window, threshold)
    ensures scanning == Scanning(touches + [Touch(port, now)], window, threshold)
    ensures first == (scanning && (t.None? || !Scanning(touches, window, threshold)))
    ensures threshold >= 2 ==> first == Begins(touches + [Touch(port, now)], |touches|, window, threshold)
  {
    StartsSound(t, touches, latest, now, window, threshold);
    out, scanning, first := Touching(if t.Some? then t.value else FRESH, port, now, window, threshold, touches);
    if t.None? && threshold >= 2 {
      AloneAfterForgetting(touches, latest, port, now, window, threshold);
    }
    assert (touches + [Touch(port, now)])[..|touches|] == touches;
    assert (touches + [Touch(port, now)])[..|touches| + 1] == touches + [Touch(port, now)];
  }

  class Detector {
    const window: int
    const threshold: int
    var trackers: map<string, Tracker>
    ghost var touches: map<string, seq<Touch>>   // every connection
    ghost var latest: int

    ghost predicate Valid()
      reads this
    {
      window > 0 && threshold > 0 && AllSound(trackers, touches, latest, window, threshold)
    }

    constructor (scanWindow: int, scanThreshold: int, start: int)
      ensures Valid() && touches == map[] && latest == start
      ensures window == (if scanWindow <= 0 then 60_000_000_000 else scanWindow)
      ensures threshold == (if scanThreshold <= 0 then 5 else scanThreshold)
    {
      window := if scanWindow <= 0 then 60_000_000_000 else scanWindow;
      threshold := if scanThreshold <= 0 then 5 else scanThreshold;
      trackers, touches, latest := map[], map[], start;
    }

    /**
     scanning exactly when enough distinct ports were touched within the window.
     first exactly when this touch began a burst, however often cleanup ran in
     between, for thresholds of two or more; for a threshold of one, a forgotten
     address is first again.
     */
    method RecordPort(ip: string, port: Port, now: int) returns (scanning: bool, first: bool)
      requires Valid() && now >= latest
      modifies this
      ensures Valid() && latest == now
      ensures touches == old(touches)[ip := At(old(touches), ip, []) + [Touch(port, now)]]
      ensures scanning == Scanning(touches[ip], window, threshold)
      ensures first == (scanning && (ip !in old(trackers) || !Scanning(At(old(touches), ip, []), window, threshold)))
      ensures threshold >= 2 ==> first == Begins(touches[ip], |touches[ip]| - 1, window, threshold)
    {
      ghost var touched := At(touches, ip, []);
      var t;
      t, scanning, first := Answer(Find(trackers, ip), touched, latest, port, now, window, threshold);
      OneChanged(trackers, touches, latest, window, threshold, ip, t, touched + [Touch(port, now)], now);
      trackers := trackers[ip := t];
      touches, latest := touches[ip := touched + [Touch(port, now)]], now;
    }

    /** Forgets ports outside the window, and addresses without any left; no later answer can tell. */
    method Cleanup(now: int)
      requires Valid() && now >= latest
      modifies this
      ensures Valid() && latest == now && touches == old(touches)
      ensures forall ip :: Find(trackers, ip) == Cleaned(Find(old(trackers), ip), now - window)
      ensures forall ip :: ip in trackers ==> trackers[ip].ports != map[]
    {
      var kept := Swept(trackers, now - window);
      AllCleaned(trackers, kept, touches, latest, now, window, threshold);
      trackers, latest := kept, now;
    }
  }

  method Swept(trackers: map<string, Tracker>, cutoff: int) returns (kept: map<string, Tracker>)
    ensures forall ip :: Find(kept, ip) == Cleaned(Find(trackers, ip), cutoff)
    ensures forall ip :: ip in kept ==> kept[ip].ports != map[]
  {
    kept := map[];
    var todo: set<string> := trackers.Keys;
    while todo != {}
      invariant todo <= trackers.Keys && kept.Keys <= trackers.Keys - todo
      invariant forall ip :: ip in trackers && ip !in todo ==> Find(kept, ip) == Cleaned(Find(trackers, ip), cutoff)
      invariant forall ip :: ip in kept ==> kept[ip].ports != map[]
      decreases todo
    {
      var ip: string :| ip in todo;
      todo := todo - {ip};
      var ports := Evict(trackers[ip].ports, cutoff);
      if |ports| != 0 {
        kept := kept[ip := Tracker(ports, trackers[ip].reported)];
      }
    }
  }

  /** With a threshold of one, an address that cleanup has forgotten is first again, in the middle of a burst. */
  method ForgottenRun(ip: string) returns (d: Detector, first: bool)
    ensures d.Valid() && d.threshold == 1 && first && ip in d.touches && |d.touches[ip]| == 2
    ensures !Begins(d.touches[ip], 1, d.window, 1)
  {
    d := new Detector(10, 1, 0);
    var scanning;
    scanning, first := d.RecordPort(ip, Port(80), 0);
    ghost var touched := d.touches[ip];
    d.Cleanup(20);
    assert Find(d.trackers, ip) == None by { Outdated(touched, 10); }
    scanning, first := d.RecordPort(ip, Port(80), 21);
    assert d.touches[ip][..1] == touched;
  }

  lemma Outdated(touches: seq<Touch>, since: int)
    requires touches == [Touch(Port(80), 0)] && since > 0
    ensures Recent(touches, since) == {}
  {
    assert touches[..0] == [];
  }
}
