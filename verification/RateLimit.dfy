/** Sliding-window rate limits per address (internal/analysis/ratelimit.go), against the whole history. */
module RateLimit {
  import opened Basics

  const MINUTE := 60_000_000_000
  const HOUR := 60 * MINUTE

  /** The times after cutoff, in order. */
  function Later(times: seq<int>, cutoff: int): seq<int> {
    if times == [] then []
    else
      var t := times[|times| - 1];
      Later(times[..|times| - 1], cutoff) + if t > cutoff then [t] else []
  }

  lemma LaterPush(times: seq<int>, t: int, cutoff: int)
    ensures Later(times + [t], cutoff) == Later(times, cutoff) + if t > cutoff then [t] else []
  {
    assert (times + [t])[..|times|] == times;
  }

  lemma {:induction false} LaterTwice(times: seq<int>, c: int, d: int)
    requires c <= d
    ensures Later(Later(times, c), d) == Later(times, d)
  {
    if times == [] {
    } else {
      LaterTwice(times[..|times| - 1], c, d);
      var rest, t := Later(times[..|times| - 1], c), times[|times| - 1];
      assert rest + [] == rest;
      if t > c { LaterPush(rest, t, d); }
    }
  }

  /** filterAfter: the array's first n times are compacted in place; the first k of it are then those after cutoff. */
  method FilterInPlace(times: array<int>, n: nat, cutoff: int) returns (k: nat)
    requires n <= times.Length
    modifies times
    ensures k <= n && times[..k] == Later(old(times[..n]), cutoff)
    ensures times[n..] == old(times[n..])
  {
    k := 0;
    for i := 0 to n
      invariant k <= i && times[..k] == Later(old(times[..i]), cutoff)
      invariant times[i..] == old(times[i..])
    {
      assert old(times[..i + 1])[..i] == old(times[..i]);
      assert times[i] == times[i..][0] == old(times[i..])[0];
      if times[i] > cutoff {
        ghost var rest := times[i..];
        times[k] := times[i];
        k := k + 1;
        assert times[..k] == times[..k - 1] + [times[k - 1]];
        assert times[i + 1..] == rest[1..];
      }
      assert old(times[i..])[1..] == old(times[i + 1..]);
    }
  }

  // ---- the limits, on the whole history

  /** How many times lie after lo and not after hi. */
  function Count(times: seq<int>, lo: int, hi: int): nat {
    if times == [] then 0
    else
      var t := times[|times| - 1];
      Count(times[..|times| - 1], lo, hi) + if lo < t <= hi then 1 else 0
  }

  /** How many times lie in the stretch of the given length that ends with t. */
  function InStretch(times: seq<int>, span: int, t: int): nat {
    Count(times, t - span, t)
  }

  /** No half-open stretch of the given length holds more than limit times; no limit when it is not positive. */
  ghost predicate Bounded(times: seq<int>, span: int, limit: int) {
    limit > 0 ==> forall t :: InStretch(times, span, t) <= limit
  }

  predicate RoomFor(times: seq<int>, now: int, span: int, limit: int) {
    limit > 0 ==> |Later(times, now - span)| < limit
  }

  predicate Admits(times: seq<int>, now: int, perMinute: int, perHour: int) {
    RoomFor(times, now, MINUTE, perMinute) && RoomFor(times, now, HOUR, perHour)
  }

  lemma {:induction false} CountWithin(times: seq<int>, lo: int, hi: int, cutoff: int)
    requires cutoff <= lo
    ensures Count(times, lo, hi) <= |Later(times, cutoff)|
  {
    if times == [] {
    } else {
      CountWithin(times[..|times| - 1], lo, hi, cutoff);
    }
  }

  predicate NotAfter(times: seq<int>, now: int) {
    forall i :: 0 <= i < |times| ==> times[i] <= now
  }

  /** The stretch that ends now holds what is later than its beginning. */
  lemma {:induction false} RoomIsCount(times: seq<int>, now: int, span: int)
    requires NotAfter(times, now)
    ensures |Later(times, now - span)| == InStretch(times, span, now)
  {
    if times == [] {
    } else {
      RoomIsCount(times[..|times| - 1], now, span);
    }
  }

  /** Room, in nanoseconds and numbers of connections; a limit that is not positive is none. */
  lemma AdmitsIff(times: seq<int>, now: int, perMinute: int, perHour: int)
    requires NotAfter(times, now)
    ensures Admits(times, now, perMinute, perHour) <==>
      && (perMinute <= 0 || InStretch(times, 60_000_000_000, now) < perMinute)
      && (perHour <= 0 || InStretch(times, 3_600_000_000_000, now) < perHour)
  {
    RoomIsCount(times, now, MINUTE);
    RoomIsCount(times, now, HOUR);
  }

  /** One more time keeps the bound when there was room for it. */
  lemma BoundedPush(times: seq<int>, now: int, span: int, limit: int)
    requires span > 0 && Bounded(times, span, limit) && NotAfter(times, now) && RoomFor(times, now, span, limit)
    ensures Bounded(times + [now], span, limit)
  {
    assert (times + [now])[..|times|] == times;
    if limit > 0 {
      forall t ensures InStretch(times + [now], span, t) <= limit {
        assert InStretch(times, span, t) <= limit;
        if t - span < now <= t {
          CountWithin(times, t - span, t, now - span);
        }
      }
    }
  }

  // ---- the limiter

  datatype Windows = Windows(minute: seq<int>, hour: seq<int>)

  /** The kept times stand for the whole history as far as any cutoff from bound on can tell. */
  ghost predicate StandsFor(kept: seq<int>, times: seq<int>, bound: int) {
    forall c :: c >= bound ==> Later(kept, c) == Later(times, c)
  }

  lemma {:induction false} Evicted(kept: seq<int>, times: seq<int>, bound: int, cutoff: int)
    requires StandsFor(kept, times, bound) && cutoff >= bound
    ensures Later(kept, cutoff) == Later(times, cutoff)
    ensures StandsFor(Later(kept, cutoff), times, cutoff)
  {
    forall c | c >= cutoff ensures Later(Later(kept, cutoff), c) == Later(times, c) {
      LaterTwice(kept, cutoff, c);
    }
  }

  lemma Recorded(kept: seq<int>, times: seq<int>, bound: int, now: int)
    requires StandsFor(kept, times, bound)
    ensures StandsFor(kept + [now], times + [now], bound)
  {
    forall c | c >= bound ensures Later(kept + [now], c) == Later(times + [now], c) {
      LaterPush(kept, now, c);
      LaterPush(times, now, c);
    }
  }

  /** One address: its windows stand for its history, which keeps both limits. */
  ghost predicate Sound(w: Windows, times: seq<int>, latest: int, perMinute: int, perHour: int) {
    && StandsFor(w.minute, times, latest - MINUTE)
    && StandsFor(w.hour, times, latest - HOUR)
    && NotAfter(times, latest)
    && Bounded(times, MINUTE, perMinute) && Bounded(times, HOUR, perHour)
  }

  function Trimmed(w: Windows, now: int): Windows {
    Windows(Later(w.minute, now - MINUTE), Later(w.hour, now - HOUR))
  }

  lemma SoundTrimmed(w: Windows, times: seq<int>, latest: int, now: int, perMinute: int, perHour: int)
    requires Sound(w, times, latest, perMinute, perHour) && now >= latest
    ensures Sound(w, times, now, perMinute, perHour)
    ensures Sound(Trimmed(w, now), times, now, perMinute, perHour)
    ensures |Trimmed(w, now).minute| == |Later(times, now - MINUTE)| && |Trimmed(w, now).hour| == |Later(times, now - HOUR)|
  {
    Evicted(w.minute, times, latest - MINUTE, now - MINUTE);
    Evicted(w.hour, times, latest - HOUR, now - HOUR);
  }

  lemma SoundRecorded(w: Windows, times: seq<int>, now: int, perMinute: int, perHour: int)
    requires Sound(w, times, now, perMinute, perHour) && Admits(times, now, perMinute, perHour)
    ensures Sound(Windows(w.minute + [now], w.hour + [now]), times + [now], now, perMinute, perHour)
  {
    Recorded(w.minute, times, now - MINUTE, now);
    Recorded(w.hour, times, now - HOUR, now);
    BoundedPush(times, now, MINUTE, perMinute);
    BoundedPush(times, now, HOUR, perHour);
  }

  ghost predicate AllSound(connections: map<string, Windows>, history: map<string, seq<int>>, latest: int, perMinute: int, perHour: int) {
    forall ip :: Sound(At(connections, ip, Windows([], [])), At(history, ip, []), latest, perMinute, perHour)
  }

  lemma OneChanged(conns: map<string, Windows>, history: map<string, seq<int>>, history': map<string, seq<int>>, ip: string, w: Windows,
      latest: int, now: int, perMinute: int, perHour: int)
    requires AllSound(conns, history, latest, perMinute, perHour) && now >= latest
    requires Sound(w, At(history', ip, []), now, perMinute, perHour)
    requires forall other :: other != ip ==> At(history', other, []) == At(history, other, [])
    ensures AllSound(conns[ip := w], history', now, perMinute, perHour)
  {
    forall other ensures Sound(At(conns[ip := w], other, Windows([], [])), At(history', other, []), now, perMinute, perHour) {
      if other != ip {
        SoundTrimmed(At(conns, other, Windows([], [])), At(history, other, []), latest, now, perMinute, perHour);
      }
    }
  }

  /** The windows of one address when a connection comes in: old times go, and the new one is added if it is admitted. */
  method Attempt(w: Windows, ghost times: seq<int>, ghost latest: int, now: int, perMinute: int, perHour: int) returns (ok: bool, conn: Windows)
    requires Sound(w, times, latest, perMinute, perHour) && now >= latest
    ensures ok <==> Admits(times, now, perMinute, perHour)
    ensures Sound(conn, if ok then times + [now] else times, now, perMinute, perHour)
  {
    SoundTrimmed(w, times, latest, now, perMinute, perHour);
    conn := Trimmed(w, now);
    if perMinute > 0 && |conn.minute| >= perMinute {
      return false, conn;
    }
    if perHour > 0 && |conn.hour| >= perHour {
      return false, conn;
    }
    SoundRecorded(conn, times, now, perMinute, perHour);
    return true, Windows(conn.minute + [now], conn.hour + [now]);
  }

  class RateLimiter {
    const perMinute: int
    const perHour: int
    var connections: map<string, Windows>
    ghost var history: map<string, seq<int>>   // every admitted connection
    ghost var latest: int

    /** The windows stand for the history, and the history keeps both limits. */
    ghost predicate Valid()
      reads this
    {
      AllSound(connections, history, latest, perMinute, perHour)
    }

    constructor (perMinute: int, perHour: int, start: int)
      ensures Valid() && this.perMinute == perMinute && this.perHour == perHour && history == map[] && latest == start
    {
      this.perMinute, this.perHour, connections, history, latest := perMinute, perHour, map[], map[], start;
      new;
    }

    /** Records a connection and admits it if it is within the limits. */
    method Check(ip: string, now: int) returns (ok: bool)
      requires Valid() && now >= latest
      modifies this
      ensures Valid() && latest == now
      ensures ok <==> Admits(At(old(history), ip, []), now, perMinute, perHour)
      ensures history == if ok then old(history)[ip := At(old(history), ip, []) + [now]] else old(history)
    {
      ghost var times := At(history, ip, []);
      var conn;
      ok, conn := Attempt(At(connections, ip, Windows([], [])), times, latest, now, perMinute, perHour);
      ghost var history' := if ok then history[ip := times + [now]] else history;
      OneChanged(connections, history, history', ip, conn, latest, now, perMinute, perHour);
      connections := connections[ip := conn];
      history, latest := history', now;
    }

    /** Forgets addresses without recent connections; no later answer can tell. */
    method Cleanup(now: int)
      requires Valid() && now >= latest
      modifies this
      ensures Valid() && latest == now && history == old(history)
      ensures forall ip :: At(connections, ip, Windows([], [])) == Trimmed(At(old(connections), ip, Windows([], [])), now)
      ensures forall ip :: ip in connections ==> connections[ip] != Windows([], [])
    {
      connections := Swept(connections, now);
      latest := now;
      forall ip ensures Sound(At(connections, ip, Windows([], [])), At(history, ip, []), now, perMinute, perHour) {
        SoundTrimmed(At(old(connections), ip, Windows([], [])), At(history, ip, []), old(latest), now, perMinute, perHour);
      }
    }

    method Swept(conns: map<string, Windows>, now: int) returns (kept: map<string, Windows>)
      ensures forall ip :: At(kept, ip, Windows([], [])) == Trimmed(At(conns, ip, Windows([], [])), now)
      ensures forall ip :: ip in kept ==> kept[ip] != Windows([], [])
    {
      kept := map[];
      var todo := conns.Keys;
      while todo != {}
        invariant todo <= conns.Keys && kept.Keys <= conns.Keys - todo
        invariant forall ip :: ip in conns && ip !in todo ==> At(kept, ip, Windows([], [])) == Trimmed(conns[ip], now)
        invariant forall ip :: ip in kept ==> kept[ip] != Windows([], [])
        decreases todo
      {
        var ip :| ip in todo;
        todo := todo - {ip};
        var conn := Trimmed(conns[ip], now);
        if !(|conn.minute| == 0 && |conn.hour| == 0) {
          kept := kept[ip := conn];
        }
      }
    }
  }
}
