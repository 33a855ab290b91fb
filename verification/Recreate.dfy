/**
 Replacing a Docker container by a changed copy (internal/containers/docker.go):
 a sequence of daemon calls, any of which may fail, that never loses the old
 container before the new one is ready.
 */
module Recreate {
  import opened Basics
  import opened Text

  /** A bind entry of a container's configuration: its target, when it has one, and the volume it names. */
  datatype Bind = Bind(target: Option<string>, volume: string, readOnly: bool)

  datatype Mount = Mount(isVolume: bool, name: string, destination: string, rw: bool)

  /** The configuration a new container is created with; settings stand for all that a change may touch. */
  datatype Config = Config(
    hostname: Option<string>,
    image: string,
    settings: map<string, string>,
    mode: string,
    binds: seq<Bind>,
    mountTargets: set<string>)

  datatype Container = Container(
    name: string,
    running: bool, paused: bool, autoRemove: bool,
    imageId: string,           // what it runs
    networks: set<string>,
    mounts: seq<Mount>,
    config: Config)

  const PSEUDO_NETWORKS := {"host", "none"}

  // ---- what the copy keeps

  predicate Covered(binds: seq<Bind>, targets: set<string>, dest: string) {
    dest in targets || exists b :: b in binds && b.target == Some(dest)
  }

  predicate AllVolumesCovered(c: Config, mounts: seq<Mount>) {
    forall m :: m in mounts && m.isVolume && m.name != "" ==> Covered(c.binds, c.mountTargets, m.destination)
  }

  /** The bind names a mounted volume, which has a name, at a place the configuration says nothing about. */
  predicate CarriedOver(b: Bind, c: Config, mounts: seq<Mount>) {
    && b.target.Some? && b.volume != ""
    && !Covered(c.binds, c.mountTargets, b.target.value)
    && Mount(true, b.volume, b.target.value, !b.readOnly) in mounts
  }

  /** Volumes that the configuration does not name are carried over by name. */
  method KeepAnonymousVolumes(c: Config, mounts: seq<Mount>) returns (out: Config)
    ensures out == c.(binds := out.binds) && c.binds <= out.binds
    ensures AllVolumesCovered(out, mounts)
    ensures forall b :: b in out.binds[|c.binds|..] ==> CarriedOver(b, c, mounts)
  {
    var covered := c.mountTargets;
    for i := 0 to |c.binds|
      invariant forall d :: d in covered <==> Covered(c.binds[..i], c.mountTargets, d)
    {
      assert c.binds[..i + 1] == c.binds[..i] + [c.binds[i]];
      if c.binds[i].target.Some? {
        covered := covered + {c.binds[i].target.value};
      }
    }
    assert c.binds[..|c.binds|] == c.binds;
    var binds := c.binds;
    for i := 0 to |mounts|
      invariant c.binds <= binds
      invariant forall m :: m in mounts[..i] && m.isVolume && m.name != "" ==> Covered(binds, c.mountTargets, m.destination)
      invariant forall b :: b in binds[|c.binds|..] ==> CarriedOver(b, c, mounts)
    {
      assert mounts[..i + 1] == mounts[..i] + [mounts[i]];
      var m := mounts[i];
      if !m.isVolume || m.name == "" || m.destination in covered {
        assert m.destination in covered ==> Covered(binds, c.mountTargets, m.destination) by {
          assert forall b :: b in c.binds ==> b in binds;
        }
        continue;
      }
      var b := Bind(Some(m.destination), m.name, !m.rw);
      ghost var was := binds;
      binds := binds + [b];
      assert binds[|c.binds|..] == was[|c.binds|..] + [b];
      assert forall x :: x in was ==> x in binds;
      assert b in binds;
    }
    assert mounts[..|mounts|] == mounts;
    out := c.(binds := binds);
  }

  predicate Ascending(names: seq<string>) {
    forall i, j :: 0 <= i < j < |names| ==> StrLess(names[i], names[j])
  }

  method InsertName(names: seq<string>, n: string) returns (out: seq<string>)
    requires Ascending(names) && n !in names
    ensures Ascending(out) && forall x :: x in out <==> x in names || x == n
  {
    var k := 0;
    while k < |names| && StrLess(names[k], n)
      invariant k <= |names| && forall i :: 0 <= i < k ==> StrLess(names[i], n)
    {
      k := k + 1;
    }
    forall i | k <= i < |names| ensures StrLess(n, names[i]) {
      StrLessOrder(n, names[k], names[i]);
    }
    assert names == names[..k] + names[k..];
    out := names[..k] + [n] + names[k..];
  }

  /** slices.Sorted(maps.Keys(nets)). */
  method NamesOf(nets: set<string>) returns (names: seq<string>)
    ensures Ascending(names) && forall n :: n in names <==> n in nets
  {
    names := [];
    var left: set<string> := nets;
    while left != {}
      invariant left <= nets && Ascending(names) && forall n :: n in names <==> n in nets - left
      decreases left
    {
      var n: string :| n in left;
      names := InsertName(names, n);
      left := left - {n};
    }
  }

  /** What of the names is left for later, in order. */
  function JoinedLater(names: seq<string>, primary: Option<string>): (rest: seq<string>)
    ensures forall n :: n in rest <==> n in names && primary != Some(n) && n !in PSEUDO_NETWORKS
  {
    if names == [] then []
    else
      assert names == names[..|names| - 1] + [names[|names| - 1]];
      var n := names[|names| - 1];
      JoinedLater(names[..|names| - 1], primary) + if primary != Some(n) && n !in PSEUDO_NETWORKS then [n] else []
  }

  lemma {:induction false} LaterAscends(names: seq<string>, primary: Option<string>)
    requires Ascending(names)
    ensures Ascending(JoinedLater(names, primary))
  {
    if names == [] {
    } else {
      var init := names[..|names| - 1];
      LaterAscends(init, primary);
      var rest := JoinedLater(init, primary);
      forall i | 0 <= i < |rest| ensures StrLess(rest[i], names[|names| - 1]) {
        assert rest[i] in init;
      }
    }
  }

  /** The network the container is created on, and the ones it joins afterwards. */
  method SplitNetworks(mode: string, nets: set<string>) returns (primary: Option<string>, rest: seq<string>)
    ensures primary.Some? <==> nets != {}
    ensures primary.Some? ==> primary.value in nets
    ensures mode in nets ==> primary == Some(mode)
    ensures mode !in nets && (mode == "default" || mode == "") && "bridge" in nets ==> primary == Some("bridge")
    ensures mode !in nets && nets != {} && !((mode == "default" || mode == "") && "bridge" in nets) ==>
      forall n :: n in nets && primary != Some(n) ==> StrLess(primary.value, n)
    ensures Ascending(rest) && forall n :: n in rest <==> n in nets && primary != Some(n) && n !in PSEUDO_NETWORKS
  {
    var names := NamesOf(nets);
    primary := None;
    if mode in nets {
      primary := Some(mode);
    } else if (mode == "default" || mode == "") && "bridge" in nets {
      primary := Some("bridge");
    }
    if primary.None? && |names| > 0 {
      assert names[0] in names;
      primary := Some(names[0]);
    }
    rest := [];
    for i := 0 to |names|
      invariant rest == JoinedLater(names[..i], primary)
    {
      assert names[..i + 1][..i] == names[..i];
      if primary != Some(names[i]) && names[i] !in PSEUDO_NETWORKS {
        rest := rest + [names[i]];
      }
    }
    assert names[..|names|] == names;
    LaterAscends(names, primary);
    if n :| n in nets { assert n in names; }
  }

  // ---- the daemon

  predicate NameFree(ctrs: map<nat, Container>, name: string) {
    forall k :: k in ctrs ==> ctrs[k].name != name
  }

  predicate NamesUnique(ctrs: map<nat, Container>) {
    forall j, k :: j in ctrs && k in ctrs && ctrs[j].name == ctrs[k].name ==> j == k
  }

  /** The image a reference stands for: the tag's, or the reference itself as an ID. */
  function Resolve(tags: map<string, string>, ref: string): string {
    if ref in tags then tags[ref] else ref
  }

  lemma SomeUnused(used: set<nat>) returns (top: nat)
    ensures top !in used
  {
    var left := used;
    top := 0;
    while left != {}
      invariant forall id :: id in used && id !in left ==> id < top
      decreases left
    {
      var id :| id in left;
      left, top := left - {id}, if id < top then top else id + 1;
    }
  }

  function Switched(ctrs: map<nat, Container>, id: nat, on: bool): map<nat, Container>
    requires id in ctrs
  {
    if !on && ctrs[id].autoRemove then ctrs - {id} else ctrs[id := ctrs[id].(running := on)]
  }

  /** A Docker daemon. Call number n fails unless obeys(n), and a call that fails changes nothing. */
  class Daemon {
    var ctrs: map<nat, Container>
    var calls: nat
    const obeys: nat -> bool
    const tags: map<string, string>
    ghost var past: seq<map<nat, Container>>   // every state it has been in

    constructor (ctrs: map<nat, Container>, tags: map<string, string>, obeys: nat -> bool)
      ensures this.ctrs == ctrs && this.tags == tags && this.obeys == obeys && past == [ctrs] && calls == 0
    {
      this.ctrs, this.tags, this.obeys, this.calls, this.past := ctrs, tags, obeys, 0, [ctrs];
    }

    /** One call that would lead to ctrs' if it is possible and the daemon obeys. */
    method Call(possible: bool, ctrs': map<nat, Container>) returns (ok: bool)
      modifies this
      ensures ok <==> possible && obeys(old(calls))
      ensures ctrs == (if ok then ctrs' else old(ctrs)) && past == old(past) + [ctrs] && calls == old(calls) + 1
    {
      ok := possible && obeys(calls);
      if ok { ctrs := ctrs'; }
      calls := calls + 1;
      past := past + [ctrs];
    }

    /** Starts or stops a container; stopping one that was made with --rm deletes it. */
    method SetRunning(id: nat, on: bool) returns (ok: bool)
      modifies this
      ensures ok <==> id in old(ctrs) && obeys(old(calls))
      ensures ctrs == (if ok then Switched(old(ctrs), id, on) else old(ctrs))
      ensures past == old(past) + [ctrs] && calls == old(calls) + 1
    {
      ok := Call(id in ctrs, if id in ctrs then Switched(ctrs, id, on) else ctrs);
    }

    method Rename(id: nat, name: string) returns (ok: bool)
      modifies this
      ensures ok <==> id in old(ctrs) && NameFree(old(ctrs), name) && obeys(old(calls))
      ensures ctrs == (if ok then old(ctrs)[id := old(ctrs)[id].(name := name)] else old(ctrs))
      ensures past == old(past) + [ctrs] && calls == old(calls) + 1
    {
      ok := Call(id in ctrs && NameFree(ctrs, name), if id in ctrs then ctrs[id := ctrs[id].(name := name)] else ctrs);
    }

    method Remove(id: nat) returns (ok: bool)
      modifies this
      ensures ok <==> id in old(ctrs) && obeys(old(calls))
      ensures ctrs == (if ok then old(ctrs) - {id} else old(ctrs))
      ensures past == old(past) + [ctrs] && calls == old(calls) + 1
    {
      ok := Call(id in ctrs, ctrs - {id});
    }

    method Create(name: string, c: Config, network: Option<string>) returns (ok: bool, id: nat)
      modifies this
      ensures id !in old(ctrs)
      ensures ok <==> NameFree(old(ctrs), name) && obeys(old(calls))
      ensures ctrs == if ok then old(ctrs)[id := Container(name, false, false, false, Resolve(tags, c.image), Joined(network), [], c)] else old(ctrs)
      ensures past == old(past) + [ctrs] && calls == old(calls) + 1
    {
      ghost var unused := SomeUnused(ctrs.Keys);
      id :| id !in ctrs.Keys;
      ok := Call(NameFree(ctrs, name), ctrs[id := Container(name, false, false, false, Resolve(tags, c.image), Joined(network), [], c)]);
    }

    method Connect(id: nat, network: string) returns (ok: bool)
      modifies this
      ensures ok <==> id in old(ctrs) && obeys(old(calls))
      ensures ctrs == if ok then old(ctrs)[id := old(ctrs)[id].(networks := old(ctrs)[id].networks + {network})] else old(ctrs)
      ensures past == old(past) + [ctrs] && calls == old(calls) + 1
    {
      ok := Call(id in ctrs, if id in ctrs then ctrs[id := ctrs[id].(networks := ctrs[id].networks + {network})] else ctrs);
    }

    method Inspect(id: nat) returns (ok: bool)
      modifies this`calls
      ensures ok <==> id in ctrs && obeys(old(calls))
      ensures calls == old(calls) + 1
    {
      ok := id in ctrs && obeys(calls);
      calls := calls + 1;
    }

    /** The image a tag stands for, when the daemon answers. */
    method LookUp(ref: string) returns (r: Option<string>)
      modifies this`calls
      ensures r == (if obeys(old(calls)) && ref in tags then Some(tags[ref]) else None)
      ensures calls == old(calls) + 1
    {
      r := if obeys(calls) && ref in tags then Some(tags[ref]) else None;
      calls := calls + 1;
    }
  }

  function Joined(network: Option<string>): set<string> {
    if network.Some? then {network.value} else {}
  }

  /** The tag while it still stands for the image the container runs, otherwise the image itself. */
  method ImageRef(d: Daemon, ref: string, imageId: string) returns (out: string)
    requires imageId !in d.tags
    modifies d`calls
    ensures d.calls == old(d.calls) + 1
    ensures Resolve(d.tags, out) == imageId
    ensures out == if d.obeys(old(d.calls)) && ref in d.tags && d.tags[ref] == imageId then ref else imageId
  {
    var found := d.LookUp(ref);
    if found != Some(imageId) {
      return imageId;
    }
    return ref;
  }

  // ---- the protocol

  datatype Outcome =
    | Untouched                                   // refused, or the container could not be stopped
    | NotRenamed
    | PutBack
    | NotPutBack(oldName: string)
    | Replaced(id: nat, oldRemoved: bool)

  /** The new container carries the name, is on every network and no other, and runs if and only if the old one did. */
  ghost predicate Ready(ctrs: map<nat, Container>, id: nat, was: Container) {
    && id in ctrs
    && ctrs[id].name == was.name
    && was.networks - PSEUDO_NETWORKS <= ctrs[id].networks <= was.networks
    && ctrs[id].running == was.running
    && ctrs[id].imageId == was.imageId
  }

  /** At this moment the old container is there, whatever its name, or a new one is ready. */
  ghost predicate NothingLost(ctrs: map<nat, Container>, id: nat, was: Container) {
    (id in ctrs && ctrs[id].config == was.config && ctrs[id].networks == was.networks)
    || exists k :: k != id && Ready(ctrs, k, was)
  }

  ghost predicate NeverLost(past: seq<map<nat, Container>>, from: nat, id: nat, was: Container) {
    forall i :: from <= i < |past| ==> NothingLost(past[i], id, was)
  }

  function OldName(name: string, stamp: string): string {
    name + "-skyguard-old-" + stamp
  }

  /** Only the old container differs: it has another name and does not run. */
  ghost function Aside(before: map<nat, Container>, id: nat, oldName: string): map<nat, Container>
    requires id in before
  {
    before[id := before[id].(name := oldName, running := false)]
  }

  /** The state while the old container is set aside; a new one may have been made. */
  ghost predicate SetAside(ctrs: map<nat, Container>, before: map<nat, Container>, id: nat, oldName: string, created: Option<nat>) {
    && id in before
    && match created
       case None => ctrs == Aside(before, id, oldName)
       case Some(k) =>
         && k !in before && k in ctrs && ctrs[k].name == before[id].name
         && ctrs == Aside(before, id, oldName)[k := ctrs[k]]
  }

  lemma WithoutNew(ctrs: map<nat, Container>, before: map<nat, Container>, id: nat, oldName: string, k: nat)
    requires SetAside(ctrs, before, id, oldName, Some(k))
    ensures ctrs - {k} == Aside(before, id, oldName)
  {
    assert k !in Aside(before, id, oldName);
  }

  lemma PastGrows(past: seq<map<nat, Container>>, ctrs: map<nat, Container>, from: nat, id: nat, was: Container)
    requires NeverLost(past, from, id, was) && NothingLost(ctrs, id, was)
    ensures NeverLost(past + [ctrs], from, id, was)
  {
  }

  /** At least two of the calls numbered from up to the present one were refused. */
  ghost predicate TwoRefused(obeys: nat -> bool, from: nat, now: nat) {
    exists m: nat, n: nat :: from <= m < n < now && !obeys(m) && !obeys(n)
  }

  lemma AsideNames(before: map<nat, Container>, id: nat, oldName: string)
    requires id in before && NamesUnique(before) && oldName != before[id].name
    ensures NameFree(Aside(before, id, oldName), before[id].name)
  {
  }

  /** Takes away the new container, if one was made. */
  method Discard(d: Daemon, id: nat, created: Option<nat>, oldName: string, ghost before: map<nat, Container>, ghost from: nat)
    requires SetAside(d.ctrs, before, id, oldName, created)
    requires from <= |d.past| && NeverLost(d.past, from, id, before[id])
    modifies d
    ensures NeverLost(d.past, from, id, before[id]) && |d.past| >= |old(d.past)| && d.calls >= old(d.calls)
    ensures d.ctrs == Aside(before, id, oldName)
      || (created.Some? && SetAside(d.ctrs, before, id, oldName, created) && d.calls == old(d.calls) + 1 && !d.obeys(old(d.calls)))
  {
    if created.Some? {
      WithoutNew(d.ctrs, before, id, oldName, created.value);
      var _ := d.Remove(created.value);
      PastGrows(old(d.past), d.ctrs, from, id, before[id]);
    }
  }

  /** All but the new container are as set aside, and the name is taken while that one is there. */
  ghost predicate AsideOrBlocked(ctrs: map<nat, Container>, before: map<nat, Container>, id: nat, oldName: string)
    requires id in before
  {
    && (forall k :: k in before ==> k in ctrs && ctrs[k] == Aside(before, id, oldName)[k])
    && (ctrs == Aside(before, id, oldName) || !NameFree(ctrs, before[id].name))
  }

  lemma StillBlocked(ctrs: map<nat, Container>, before: map<nat, Container>, id: nat, oldName: string, created: Option<nat>)
    requires SetAside(ctrs, before, id, oldName, created)
    ensures AsideOrBlocked(ctrs, before, id, oldName)
  {
  }

  /** Gives the old container its name and, if it ran, starts it. */
  method Reinstate(d: Daemon, id: nat, name: string, oldName: string, wasRunning: bool,
      ghost before: map<nat, Container>, ghost from: nat) returns (ok: bool)
    requires id in before && NamesUnique(before) && oldName != name
    requires before[id].name == name && before[id].running == wasRunning
    requires from <= |d.past| && NeverLost(d.past, from, id, before[id])
    requires AsideOrBlocked(d.ctrs, before, id, oldName)
    modifies d
    ensures NeverLost(d.past, from, id, before[id]) && |d.past| >= |old(d.past)| && d.calls > old(d.calls)
    ensures ok ==> d.ctrs == before
    ensures !ok ==> old(d.ctrs) != Aside(before, id, oldName) || !d.obeys(d.calls - 1)
    ensures id in d.ctrs && d.ctrs[id].config == before[id].config && d.ctrs[id].name in {oldName, name}
    ensures forall k :: k in before && k != id ==> k in d.ctrs && d.ctrs[k] == before[k]
  {
    AsideNames(before, id, oldName);
    ok := d.Rename(id, name);
    PastGrows(old(d.past), d.ctrs, from, id, before[id]);
    if !ok {
      return;
    }
    assert d.ctrs == before[id := before[id].(running := false)];
    if wasRunning {
      ok := StartAgain(d, id, before, from);
    }
  }

  /** The old container has its name back, and is started. */
  method StartAgain(d: Daemon, id: nat, ghost before: map<nat, Container>, ghost from: nat) returns (ok: bool)
    requires id in before && before[id].running && d.ctrs == before[id := before[id].(running := false)]
    requires from <= |d.past| && NeverLost(d.past, from, id, before[id])
    modifies d
    ensures NeverLost(d.past, from, id, before[id]) && |d.past| >= |old(d.past)| && d.calls == old(d.calls) + 1
    ensures if ok then d.ctrs == before else d.ctrs == old(d.ctrs) && !d.obeys(d.calls - 1)
  {
    ok := d.SetRunning(id, true);
    PastGrows(old(d.past), d.ctrs, from, id, before[id]);
    assert ok ==> d.ctrs == before;
  }

  /** Undoes a half-made replacement after call number failed was refused. */
  method Restore(d: Daemon, id: nat, created: Option<nat>, name: string, oldName: string, wasRunning: bool,
      ghost before: map<nat, Container>, ghost from: nat, ghost failed: nat) returns (r: Outcome)
    requires SetAside(d.ctrs, before, id, oldName, created) && NamesUnique(before) && oldName != name
    requires before[id].name == name && before[id].running == wasRunning
    requires from <= |d.past| && NeverLost(d.past, from, id, before[id])
    requires failed < d.calls && !d.obeys(failed)
    modifies d
    ensures NeverLost(d.past, from, id, before[id]) && |d.past| >= |old(d.past)|
    ensures r == PutBack || (r == NotPutBack(oldName) && TwoRefused(d.obeys, failed, d.calls))
    ensures r == PutBack ==> d.ctrs == before
    ensures id in d.ctrs && d.ctrs[id].config == before[id].config && d.ctrs[id].name in {oldName, name}
    ensures forall k :: k in before && k != id ==> k in d.ctrs && d.ctrs[k] == before[k]
  {
    Discard(d, id, created, oldName, before, from);
    ghost var at := d.calls;
    assert AsideOrBlocked(d.ctrs, before, id, oldName) by {
      if d.ctrs != Aside(before, id, oldName) { StillBlocked(d.ctrs, before, id, oldName, created); }
    }
    var ok := Reinstate(d, id, name, oldName, wasRunning, before, from);
    if ok {
      return PutBack;
    }
    assert TwoRefused(d.obeys, failed, d.calls) by {
      if d.obeys(d.calls - 1) { assert !d.obeys(at - 1) && failed < at - 1; }
    }
    return NotPutBack(oldName);
  }

  /** What the new container is created from. */
  ghost predicate FaithfulCopy(c: Config, changed: Config, was: Container, shortId: string) {
    && c == changed.(hostname := if changed.hostname == Some(shortId) then None else changed.hostname, image := c.image, binds := c.binds)
    && changed.binds <= c.binds
    && AllVolumesCovered(c, was.mounts)
    && forall b :: b in c.binds[|changed.binds|..] ==> CarriedOver(b, changed, was.mounts)
  }

  /** The new container joins its other networks and is started if the old one ran; the old one stays set aside. */
  method Complete(d: Daemon, id: nat, k: nat, rest: seq<string>, oldName: string, wasRunning: bool,
      ghost before: map<nat, Container>, ghost from: nat) returns (ok: bool)
    requires SetAside(d.ctrs, before, id, oldName, Some(k)) && before[id].running == wasRunning
    requires from <= |d.past| && NeverLost(d.past, from, id, before[id])
    modifies d
    ensures SetAside(d.ctrs, before, id, oldName, Some(k)) && |d.past| >= |old(d.past)| && d.calls >= old(d.calls)
    ensures NeverLost(d.past, from, id, before[id])
    ensures d.ctrs[k].config == old(d.ctrs[k].config) && d.ctrs[k].imageId == old(d.ctrs[k].imageId)
    ensures ok ==> d.ctrs[k].networks == old(d.ctrs[k].networks) + (set n | n in rest) && d.ctrs[k].running == (wasRunning || old(d.ctrs[k].running))
    ensures !ok ==> d.calls > old(d.calls) && !d.obeys(d.calls - 1)
  {
    for i := 0 to |rest|
      invariant SetAside(d.ctrs, before, id, oldName, Some(k)) && |d.past| >= |old(d.past)| && d.calls >= old(d.calls)
      invariant NeverLost(d.past, from, id, before[id])
      invariant d.ctrs[k] == old(d.ctrs[k]).(networks := old(d.ctrs[k].networks) + (set n | n in rest[..i]))
    {
      assert rest[..i + 1] == rest[..i] + [rest[i]];
      ghost var past := d.past;
      ok := d.Connect(k, rest[i]);
      PastGrows(past, d.ctrs, from, id, before[id]);
      if !ok {
        return;
      }
    }
    assert rest[..|rest|] == rest;
    ok := true;
    if wasRunning {
      ghost var past := d.past;
      ok := d.SetRunning(k, true);
      PastGrows(past, d.ctrs, from, id, before[id]);
    }
  }

  /** The image the configuration names is still the one the container runs. */
  predicate KeepsTag(tags: map<string, string>, changed: Config, was: Container) {
    changed.image in tags && tags[changed.image] == was.imageId
  }

  /** What the copy is created from, on which network, and which it joins afterwards. */
  method Prepare(d: Daemon, was: Container, changed: Config, shortId: string) returns (c: Config, primary: Option<string>, rest: seq<string>)
    requires was.imageId !in d.tags
    modifies d`calls
    ensures d.calls > old(d.calls)
    ensures FaithfulCopy(c, changed, was, shortId) && Resolve(d.tags, c.image) == was.imageId
    ensures c.image == if d.obeys(old(d.calls)) && KeepsTag(d.tags, changed, was) then changed.image else was.imageId
    ensures was.networks - PSEUDO_NETWORKS <= Joined(primary) + (set n | n in rest) <= was.networks
  {
    var image := ImageRef(d, changed.image, was.imageId);
    c := changed.(hostname := if changed.hostname == Some(shortId) then None else changed.hostname, image := image);
    c := KeepAnonymousVolumes(c, was.mounts);
    assert forall b :: b in c.binds[|changed.binds|..] ==> CarriedOver(b, changed, was.mounts);
    primary, rest := SplitNetworks(c.mode, was.networks);
  }

  /** From the moment the old container is set aside. */
  method Replace(d: Daemon, id: nat, was: Container, c: Config, primary: Option<string>, rest: seq<string>, oldName: string,
      ghost before: map<nat, Container>, ghost from: nat) returns (r: Outcome)
    requires id in before && before[id] == was && d.ctrs == Aside(before, id, oldName) && oldName != was.name && NamesUnique(before)
    requires from <= |d.past| && NeverLost(d.past, from, id, was)
    requires Resolve(d.tags, c.image) == was.imageId && was.networks - PSEUDO_NETWORKS <= Joined(primary) + (set n | n in rest) <= was.networks
    modifies d
    ensures NeverLost(d.past, from, id, was) && |d.past| >= |old(d.past)|
    ensures r.PutBack? || r.NotPutBack? || r.Replaced?
    ensures (forall n :: d.obeys(n)) ==> r.Replaced? && r.oldRemoved
    ensures r == PutBack ==> d.ctrs == before
    ensures r.NotPutBack? ==> id in d.ctrs && d.ctrs[id].config == was.config && TwoRefused(d.obeys, old(d.calls), d.calls)
    ensures r.Replaced? ==>
      && r.id !in before && Ready(d.ctrs, r.id, was) && d.ctrs[r.id].config == c
      && (if r.oldRemoved then id !in d.ctrs else id in d.ctrs && !d.ctrs[id].running && d.ctrs[id].name == oldName)
    ensures forall k :: k in before && k != id ==> k in d.ctrs && d.ctrs[k] == before[k]
  {
    ghost var past := d.past;
    AsideNames(before, id, oldName);
    var created, k := d.Create(was.name, c, primary);
    PastGrows(past, d.ctrs, from, id, was);
    if !created {
      r := Restore(d, id, None, was.name, oldName, was.running, before, from, d.calls - 1);
      return;
    }
    var ok := Complete(d, id, k, rest, oldName, was.running, before, from);
    if !ok {
      r := Restore(d, id, Some(k), was.name, oldName, was.running, before, from, d.calls - 1);
      return;
    }
    var removed := Finish(d, id, k, was, oldName, before, from);
    return Replaced(k, removed);
  }

  /** The new container is ready: the old one is removed, or stays behind under its other name. */
  method Finish(d: Daemon, id: nat, k: nat, was: Container, oldName: string, ghost before: map<nat, Container>, ghost from: nat)
    returns (removed: bool)
    requires SetAside(d.ctrs, before, id, oldName, Some(k)) && before[id] == was && Ready(d.ctrs, k, was)
    requires from <= |d.past| && NeverLost(d.past, from, id, was)
    modifies d
    ensures NeverLost(d.past, from, id, was) && |d.past| >= |old(d.past)| && d.calls == old(d.calls) + 1
    ensures d.ctrs == (if removed then old(d.ctrs) - {id} else old(d.ctrs)) && (d.obeys(old(d.calls)) ==> removed)
    ensures Ready(d.ctrs, k, was)
  {
    removed := d.Remove(id);
    assert Ready(d.ctrs, k, was);
    PastGrows(old(d.past), d.ctrs, from, id, was);
  }

  /** Stops the old container and renames it out of the way. */
  method PutAside(d: Daemon, id: nat, was: Container, oldName: string) returns (done: bool, r: Outcome)
    requires id in d.ctrs && d.ctrs[id] == was && !was.autoRemove
    modifies d
    ensures NeverLost(d.past, |old(d.past)|, id, was) && |d.past| >= |old(d.past)| && d.calls >= old(d.calls)
    ensures !done ==> d.calls > old(d.calls)
    ensures done ==> d.calls == old(d.calls) + if was.running then 2 else 1
    ensures done ==> d.ctrs == Aside(old(d.ctrs), id, oldName)
    ensures !done ==> r == Untouched || r == NotRenamed
    ensures !done && r == Untouched ==> d.ctrs == old(d.ctrs) && d.past == old(d.past) + [d.ctrs]
    ensures !done && r == NotRenamed ==>
      d.ctrs == old(d.ctrs) || (was.running && !d.obeys(d.calls - 1) && d.ctrs == old(d.ctrs)[id := was.(running := false)])
    ensures (forall n :: d.obeys(n)) && NameFree(old(d.ctrs), oldName) ==> done
  {
    r := Untouched;
    if was.running {
      var ok := d.SetRunning(id, false);
      if !ok {
        return false, Untouched;
      }
    }
    assert d.ctrs == old(d.ctrs)[id := was.(running := false)];
    done := d.Rename(id, oldName);
    if !done {
      if was.running {
        var _ := d.SetRunning(id, true);
      }
      return false, NotRenamed;
    }
  }

  /** Not paused, not one that stopping would delete, and the change applies to it. */
  predicate Changeable(was: Container, mutate: Config -> Option<Config>) {
    !was.paused && !was.autoRemove && mutate(was.config).Some?
  }

  /** Replaces container id by a copy that mutate has changed; any failure puts the old one back. */
  method RecreateContainer(d: Daemon, id: nat, mutate: Config -> Option<Config>, shortId: string, stamp: string) returns (r: Outcome)
    requires NamesUnique(d.ctrs) && (id in d.ctrs ==> d.ctrs[id].imageId !in d.tags)
    modifies d
    // one that is not there, is paused, would be deleted by stopping it, or cannot be changed is not touched at any moment
    ensures (id in old(d.ctrs) ==> old(d.ctrs[id]).paused || old(d.ctrs[id]).autoRemove || mutate(old(d.ctrs[id]).config).None?) ==>
      r == Untouched && d.past == old(d.past)
    ensures r == Untouched ==> d.past == old(d.past) || d.past == old(d.past) + [old(d.ctrs)]
    // at no moment is the old container gone before the new one is ready
    ensures id in old(d.ctrs) ==> NeverLost(d.past, |old(d.past)|, id, old(d.ctrs[id])) && |old(d.past)| <= |d.past|
    ensures r == Untouched ==> d.ctrs == old(d.ctrs)
    ensures r == PutBack ==> d.ctrs == old(d.ctrs)
    // a container that could not be renamed runs again, unless its start was refused as well
    ensures r == NotRenamed ==> id in old(d.ctrs)
    ensures r == NotRenamed && d.ctrs != old(d.ctrs) ==>
      && old(d.ctrs[id]).running && d.calls > 0 && !d.obeys(d.calls - 1)
      && d.ctrs == old(d.ctrs)[id := old(d.ctrs[id]).(running := false)]
    // the old container stays set aside only when a call of the rollback was refused too
    ensures r.NotPutBack? ==> id in old(d.ctrs) && id in d.ctrs && d.ctrs[id].config == old(d.ctrs[id].config)
    ensures r.NotPutBack? ==> TwoRefused(d.obeys, old(d.calls), d.calls)
    ensures r.Replaced? ==>
      && id in old(d.ctrs) && r.id !in old(d.ctrs) && Ready(d.ctrs, r.id, old(d.ctrs[id]))
      && mutate(old(d.ctrs[id]).config).Some?
      && FaithfulCopy(d.ctrs[r.id].config, mutate(old(d.ctrs[id]).config).value, old(d.ctrs[id]), shortId)
      && d.ctrs[r.id].config.image == (if d.obeys(old(d.calls) + 1) && KeepsTag(d.tags, mutate(old(d.ctrs[id]).config).value, old(d.ctrs[id]))
           then mutate(old(d.ctrs[id]).config).value.image else old(d.ctrs[id]).imageId)
      && (if r.oldRemoved then id !in d.ctrs else id in d.ctrs && !d.ctrs[id].running && d.ctrs[id].name == old(d.ctrs[id].name) + "-skyguard-old-" + stamp)
    ensures (forall n :: d.obeys(n)) && id in old(d.ctrs) && Changeable(old(d.ctrs[id]), mutate) ==>
      NameFree(old(d.ctrs), old(d.ctrs[id].name) + "-skyguard-old-" + stamp) ==> r.Replaced? && r.oldRemoved
    ensures forall k :: k in old(d.ctrs) && k != id ==> k in d.ctrs && d.ctrs[k] == old(d.ctrs[k])
  {
    ghost var before, from := d.ctrs, |d.past|;
    var ok := d.Inspect(id);
    if !ok {
      return Untouched;
    }
    var was := d.ctrs[id];
    if !Changeable(was, mutate) {
      return Untouched;
    }
    var c, primary, rest := Prepare(d, was, mutate(was.config).value, shortId);
    var oldName := OldName(was.name, stamp);
    assert |oldName| > |was.name|;
    var aside, outcome := PutAside(d, id, was, oldName);
    if !aside {
      return outcome;
    }
    r := Replace(d, id, was, c, primary, rest, oldName, before, from);
  }
}
