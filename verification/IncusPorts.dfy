/**
 Making an Incus instance's single-port proxy devices match a list of ports
 (internal/containers/incus.go).
 */
module IncusPorts {
  import opened Basics
  import opened Text
  import PortText

  type Port = PortText.Port

  /** A device: a proxy for one port, one of type none (which masks a profile's), or anything else, ranges included. */
  datatype Device = Proxy(port: Port) | Masked | Other(text: string)

  type Devices = map<string, Device>

  /** The devices in force: the instance's own over those of its profiles. */
  function Expanded(profile: Devices, local: Devices): Devices {
    profile + local
  }

  // ---- device names

  function Base(p: Port): string {
    "proxy-" + p.proto + "-" + Itoa(p.hostPort)
  }

  /** proxy-tcp-80, then proxy-tcp-80-2, proxy-tcp-80-3 and so on. */
  function Name(p: Port, i: nat): string {
    if i == 1 then Base(p) else Base(p) + "-" + Itoa(i)
  }

  /** The names of TCP port 80 are proxy-tcp-80, proxy-tcp-80-2 and so on. */
  lemma NamesAre(p: Port, i: nat)
    requires p.proto == "tcp" && i >= 1
    ensures Name(p, i) == "proxy-tcp-" + Itoa(p.hostPort) + if i == 1 then "" else "-" + Itoa(i)
  {
    assert "proxy-" + "tcp" + "-" == "proxy-tcp-";
  }

  lemma NamesDiffer(p: Port, i: nat, j: nat)
    requires 1 <= i < j
    ensures Name(p, i) != Name(p, j)
  {
    var b := Base(p) + "-";
    if i == 1 {
      assert |Name(p, j)| > |Name(p, i)|;
    } else {
      assert Name(p, i)[|b|..] == Itoa(i) && Name(p, j)[|b|..] == Itoa(j);
    }
  }

  ghost predicate AllTaken(p: Port, i: nat, taken: set<string>) {
    forall j :: 1 <= j < i ==> Name(p, j) in taken
  }

  /** The names of the series differ, so no more of them are taken than names are. */
  lemma {:induction false} TakenBounds(p: Port, i: nat, taken: set<string>)
    requires i >= 1 && AllTaken(p, i, taken)
    ensures i - 1 <= |taken|
  {
    if i > 1 {
      forall j | 1 <= j < i - 1 ensures Name(p, j) in taken - {Name(p, i - 1)} {
        NamesDiffer(p, j, i - 1);
      }
      TakenBounds(p, i - 1, taken - {Name(p, i - 1)});
    }
  }

  /** The first name that is not taken. */
  method FreshName(p: Port, taken: set<string>) returns (key: string)
    ensures key !in taken
    ensures exists i: nat :: i >= 1 && key == Name(p, i) && AllTaken(p, i, taken)
  {
    var i := 1;
    key := Base(p);
    while key in taken
      invariant i >= 1 && key == Name(p, i) && AllTaken(p, i, taken)
      decreases |taken| + 1 - i
    {
      i := i + 1;
      TakenBounds(p, i, taken);
      key := Base(p) + "-" + Itoa(i);
    }
  }

  // ---- what the change is for

  /** Each requested port is on exactly one device, and no other port is proxied. */
  ghost predicate Serves(devices: Devices, ports: set<Port>) {
    && (forall k :: k in devices && devices[k].Proxy? ==> devices[k].port in ports)
    && (forall p :: p in ports ==> exists k :: k in devices && devices[k] == Proxy(p))
    && (forall j, k :: j in devices && k in devices && devices[j].Proxy? && devices[j] == devices[k] ==> j == k)
  }

  /** Other devices are as before; a proxy stays as it was or goes; a new device is a proxy. */
  ghost predicate OthersKept(before: Devices, after: Devices) {
    && (forall k :: k in before && !before[k].Proxy? ==> k in after && after[k] == before[k])
    && (forall k :: k in before && before[k].Proxy? && k in after ==> after[k] == before[k] || after[k] == Masked)
    && (forall k :: k in after && k !in before ==> after[k].Proxy?)
  }

  ghost predicate Reconciled(before: Devices, after: Devices, ports: set<Port>) {
    Serves(after, ports) && OthersKept(before, after)
  }

  function Wanted(ports: seq<Port>): set<Port> {
    set p | p in ports
  }

  /** The instance's own devices when only the given proxies are spared: its own go, inherited ones are masked. */
  ghost function Trimmed(profile: Devices, local: Devices, spared: set<string>): Devices {
    map k | k in Expanded(profile, local) && (if k in local then !local[k].Proxy? || k in spared else profile[k].Proxy? && k !in spared)
      :: if k in local then local[k] else Masked
  }

  /** One kept proxy for each port that is no longer wanting, and none left for a port that is. */
  ghost predicate Picked(cur: Devices, ports: set<Port>, want: set<Port>, kept: set<string>, todo: set<string>) {
    && want <= ports && kept <= cur.Keys - todo
    && (forall k :: k in kept ==> cur[k].Proxy? && cur[k].port in ports - want)
    && (forall p :: p in ports - want ==> exists k :: k in kept && cur[k] == Proxy(p))
    && (forall j, k :: j in kept && k in kept && cur[j] == cur[k] ==> j == k)
    && (forall k :: k in cur && k !in todo && cur[k].Proxy? ==> cur[k].port !in want)
  }

  lemma PickOne(cur: Devices, ports: set<Port>, want: set<Port>, kept: set<string>, todo: set<string>, key: string)
    requires Picked(cur, ports, want, kept, todo) && key in todo && key in cur && cur[key].Proxy? && cur[key].port in want
    ensures Picked(cur, ports, want - {cur[key].port}, kept + {key}, todo - {key})
  {
  }

  lemma PassOver(cur: Devices, ports: set<Port>, want: set<Port>, kept: set<string>, todo: set<string>, key: string)
    requires Picked(cur, ports, want, kept, todo) && key in todo && key in cur && (cur[key].Proxy? ==> cur[key].port !in want)
    ensures Picked(cur, ports, want, kept, todo - {key})
  {
  }

  lemma TrimOther(profile: Devices, local: Devices, spared: set<string>, key: string)
    requires key in Expanded(profile, local) && !Expanded(profile, local)[key].Proxy?
    ensures Trimmed(profile, local, spared - {key}) == Trimmed(profile, local, spared)
  {
  }

  lemma TrimProxy(profile: Devices, local: Devices, spared: set<string>, key: string)
    requires key in spared && key in Expanded(profile, local) && Expanded(profile, local)[key].Proxy?
    ensures key in Trimmed(profile, local, spared) <==> key in local
    ensures Trimmed(profile, local, spared - {key}) ==
      if key in local then Trimmed(profile, local, spared) - {key} else Trimmed(profile, local, spared)[key := Masked]
  {
  }

  lemma TrimNothing(profile: Devices, local: Devices)
    ensures Trimmed(profile, local, Expanded(profile, local).Keys) == local
  {
  }

  /** Some order of the devices, as one iteration over a map meets them. */
  predicate IsOrder(order: seq<string>, keys: set<string>) {
    && (forall k :: k in order ==> k in keys) && (forall k :: k in keys ==> k in order)
    && forall i, j :: 0 <= i < j < |order| ==> order[i] != order[j]
  }

  /** The proxies that one pass in this order keeps: the first it meets for each port. */
  function KeptIn(cur: Devices, ports: set<Port>, order: seq<string>): set<string> {
    if order == [] then {}
    else
      var kept, key := KeptIn(cur, ports, order[..|order| - 1]), order[|order| - 1];
      if key in cur && cur[key].Proxy? && cur[key].port in ports && forall k :: k in kept && k in cur ==> cur[k] != cur[key]
      then kept + {key} else kept
  }

  lemma StillWanted(cur: Devices, ports: set<Port>, want: set<Port>, kept: set<string>, todo: set<string>, p: Port)
    requires Picked(cur, ports, want, kept, todo) && p in ports
    ensures p in want <==> forall k :: k in kept && k in cur ==> cur[k] != Proxy(p)
  {
    if p !in want {
      assert p in ports - want;
    }
  }

  /** One device of the pass. */
  method PassOne(profile: Devices, local: Devices, put: Devices, want: set<Port>, key: string,
      ghost ports: set<Port>, ghost kept: set<string>, ghost todo: set<string>) returns (put': Devices, want': set<Port>, ghost kept': set<string>)
    requires todo <= Expanded(profile, local).Keys && key in todo
    requires Picked(Expanded(profile, local), ports, want, kept, todo) && put == Trimmed(profile, local, kept + todo)
    ensures Picked(Expanded(profile, local), ports, want', kept', todo - {key})
    ensures put' == Trimmed(profile, local, kept' + (todo - {key}))
    ensures var cur := Expanded(profile, local);
      kept' == if cur[key].Proxy? && cur[key].port in want then kept + {key} else kept
  {
    var cur := Expanded(profile, local);
    ghost var spared := kept + todo;
    put', want', kept' := put, want, kept;
    assert key !in kept;
    if !cur[key].Proxy? {
      PassOver(cur, ports, want, kept, todo, key);
      TrimOther(profile, local, spared, key);
      assert kept + (todo - {key}) == spared - {key};
    } else if cur[key].port in want {
      PickOne(cur, ports, want, kept, todo, key);
      want', kept' := want - {cur[key].port}, kept + {key};
      assert kept' + (todo - {key}) == spared;
    } else {
      PassOver(cur, ports, want, kept, todo, key);
      TrimProxy(profile, local, spared, key);
      assert kept + (todo - {key}) == spared - {key};
      if key in put {
        put' := put - {key};
      } else {
        put' := put[key := Masked];
      }
    }
  }

  lemma KeptPush(cur: Devices, ports: set<Port>, want: set<Port>, kept: set<string>, todo: set<string>, order: seq<string>, key: string)
    requires Picked(cur, ports, want, kept, todo) && kept == KeptIn(cur, ports, order) && key in cur
    ensures KeptIn(cur, ports, order + [key]) == if cur[key].Proxy? && cur[key].port in want then kept + {key} else kept
  {
    assert (order + [key])[..|order|] == order;
    if cur[key].Proxy? && cur[key].port in ports { StillWanted(cur, ports, want, kept, todo, cur[key].port); }
  }

  ghost function Members(order: seq<string>): set<string> {
    set k | k in order
  }

  lemma MembersStep(order: seq<string>, i: nat)
    requires i < |order| && forall a, b :: 0 <= a < b < |order| ==> order[a] != order[b]
    ensures order[i] in Members(order[i..]) && Members(order[i + 1..]) == Members(order[i..]) - {order[i]}
    ensures order[..i + 1] == order[..i] + [order[i]]
  {
    assert order[i..] == [order[i]] + order[i + 1..];
  }

  /** The pass has gone through the first i devices. */
  ghost predicate Halfway(profile: Devices, local: Devices, ports: set<Port>, order: seq<string>, i: nat, put: Devices, want: set<Port>)
    requires i <= |order|
  {
    var cur := Expanded(profile, local);
    var kept, todo := KeptIn(cur, ports, order[..i]), Members(order[i..]);
    todo <= cur.Keys && Picked(cur, ports, want, kept, todo) && put == Trimmed(profile, local, kept + todo)
  }

  method PassAt(profile: Devices, local: Devices, ghost ports: set<Port>, order: seq<string>, i: nat, put: Devices, want: set<Port>)
    returns (put': Devices, want': set<Port>)
    requires IsOrder(order, Expanded(profile, local).Keys) && i < |order| && Halfway(profile, local, ports, order, i, put, want)
    ensures Halfway(profile, local, ports, order, i + 1, put', want')
  {
    ghost var cur := Expanded(profile, local);
    ghost var kept, todo := KeptIn(cur, ports, order[..i]), Members(order[i..]);
    MembersStep(order, i);
    KeptPush(cur, ports, want, kept, todo, order[..i], order[i]);
    put', want', kept := PassOne(profile, local, put, want, order[i], ports, kept, todo);
  }

  lemma PassBegins(profile: Devices, local: Devices, ports: set<Port>, order: seq<string>)
    requires IsOrder(order, Expanded(profile, local).Keys)
    ensures Halfway(profile, local, ports, order, 0, local, ports)
  {
    TrimNothing(profile, local);
    assert order[..0] == [] && order[0..] == order && Members(order) == Expanded(profile, local).Keys;
    assert {} + Members(order) == Members(order);
  }

  /** Goes through the devices in force: keeps one proxy for each wanted port, drops or masks the rest. */
  method DropUnwanted(profile: Devices, local: Devices, ports: set<Port>, order: seq<string>) returns (put: Devices, want: set<Port>)
    requires IsOrder(order, Expanded(profile, local).Keys)
    ensures Picked(Expanded(profile, local), ports, want, KeptIn(Expanded(profile, local), ports, order), {})
    ensures put == Trimmed(profile, local, KeptIn(Expanded(profile, local), ports, order))
  {
    put, want := local, ports;
    PassBegins(profile, local, ports, order);
    for i := 0 to |order|
      invariant Halfway(profile, local, ports, order, i, put, want)
    {
      put, want := PassAt(profile, local, ports, order, i, put, want);
    }
    assert order[..|order|] == order && Members(order[|order|..]) == {};
    ghost var kept := KeptIn(Expanded(profile, local), ports, order);
    assert kept + {} == kept;
  }

  /** Adds a proxy for each port that is still wanting, under a name nobody uses. */
  method AddWanting(cur: Devices, trimmed: Devices, want: set<Port>) returns (ok: bool, put: Devices)
    ensures ok <==> forall p :: p in want ==> p.hostPort != 0
    ensures ok ==> Added(cur, trimmed, want, put)
  {
    put := trimmed;
    var left := want;
    while left != {}
      invariant left <= want && (forall p :: p in want - left ==> p.hostPort != 0)
      invariant Added(cur, trimmed, want - left, put)
      decreases left
    {
      var p :| p in left;
      var key := FreshName(p, cur.Keys + put.Keys);
      if p.hostPort == 0 {
        return false, put;
      }
      AddOne(cur, trimmed, want - left, put, p, key);
      put := put[key := Proxy(p)];
      assert want - left + {p} == want - (left - {p});
      left := left - {p};
    }
    assert want - left == want;
    ok := true;
  }

  /** put is trimmed with one new proxy for each of the given ports. */
  ghost predicate Added(cur: Devices, trimmed: Devices, ports: set<Port>, put: Devices) {
    && (forall k :: k in trimmed ==> k in put && put[k] == trimmed[k])
    && (forall k :: k in put && k !in trimmed ==> k !in cur && put[k].Proxy? && put[k].port in ports)
    && (forall p :: p in ports ==> exists k :: k in put && k !in trimmed && put[k] == Proxy(p))
    && (forall j, k :: j in put && j !in trimmed && k in put && k !in trimmed && put[j] == put[k] ==> j == k)
  }

  lemma AddOne(cur: Devices, trimmed: Devices, ports: set<Port>, put: Devices, p: Port, key: string)
    requires Added(cur, trimmed, ports, put) && p !in ports && key !in cur && key !in put
    ensures Added(cur, trimmed, ports + {p}, put[key := Proxy(p)])
  {
    var put' := put[key := Proxy(p)];
    forall q | q in ports + {p} ensures exists k :: k in put' && k !in trimmed && put'[k] == Proxy(q) {
      if q == p {
        assert put'[key] == Proxy(q);
      } else {
        var k :| k in put && k !in trimmed && put[k] == Proxy(q);
        assert put'[k] == Proxy(q);
      }
    }
  }

  /** The keys that DropUnwanted takes out of the instance's own devices. */
  ghost function Removed(profile: Devices, local: Devices, kept: set<string>): set<string> {
    set k | k in local && local[k].Proxy? && k !in kept
  }

  /** Nothing but a mask comes to light where the instance's own proxies are taken out. */
  ghost predicate NothingUncovered(profile: Devices, removed: set<string>) {
    forall k :: k in removed && k in profile ==> profile[k] == Masked
  }

  /** What is in force under one name afterwards. */
  ghost predicate Fate(cur: Devices, trimmed: Devices, kept: set<string>, put: Devices, after: Devices, k: string) {
    && (k in kept ==> k in cur && k in after && after[k] == cur[k])
    && (k in cur && !cur[k].Proxy? ==> k in after && after[k] == cur[k])
    && (k in cur && cur[k].Proxy? && k !in kept && k in after ==> after[k] == Masked)
    && (k !in cur ==> k !in trimmed && (k in after <==> k in put) && (k in put ==> after[k] == put[k]))
    && (k in put && k !in trimmed ==> k !in cur)
  }

  lemma FateOf(profile: Devices, local: Devices, ports: set<Port>, want: set<Port>, kept: set<string>, put: Devices, k: string)
    requires Picked(Expanded(profile, local), ports, want, kept, {}) && Added(Expanded(profile, local), Trimmed(profile, local, kept), want, put)
    requires NothingUncovered(profile, Removed(profile, local, kept))
    ensures Fate(Expanded(profile, local), Trimmed(profile, local, kept), kept, put, Expanded(profile, put), k)
  {
  }

  lemma ServesAfter(cur: Devices, trimmed: Devices, ports: set<Port>, want: set<Port>, kept: set<string>, put: Devices, after: Devices)
    requires Picked(cur, ports, want, kept, {}) && Added(cur, trimmed, want, put)
    requires forall k :: Fate(cur, trimmed, kept, put, after, k)
    ensures Serves(after, ports)
  {
    forall p | p in ports ensures exists k :: k in after && after[k] == Proxy(p) {
      if p in want {
        var k :| k in put && k !in trimmed && put[k] == Proxy(p);
        assert Fate(cur, trimmed, kept, put, after, k);
      } else {
        assert p in ports - want;
        var k :| k in kept && cur[k] == Proxy(p);
        assert Fate(cur, trimmed, kept, put, after, k);
      }
    }
    forall k | k in after && after[k].Proxy?
      ensures (k in kept && after[k] == cur[k]) || (k in put && k !in trimmed && put[k] == after[k] && after[k].port in want)
    {
      assert Fate(cur, trimmed, kept, put, after, k);
    }
  }

  lemma OthersKeptAfter(cur: Devices, trimmed: Devices, ports: set<Port>, want: set<Port>, kept: set<string>, put: Devices, after: Devices)
    requires Picked(cur, ports, want, kept, {}) && Added(cur, trimmed, want, put)
    requires forall k :: Fate(cur, trimmed, kept, put, after, k)
    ensures OthersKept(cur, after)
  {
    forall k | k in cur && !cur[k].Proxy? ensures k in after && after[k] == cur[k] {
      assert Fate(cur, trimmed, kept, put, after, k);
    }
    forall k | k in cur && cur[k].Proxy? && k in after ensures after[k] == cur[k] || after[k] == Masked {
      assert Fate(cur, trimmed, kept, put, after, k);
    }
    forall k | k in after && k !in cur ensures after[k].Proxy? {
      assert Fate(cur, trimmed, kept, put, after, k);
    }
  }

  lemma ReconciledIfNothingUncovered(profile: Devices, local: Devices, ports: set<Port>, want: set<Port>, kept: set<string>, put: Devices)
    requires Picked(Expanded(profile, local), ports, want, kept, {}) && Added(Expanded(profile, local), Trimmed(profile, local, kept), want, put)
    requires NothingUncovered(profile, Removed(profile, local, kept))
    ensures Reconciled(Expanded(profile, local), Expanded(profile, put), ports)
  {
    var cur, after, trimmed := Expanded(profile, local), Expanded(profile, put), Trimmed(profile, local, kept);
    forall k ensures Fate(cur, trimmed, kept, put, after, k) { FateOf(profile, local, ports, want, kept, put, k); }
    ServesAfter(cur, trimmed, ports, want, kept, put, after);
    OthersKeptAfter(cur, trimmed, ports, want, kept, put, after);
  }

  /** A profile's device that comes to light spoils the result. */
  lemma UncoveredSpoils(profile: Devices, local: Devices, ports: set<Port>, want: set<Port>, kept: set<string>, put: Devices, k: string)
    requires Picked(Expanded(profile, local), ports, want, kept, {}) && Added(Expanded(profile, local), Trimmed(profile, local, kept), want, put)
    requires k in Removed(profile, local, kept) && k in profile && profile[k] != Masked
    ensures !Reconciled(Expanded(profile, local), Expanded(profile, put), ports)
  {
    var cur, after, trimmed := Expanded(profile, local), Expanded(profile, put), Trimmed(profile, local, kept);
    assert k in cur && cur[k] == local[k] && k !in trimmed && k !in put && after[k] == profile[k];
    if profile[k] != local[k] {
      assert !OthersKept(cur, after);
    } else if local[k].port in ports {
      assert local[k].port in ports - want;
      var j :| j in kept && cur[j] == Proxy(local[k].port);
      assert j != k && j in cur && cur[j].Proxy?;
      assert j in local ==> j in trimmed && put[j] == local[j];
      assert j !in local ==> j !in trimmed && j in profile;
      assert j in after && after[j] == after[k];
    }
  }

  predicate InForce(devices: Devices, p: Port) {
    exists k :: k in devices && devices[k] == Proxy(p)
  }

  lemma WantedAreNotInForce(cur: Devices, ports: set<Port>, want: set<Port>, kept: set<string>)
    requires Picked(cur, ports, want, kept, {})
    ensures forall p :: p in want <==> p in ports && !InForce(cur, p)
  {
    forall p | p in ports && p !in want ensures InForce(cur, p) {
      assert p in ports - want;
    }
  }

  // ---- when nothing can come to light

  /**
   Each own proxy that hides a profile's device is for a requested port and
   alone in serving it: then it is kept, whatever the order.
   */
  predicate Unshadowing(profile: Devices, local: Devices, ports: set<Port>) {
    forall k :: k in local && local[k].Proxy? && k in profile && profile[k] != Masked ==>
      local[k].port in ports && forall j :: j in Expanded(profile, local) && j != k ==> Expanded(profile, local)[j] != local[k]
  }

  /** A proxy that alone serves a requested port is kept. */
  lemma {:induction false} LoneIsKept(cur: Devices, ports: set<Port>, order: seq<string>, k: string)
    requires k in order && k in cur && cur[k].Proxy? && cur[k].port in ports
    requires forall j :: j in cur && j != k ==> cur[j] != cur[k]
    ensures k in KeptIn(cur, ports, order)
  {
    var init := order[..|order| - 1];
    assert order == init + [order[|order| - 1]];
    if k !in init {
      assert order[|order| - 1] == k;
    } else {
      LoneIsKept(cur, ports, init, k);
    }
  }

  lemma UnshadowingUncoversNothing(profile: Devices, local: Devices, ports: set<Port>, order: seq<string>)
    requires IsOrder(order, Expanded(profile, local).Keys) && Unshadowing(profile, local, ports)
    ensures NothingUncovered(profile, Removed(profile, local, KeptIn(Expanded(profile, local), ports, order)))
  {
    var cur := Expanded(profile, local);
    forall k | k in Removed(profile, local, KeptIn(cur, ports, order)) && k in profile ensures profile[k] == Masked {
      if profile[k] != Masked {
        assert k in cur && cur[k] == local[k];
        LoneIsKept(cur, ports, order, k);
      }
    }
  }

  /** What is kept serves requested ports, each once. */
  lemma {:induction false} KeptServes(cur: Devices, ports: set<Port>, order: seq<string>)
    ensures forall k :: k in KeptIn(cur, ports, order) ==> k in order && k in cur && cur[k].Proxy? && cur[k].port in ports
    ensures forall j, k :: j in KeptIn(cur, ports, order) && k in KeptIn(cur, ports, order) && cur[j] == cur[k] ==> j == k
  {
    if order == [] {
    } else {
      KeptServes(cur, ports, order[..|order| - 1]);
      assert order == order[..|order| - 1] + [order[|order| - 1]];
    }
  }

  lemma {:induction false} FirstIsKept(cur: Devices, ports: set<Port>, order: seq<string>)
    requires order != [] && order[0] in cur && cur[order[0]].Proxy? && cur[order[0]].port in ports
    ensures order[0] in KeptIn(cur, ports, order)
  {
    if |order| == 1 {
      assert order[..0] == [];
    } else {
      FirstIsKept(cur, ports, order[..|order| - 1]);
    }
  }

  lemma SomeOrder(keys: set<string>) returns (order: seq<string>)
    ensures IsOrder(order, keys)
  {
    order := [];
    var left: set<string> := keys;
    while left != {}
      invariant left <= keys && IsOrder(order, keys - left)
      decreases left
    {
      var k: string :| k in left;
      order, left := order + [k], left - {k};
    }
    assert keys - left == keys;
  }

  /** Otherwise there is an order in which a profile's device comes to light. */
  lemma ShadowingUncovers(profile: Devices, local: Devices, ports: set<Port>) returns (order: seq<string>)
    requires !Unshadowing(profile, local, ports)
    ensures IsOrder(order, Expanded(profile, local).Keys)
    ensures !NothingUncovered(profile, Removed(profile, local, KeptIn(Expanded(profile, local), ports, order)))
  {
    var cur := Expanded(profile, local);
    var k :| k in local && local[k].Proxy? && k in profile && profile[k] != Masked
      && !(local[k].port in ports && forall j :: j in cur && j != k ==> cur[j] != local[k]);
    assert k in cur && cur[k] == local[k];
    if local[k].port !in ports {
      order := SomeOrder(cur.Keys);
    } else {
      var j :| j in cur && j != k && cur[j] == local[k];
      var others := SomeOrder(cur.Keys - {j});
      order := [j] + others;
      FirstIsKept(cur, ports, order);
    }
    KeptServes(cur, ports, order);
    assert k in Removed(profile, local, KeptIn(cur, ports, order));
  }

  /** Nothing comes to light in any order exactly when no own proxy hides a device that its loss could uncover. */
  lemma NothingUncoveredIff(profile: Devices, local: Devices, ports: set<Port>)
    ensures Unshadowing(profile, local, ports) <==>
      forall order :: IsOrder(order, Expanded(profile, local).Keys) ==>
        NothingUncovered(profile, Removed(profile, local, KeptIn(Expanded(profile, local), ports, order)))
  {
    if Unshadowing(profile, local, ports) {
      forall order | IsOrder(order, Expanded(profile, local).Keys)
        ensures NothingUncovered(profile, Removed(profile, local, KeptIn(Expanded(profile, local), ports, order)))
      {
        UnshadowingUncoversNothing(profile, local, ports, order);
      }
    } else {
      var order := ShadowingUncovers(profile, local, ports);
    }
  }

  lemma RemovedIsMissing(profile: Devices, local: Devices, want: set<Port>, kept: set<string>, put: Devices)
    requires Added(Expanded(profile, local), Trimmed(profile, local, kept), want, put)
    ensures local.Keys - put.Keys == Removed(profile, local, kept)
  {
    forall k | k in local ensures k in put <==> k in Trimmed(profile, local, kept) {
      assert k in Expanded(profile, local);
    }
  }

  /** SetPorts: the instance's own devices to write back, or a refusal. */
  method SetPorts(profile: Devices, local: Devices, virtualMachine: bool, ports: seq<Port>, order: seq<string>) returns (r: Option<Devices>)
    requires IsOrder(order, Expanded(profile, local).Keys)
    ensures r.None? <==> (virtualMachine && ports != []) || exists p :: p in ports && p.hostPort == 0 && !InForce(Expanded(profile, local), p)
    ensures r.Some? ==> local.Keys - r.value.Keys == Removed(profile, local, KeptIn(Expanded(profile, local), Wanted(ports), order))
    ensures r.Some? ==> (Reconciled(Expanded(profile, local), Expanded(profile, r.value), Wanted(ports))
                         <==> NothingUncovered(profile, local.Keys - r.value.Keys))
    ensures r.Some? && Unshadowing(profile, local, Wanted(ports)) ==>
      Reconciled(Expanded(profile, local), Expanded(profile, r.value), Wanted(ports))
    ensures r.Some? ==> forall k :: k in local && local[k].Proxy? && local[k].port !in ports ==> k !in r.value
  {
    if virtualMachine && |ports| > 0 {
      return None;
    }
    var all := Wanted(ports);
    var cur := Expanded(profile, local);
    ghost var kept := KeptIn(cur, all, order);
    var put, want := DropUnwanted(profile, local, all, order);
    WantedAreNotInForce(cur, all, want, kept);
    var ok;
    ok, put := AddWanting(cur, put, want);
    if !ok {
      return None;
    }
    RemovedIsMissing(profile, local, want, kept, put);
    KeptServes(cur, all, order);
    if NothingUncovered(profile, Removed(profile, local, kept)) {
      ReconciledIfNothingUncovered(profile, local, all, want, kept, put);
    } else {
      var k :| k in Removed(profile, local, kept) && k in profile && profile[k] != Masked;
      UncoveredSpoils(profile, local, all, want, kept, put, k);
    }
    if Unshadowing(profile, local, all) { UnshadowingUncoversNothing(profile, local, all, order); }
    return Some(put);
  }

  /** Unpublishing the port of a proxy that hides a profile's network card puts the card there instead. */
  method ShadowRun(p: Port) returns (r: Option<Devices>)
    ensures r.Some? && "eth0" !in r.value
    ensures !Reconciled(map["eth0" := Proxy(p)], Expanded(map["eth0" := Other("nic")], r.value), {})
  {
    var profile, local := map["eth0" := Other("nic")], map["eth0" := Proxy(p)];
    assert Expanded(profile, local) == local;
    assert local["eth0"] == Proxy(p) && profile["eth0"] == Other("nic");
    r := SetPorts(profile, local, false, [], ["eth0"]);
    assert Wanted([]) == {};
    assert "eth0" in local.Keys - r.value.Keys && "eth0" in profile;
  }
}
