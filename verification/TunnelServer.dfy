/**
 The server's tunnels as an object: choosing a public port, creating and closing a tunnel, and bringing the tunnels
 of a node in line with the presets it registered. `bind` says which ports the system lets the server listen on.
 */
module TunnelServer {
  import opened Basics
  import C = ClientConfig
  import opened Registry

  /** A time in nanoseconds since 1970, or the zero time. */
  datatype Time = Never | At(nanos: int)

  datatype Node = Node(
    accessToken: string, issuedAt: Time, hostname: string, platform: string, remote: string,
    presets: map<string, C.Preset>, connected: bool, connectedAt: Time, lastSeen: Time,
    provisionError: string, provisionErrorAt: Time)

  /** The protocol each registered preset asks for. */
  function Wanted(presets: map<string, C.Preset>): map<string, string> {
    map p | p in presets :: C.NormalizeProtocol(presets[p].protocol)
  }

  /** Some port can be had: the requested one, or a free one of the range. */
  predicate SomePortBinds(range: Range, ports: map<int, nat>, requested: int, bind: int -> bool) {
    if requested != 0 then bind(requested) else exists p :: p in FreePorts(range, ports) && bind(p)
  }

  predicate PortChosen(range: Range, ports: map<int, nat>, requested: int, bind: int -> bool, port: int) {
    bind(port) && (if requested != 0 then port == requested else port in FreePorts(range, ports))
  }

  // ----- what a sync achieves -----

  predicate IsWanted(t: Tunnel, want: map<string, string>) {
    t.preset in want && want[t.preset] == t.protocol
  }

  /** The tunnels of a node that have the registered protocol, and all tunnels of other nodes, stay as they are. */
  predicate KeepsWanted(before: Maps, after: Maps, node: string, want: map<string, string>) {
    forall id :: id in before.tunnels && (before.tunnels[id].node != node || IsWanted(before.tunnels[id], want)) ==>
      id in after.tunnels && after.tunnels[id] == before.tunnels[id]
  }

  /** Whatever else is registered afterwards is new, of this node, and of a preset that did not fail. */
  predicate AddsWanted(before: Maps, after: Maps, node: string, want: map<string, string>, failed: set<string>) {
    forall id :: id in after.tunnels ==>
      || (id in before.tunnels && after.tunnels[id] == before.tunnels[id]
          && (before.tunnels[id].node != node || IsWanted(before.tunnels[id], want)))
      || (before.nextId <= id && after.tunnels[id].node == node && IsWanted(after.tunnels[id], want)
          && after.tunnels[id].preset !in failed)
  }

  predicate Serves(m: Maps, id: nat, node: string, preset: string) {
    id in m.tunnels && m.tunnels[id].node == node && m.tunnels[id].preset == preset
  }

  predicate Served(m: Maps, node: string, preset: string) {
    exists id :: id in m.tunnels && Serves(m, id, node, preset)
  }

  predicate SinglePerPreset(m: Maps, node: string) {
    forall a, b :: a in m.tunnels && b in m.tunnels && m.tunnels[a].node == node && SamePair(m.tunnels[a], m.tunnels[b]) ==> a == b
  }

  /** Exactly the wanted presets are served, each by one tunnel of the wanted protocol. */
  predicate Synced(m: Maps, node: string, want: map<string, string>) {
    && SinglePerPreset(m, node)
    && (forall id :: id in m.tunnels && m.tunnels[id].node == node ==> IsWanted(m.tunnels[id], want))
    && (forall p :: p in want ==> Served(m, node, p))
  }

  /** The failed presets are wanted, not served, and no free port binds for them. */
  predicate RightlyFailed(range: Range, m: Maps, node: string, want: map<string, string>, failed: set<string>,
                          bind: (string, int) -> bool) {
    forall p :: p in failed ==>
      p in want && !Served(m, node, p) && forall port :: port in FreePorts(range, m.ports) ==> !bind(p, port)
  }

  predicate SyncOutcome(range: Range, before: Maps, after: Maps, node: string, want: map<string, string>,
                        failed: set<string>, bind: (string, int) -> bool) {
    && Inverse(after) && FreshIds(after) && SinglePerPreset(after, node)
    && KeepsWanted(before, after, node, want) && AddsWanted(before, after, node, want, failed)
    && (forall p :: p in want && p !in failed ==> Served(after, node, p))
    && RightlyFailed(range, after, node, want, failed, bind)
  }

  /** What a sync keeps: every tunnel of another node, and those of this one whose preset is registered with their
      protocol. */
  lemma OutcomeKeeps(range: Range, before: Maps, after: Maps, node: string, presets: map<string, C.Preset>,
                     failed: set<string>, bind: (string, int) -> bool, id: nat)
    requires SyncOutcome(range, before, after, node, Wanted(presets), failed, bind) && id in before.tunnels
    requires var t := before.tunnels[id];
             t.node != node || (t.preset in presets && t.protocol == C.NormalizeProtocol(presets[t.preset].protocol))
    ensures id in after.tunnels && after.tunnels[id] == before.tunnels[id]
  {
  }

  /** Afterwards every tunnel of the node has a registered preset and its protocol, and each preset at most one. */
  lemma OutcomeIsWanted(range: Range, before: Maps, after: Maps, node: string, presets: map<string, C.Preset>,
                        failed: set<string>, bind: (string, int) -> bool, id: nat, other: nat)
    requires SyncOutcome(range, before, after, node, Wanted(presets), failed, bind)
    requires id in after.tunnels && after.tunnels[id].node == node
    ensures after.tunnels[id].preset in presets
    ensures after.tunnels[id].protocol == C.NormalizeProtocol(presets[after.tunnels[id].preset].protocol)
    ensures (other in after.tunnels && after.tunnels[other].node == node
             && after.tunnels[other].preset == after.tunnels[id].preset) ==>
              other == id
  {
    if other in after.tunnels && after.tunnels[other].node == node && after.tunnels[other].preset == after.tunnels[id].preset {
      assert SamePair(after.tunnels[id], after.tunnels[other]);
    }
  }

  /** A registered preset is reported exactly if it has no tunnel then, and no free port of the range binds for it. */
  lemma OutcomeServes(range: Range, before: Maps, after: Maps, node: string, presets: map<string, C.Preset>,
                      failed: set<string>, bind: (string, int) -> bool, p: string)
    requires SyncOutcome(range, before, after, node, Wanted(presets), failed, bind)
    ensures p in presets ==>
              (p !in failed <==> exists id :: id in after.tunnels && after.tunnels[id].node == node && after.tunnels[id].preset == p)
    ensures p in failed ==>
              p in presets && forall port :: range.first <= port <= range.last && port !in after.ports ==> !bind(p, port)
  {
    if p in failed {
      assert !Served(after, node, p);
      assert forall id :: id in after.tunnels ==> !Serves(after, id, node, p);
      forall port | range.first <= port <= range.last && port !in after.ports ensures !bind(p, port) {
        assert port in FreePorts(range, after.ports);
      }
    } else if p in presets {
      var id :| id in after.tunnels && Serves(after, id, node, p);
    }
  }

  /** A sync that reports no failure leaves the node in line. */
  lemma SuccessIsSynced(range: Range, before: Maps, after: Maps, node: string, want: map<string, string>,
          bind: (string, int) -> bool)
    requires SyncOutcome(range, before, after, node, want, {}, bind)
    ensures Synced(after, node, want)
  {
  }

  /** What serves a wanted preset keeps serving it. */
  lemma ServedStays(before: Maps, after: Maps, node: string, want: map<string, string>, p: string) returns (id: nat)
    requires Synced(before, node, want) && KeepsWanted(before, after, node, want) && p in want
    ensures id in before.tunnels && Serves(after, id, node, p) && after.tunnels[id] == before.tunnels[id]
  {
    assert Served(before, node, p);
    id :| id in before.tunnels && Serves(before, id, node, p);
  }

  lemma NothingFails(range: Range, before: Maps, after: Maps, node: string, want: map<string, string>,
          failed: set<string>,
                     bind: (string, int) -> bool)
    requires Synced(before, node, want) && KeepsWanted(before, after, node, want)
    requires RightlyFailed(range, after, node, want, failed, bind)
    ensures failed == {}
  {
    forall p ensures p !in failed {
      if p in want {
        var id := ServedStays(before, after, node, want, p);
      }
    }
  }

  lemma NothingAdded(before: Maps, after: Maps, node: string, want: map<string, string>, failed: set<string>, id: nat)
    requires FreshIds(before) && Synced(before, node, want) && KeepsWanted(before, after, node, want)
    requires AddsWanted(before, after, node, want, failed) && SinglePerPreset(after, node)
    requires id in after.tunnels
    ensures id in before.tunnels && after.tunnels[id] == before.tunnels[id]
  {
    if after.tunnels[id].node == node && IsWanted(after.tunnels[id], want) {
      var first := ServedStays(before, after, node, want, after.tunnels[id].preset);
      assert SamePair(after.tunnels[first], after.tunnels[id]);
    }
  }

  /** A sync of a node that is in line changes nothing and reports nothing. */
  lemma SyncedStays(range: Range, before: Maps, after: Maps, node: string, want: map<string, string>, failed: set<string>,
                    bind: (string, int) -> bool)
    requires Inverse(before) && FreshIds(before) && Synced(before, node, want)
    requires SyncOutcome(range, before, after, node, want, failed, bind)
    ensures failed == {} && after.tunnels == before.tunnels && after.ports == before.ports
  {
    NothingFails(range, before, after, node, want, failed, bind);
    forall id | id in after.tunnels ensures id in before.tunnels && after.tunnels[id] == before.tunnels[id] {
      NothingAdded(before, after, node, want, failed, id);
    }
    assert after.tunnels.Keys == before.tunnels.Keys;
    InverseDetermines(before, after);
  }

  lemma InverseDetermines(a: Maps, b: Maps)
    requires Inverse(a) && Inverse(b) && a.tunnels.Keys == b.tunnels.Keys
    requires forall id :: id in a.tunnels ==> a.tunnels[id] == b.tunnels[id]
    ensures a.tunnels == b.tunnels && a.ports == b.ports
  {
    forall p ensures p in a.ports <==> p in b.ports {
      if p in a.ports {
        assert b.tunnels[a.ports[p]].port == p;
      }
      if p in b.ports {
        assert a.tunnels[b.ports[p]].port == p;
      }
    }
    forall p | p in a.ports ensures a.ports[p] == b.ports[p] {
      assert b.tunnels[a.ports[p]].port == p;
    }
  }

  // ----- how a sync gets there -----

  /** After the closes: the unwanted tunnels of the node are gone, everything else is as before. */
  ghost predicate ClosedUnwanted(before: Maps, base: Maps, node: string, want: map<string, string>) {
    && Inverse(base) && FreshIds(base) && base.nextId == before.nextId
    && (forall id :: id in base.tunnels <==>
          id in before.tunnels && (before.tunnels[id].node != node || IsWanted(before.tunnels[id], want)))
    && (forall id :: id in base.tunnels ==> base.tunnels[id] == before.tunnels[id])
  }

  /** While the missing presets are created: `done` were tried, `failed` of them got no tunnel. */
  predicate Progress(range: Range, base: Maps, m: Maps, node: string, want: map<string, string>,
                     done: set<string>, failed: set<string>, bind: (string, int) -> bool) {
    && Inverse(m) && FreshIds(m) && base.nextId <= m.nextId && SinglePerPreset(m, node)
    && (forall id :: id in base.tunnels ==> id in m.tunnels && m.tunnels[id] == base.tunnels[id])
    && (forall id :: id in m.tunnels && id !in base.tunnels ==>
          base.nextId <= id && m.tunnels[id].node == node && IsWanted(m.tunnels[id], want)
          && m.tunnels[id].preset in done && m.tunnels[id].preset !in failed)
    && (forall p :: p in done && p !in failed ==> Served(m, node, p))
    && failed <= done && RightlyFailed(range, m, node, want, failed, bind)
  }

  lemma ServedRegistered(m: Maps, t: Tunnel, node: string, p: string)
    requires FreshIds(m)
    ensures Served(Registered(m, t), node, p) <==> Served(m, node, p) || (t.node == node && t.preset == p)
  {
    var n := Registered(m, t);
    if Served(m, node, p) {
      var id :| id in m.tunnels && Serves(m, id, node, p);
      assert Serves(n, id, node, p);
    }
    if t.node == node && t.preset == p {
      assert Serves(n, m.nextId, node, p);
    }
    if Served(n, node, p) {
      var id :| id in n.tunnels && Serves(n, id, node, p);
      assert id != m.nextId ==> Serves(m, id, node, p);
    }
  }

  lemma FailedStays(range: Range, m: Maps, t: Tunnel, node: string, want: map<string, string>, failed: set<string>,
                    bind: (string, int) -> bool)
    requires FreshIds(m) && RightlyFailed(range, m, node, want, failed, bind) && t.preset !in failed
    ensures RightlyFailed(range, Registered(m, t), node, want, failed, bind)
  {
    forall p | p in failed ensures !Served(Registered(m, t), node, p) {
      ServedRegistered(m, t, node, p);
    }
    assert FreePorts(range, Registered(m, t).ports) <= FreePorts(range, m.ports);
  }

  lemma ProgressCreates(range: Range, base: Maps, m: Maps, node: string, want: map<string, string>,
                        done: set<string>, failed: set<string>, bind: (string, int) -> bool, t: Tunnel)
    requires Progress(range, base, m, node, want, done, failed, bind)
    requires t.preset !in done && t.node == node && IsWanted(t, want) && t.port !in m.ports
    requires !Served(m, node, t.preset)
    ensures Progress(range, base, Registered(m, t), node, want, done + {t.preset}, failed, bind)
  {
    var n := Registered(m, t);
    RegisteredInverse(m, t);
    FailedStays(range, m, t, node, want, failed, bind);
    forall p | p in done + {t.preset} && p !in failed ensures Served(n, node, p) {
      ServedRegistered(m, t, node, p);
    }
    RegisteredSingle(m, t, node);
  }

  lemma RegisteredSingle(m: Maps, t: Tunnel, node: string)
    requires FreshIds(m) && SinglePerPreset(m, node) && t.node == node && !Served(m, node, t.preset)
    ensures SinglePerPreset(Registered(m, t), node)
  {
    assert forall id :: id in m.tunnels && m.tunnels[id].node == node ==> Serves(m, id, node, m.tunnels[id].preset);
  }

  lemma ProgressFails(range: Range, base: Maps, m: Maps, node: string, want: map<string, string>,
                      done: set<string>, failed: set<string>, bind: (string, int) -> bool, p: string)
    requires Progress(range, base, m, node, want, done, failed, bind)
    requires p in want && !Served(m, node, p) && forall port :: port in FreePorts(range, m.ports) ==> !bind(p, port)
    requires p !in done
    ensures Progress(range, base, m, node, want, done + {p}, failed + {p}, bind)
  {
    assert forall id :: id in m.tunnels && m.tunnels[id].node == node ==> Serves(m, id, node, m.tunnels[id].preset);
  }

  /** A preset that is not served when the creation starts is not served until its turn. */
  lemma StillMissing(range: Range, base: Maps, m: Maps, node: string, want: map<string, string>,
                     done: set<string>, failed: set<string>, bind: (string, int) -> bool, p: string)
    requires Progress(range, base, m, node, want, done, failed, bind)
    requires p !in done && !Served(base, node, p)
    ensures !Served(m, node, p)
  {
    assert forall id :: id in base.tunnels && Serves(m, id, node, p) ==> Serves(base, id, node, p);
  }

  lemma ProgressDone(range: Range, before: Maps, base: Maps, m: Maps, node: string, want: map<string, string>,
                     done: set<string>, failed: set<string>, bind: (string, int) -> bool)
    requires ClosedUnwanted(before, base, node, want) && Progress(range, base, m, node, want, done, failed, bind)
    requires forall p :: p in want && p !in done ==> Served(base, node, p)
    ensures SyncOutcome(range, before, m, node, want, failed, bind)
  {
    forall p | p in want && p !in failed ensures Served(m, node, p) {
      if p !in done {
        var id :| id in base.tunnels && Serves(base, id, node, p);
        assert Serves(m, id, node, p);
      }
    }
  }

  // ----- the object -----

  method Shuffle(ports: seq<int>) returns (r: seq<int>)
    ensures multiset(r) == multiset(ports)
  {
    r := ports;
    for i := 0 to |ports|
      invariant |r| == |ports| && multiset(r) == multiset(ports)
    {
      var j: int :| i <= j < |r|;
      r := r[i := r[j]][j := r[i]];
    }
  }

  class Server {
    const range: Range
    var nodes: map<string, Node>
    var tunnels: map<nat, Tunnel>
    var ports: map<int, nat>
    var nextId: nat

    ghost function View(): Maps
      reads this
    {
      Maps(tunnels, ports, nextId)
    }

    ghost predicate Valid()
      reads this
    {
      Inverse(View()) && FreshIds(View())
    }

    constructor (range: Range)
      requires 0 < range.first
      ensures this.range == range && nodes == map[] && View() == Maps(map[], map[], 0)
    {
      this.range := range;
      nodes, tunnels, ports, nextId := map[], map[], map[], 0;
    }

    /** The requested port, or the free ports of the range in any order; none if there is no free one. */
    method PortCandidates(requested: int) returns (r: seq<int>)
      ensures requested != 0 ==> r == [requested]
      ensures requested == 0 ==> forall p :: p in r <==> p in FreePorts(range, ports)
    {
      if requested != 0 {
        return [requested];
      }
      r := [];
      var port := range.first;
      while port <= range.last
        invariant range.first <= port
        invariant port <= range.last + 1 || r == []
        invariant forall p :: p in r <==> p in FreePorts(range, ports) && p < port
      {
        if port !in ports {
          r := r + [port];
        }
        port := port + 1;
      }
      var listed := r;
      r := Shuffle(listed);
      assert forall p :: p in r <==> p in multiset(r);
      assert forall p :: p in listed <==> p in multiset(listed);
    }

    method FindMapped(node: string, preset: string, allowed: Option<nat>) returns (r: bool)
      ensures r <==> IsMapped(View(), node, preset, allowed)
    {
      var rest := tunnels.Keys;
      while rest != {}
        invariant rest <= tunnels.Keys
        invariant forall id :: id in tunnels.Keys - rest ==>
                    !(tunnels[id].node == node && tunnels[id].preset == preset && Some(id) != allowed)
        decreases |rest|
      {
        var id :| id in rest;
        if tunnels[id].node == node && tunnels[id].preset == preset && Some(id) != allowed {
          return true;
        }
        rest := rest - {id};
      }
      r := false;
    }

    /** The first candidate that binds; a candidate that was taken meanwhile is passed over. */
    method BindCandidate(candidates: seq<int>, requested: int, bind: int -> bool) returns (r: Option<int>)
      requires requested != 0 ==> candidates == [requested]
      requires requested == 0 ==> forall p :: p in candidates <==> p in FreePorts(range, ports)
      ensures r.Some? <==> SomePortBinds(range, ports, requested, bind)
      ensures r.Some? ==> PortChosen(range, ports, requested, bind, r.value)
    {
      for i := 0 to |candidates|
        invariant forall k :: 0 <= k < i ==> !bind(candidates[k])
      {
        var port := candidates[i];
        assert port in candidates;
        if requested == 0 && port in ports {
          continue;
        }
        if bind(port) {
          return Some(port);
        }
      }
      assert forall p :: p in candidates ==> !bind(p);
      r := None;
    }

    /** A tunnel is created exactly if the node has the preset, no other tunnel serves it, and a port binds. */
    method CreateTunnelInternal(node: string, preset: string, requested: int, allowed: Option<nat>, bind: int -> bool)
      returns (r: Option<Tunnel>)
      modifies this
      ensures nodes == old(nodes)
      ensures r.Some? <==> && node in nodes && preset in nodes[node].presets
                           && !IsMapped(old(View()), node, preset, allowed)
                           && SomePortBinds(range, old(ports), requested, bind)
      ensures r.None? ==> View() == old(View())
      ensures r.Some? ==> && PortChosen(range, old(ports), requested, bind, r.value.port)
                          && r.value == Tunnel(node, preset, Wanted(nodes[node].presets)[preset], r.value.port)
                          && View() == Registered(old(View()), r.value)
      ensures r.Some? <==>
                && node in nodes && preset in nodes[node].presets
                && (forall id :: id in old(tunnels) && allowed != Some(id) ==>
                      old(tunnels)[id].node != node || old(tunnels)[id].preset != preset)
                && if requested != 0 then bind(requested)
                   else exists p :: range.first <= p <= range.last && p !in old(ports) && bind(p)
      ensures r.Some? ==> && r.value.node == node && r.value.preset == preset && bind(r.value.port)
                          && (requested != 0 ==> r.value.port == requested)
                          && (requested == 0 ==> range.first <= r.value.port <= range.last && r.value.port !in old(ports))
                          && tunnels == old(tunnels)[old(nextId) := r.value]
                          && ports == old(ports)[r.value.port := old(nextId)]
      ensures old(Valid()) && (requested == 0 || requested !in old(ports)) ==> Valid()
    {
      if node !in nodes || preset !in nodes[node].presets {
        return None;
      }
      var mapped := FindMapped(node, preset, allowed);
      if mapped {
        return None;
      }
      var candidates := PortCandidates(requested);
      var port := BindCandidate(candidates, requested, bind);
      if port.None? {
        return None;
      }
      var tunnel := Tunnel(node, preset, C.NormalizeProtocol(nodes[node].presets[preset].protocol), port.value);
      if Valid() {
        RegisteredInverse(View(), tunnel);
      }
      tunnels := tunnels[nextId := tunnel];
      ports := ports[port.value := nextId];
      nextId := nextId + 1;
      r := Some(tunnel);
    }

    /** Closing a tunnel that is registered takes it out of both maps; closing it again does nothing. */
    method CloseTunnel(id: nat)
      modifies this`tunnels, this`ports
      ensures View() == if id in old(tunnels) then Unregistered(old(View()), id) else old(View())
      ensures id in old(tunnels) ==>
                && tunnels == old(tunnels) - {id}
                && ports == if (old(tunnels)[id].port, id) in old(ports).Items then old(ports) - {old(tunnels)[id].port}
                            else old(ports)
      ensures old(Valid()) ==> Valid()
    {
      if id in tunnels {
        if Valid() {
          UnregisteredInverse(View(), id);
        }
        var port := tunnels[id].port;
        tunnels := tunnels - {id};
        if port in ports && ports[port] == id {
          ports := ports - {port};
        }
      }
    }

    /** The replacement is registered, on another port, before the current tunnel is closed; a failure changes nothing. */
    method ReassignTunnel(id: nat, bind: int -> bool) returns (r: Option<Tunnel>)
      requires Valid()
      modifies this
      ensures nodes == old(nodes) && Valid()
      ensures r.Some? <==>
                && id in old(tunnels)
                && var t := old(tunnels)[id];
                   && t.node in nodes && t.preset in nodes[t.node].presets
                       && !IsMapped(old(View()), t.node, t.preset, Some(id))
                   && SomePortBinds(range, old(ports), 0, bind)
      ensures r.None? ==> View() == old(View())
      ensures r.Some? ==> && r.value.port != old(tunnels)[id].port && SamePair(r.value, old(tunnels)[id])
                          && View() == Unregistered(Registered(old(View()), r.value), id)
      ensures r.Some? <==>
                && id in old(tunnels)
                && old(tunnels)[id].node in nodes && old(tunnels)[id].preset in nodes[old(tunnels)[id].node].presets
                && (forall other :: other in old(tunnels) && other != id ==>
                      old(tunnels)[other].node != old(tunnels)[id].node
                      || old(tunnels)[other].preset != old(tunnels)[id].preset)
                && exists p :: range.first <= p <= range.last && p !in old(ports) && bind(p)
      ensures r.Some? ==> && r.value.node == old(tunnels)[id].node && r.value.preset == old(tunnels)[id].preset
                          && range.first <= r.value.port <= range.last && r.value.port !in old(ports)
                          && tunnels == old(tunnels)[old(nextId) := r.value] - {id}
                          && ports == old(ports)[r.value.port := old(nextId)] - {old(tunnels)[id].port}
    {
      if id !in tunnels {
        return None;
      }
      var current := tunnels[id];
      r := CreateTunnelInternal(current.node, current.preset, 0, Some(id), bind);
      if r.Some? {
        CloseTunnel(id);
      }
    }

    /** Deleting a node closes its tunnels and no others. */
    method DeleteNode(node: string)
      requires Valid()
      modifies this
      ensures Valid() && nodes == old(nodes) - {node} && nextId == old(nextId)
      ensures node in old(nodes) ==>
          tunnels == map id | id in old(tunnels) && old(tunnels)[id].node != node :: old(tunnels)[id]
      ensures node !in old(nodes) ==> View() == old(View())
    {
      if node !in nodes {
        return;
      }
      var existing := ListTunnelsForNode(node);
      nodes := nodes - {node};
      CloseUnwanted(existing, node, map[]);
    }

    /** The registered tunnels of a node. */
    method ListTunnelsForNode(node: string) returns (r: seq<nat>)
      ensures forall id :: id in r <==> id in tunnels && tunnels[id].node == node
    {
      r := [];
      var rest := tunnels.Keys;
      while rest != {}
        invariant rest <= tunnels.Keys
        invariant forall id :: id in r <==> id in tunnels && id !in rest && tunnels[id].node == node
        decreases |rest|
      {
        var id :| id in rest;
        rest := rest - {id};
        if tunnels[id].node == node {
          r := r + [id];
        }
      }
    }

    /** Closes the listed tunnels whose preset is gone or has another protocol. */
    method CloseUnwanted(existing: seq<nat>, node: string, want: map<string, string>)
      requires Valid()
      requires forall id :: id in existing <==> id in tunnels && tunnels[id].node == node
      modifies this`tunnels, this`ports
      ensures ClosedUnwanted(old(View()), View(), node, want)
    {
      for i := 0 to |existing|
        invariant Valid()
        invariant forall id :: id in tunnels <==>
                    id in old(tunnels) && (id in existing[..i] ==> IsWanted(old(tunnels)[id], want))
        invariant forall id :: id in tunnels ==> tunnels[id] == old(tunnels)[id]
      {
        var id := existing[i];
        assert existing[..i + 1] == existing[..i] + [id];
        if id in tunnels && !IsWanted(tunnels[id], want) {
          CloseTunnel(id);
        }
      }
      assert existing[..|existing|] == existing;
    }

    /** The wanted presets that no tunnel of the wanted protocol serves, in any order. */
    method MissingPresets(existing: seq<nat>, node: string, want: map<string, string>) returns (missing: seq<string>)
      requires forall id :: id in existing <==> id in tunnels && tunnels[id].node == node
      ensures forall p :: p in missing ==> p in want
      ensures SinglePerPreset(View(), node) ==> forall p :: p in want ==>
          (p in missing <==> !ServedRightly(View(), node, want, p))
      ensures forall i, j :: 0 <= i < j < |missing| ==> missing[i] != missing[j]
    {
      var byPreset: map<string, nat> := map[];
      for i := 0 to |existing|
        invariant forall p :: p in byPreset ==> byPreset[p] in tunnels && Serves(View(), byPreset[p], node, p)
        invariant forall k :: 0 <= k < i ==> tunnels[existing[k]].preset in byPreset
      {
        byPreset := byPreset[tunnels[existing[i]].preset := existing[i]];
      }
      missing := [];
      var rest := want.Keys;
      while rest != {}
        invariant rest <= want.Keys
        invariant forall p :: p in missing ==> p in want && p !in rest
        invariant forall p :: p in want && p !in rest ==>
                    (p in missing <==> p !in byPreset || tunnels[byPreset[p]].protocol != want[p])
        invariant forall i, j :: 0 <= i < j < |missing| ==> missing[i] != missing[j]
        decreases |rest|
      {
        var p :| p in rest;
        rest := rest - {p};
        if p !in byPreset || tunnels[byPreset[p]].protocol != want[p] {
          missing := missing + [p];
        }
      }
      if SinglePerPreset(View(), node) {
        forall p | p in want && ServedRightly(View(), node, want, p) ensures p !in missing {
          var id :| id in tunnels && Serves(View(), id, node, p) && tunnels[id].protocol == want[p];
          assert id in existing;
          assert SamePair(tunnels[byPreset[p]], tunnels[id]);
        }
      }
    }

    /** Creates a tunnel for each missing preset and reports those that got none. */
    method CreateMissing(missing: seq<string>, node: string, bind: (string, int) -> bool) returns (failed: set<string>)
      requires Valid() && node in nodes
      requires forall p :: p in missing ==> p in nodes[node].presets
      requires forall i, j :: 0 <= i < j < |missing| ==> missing[i] != missing[j]
      modifies this
      ensures nodes == old(nodes) && Valid()
      ensures SinglePerPreset(old(View()), node) && (forall p :: p in missing ==> !Served(old(View()), node, p)) ==>
                Progress(range, old(View()), View(), node, Wanted(nodes[node].presets), Names(missing), failed, bind)
    {
      failed := {};
      ghost var base, want := View(), Wanted(nodes[node].presets);
      ghost var single := SinglePerPreset(base, node) && forall p :: p in missing ==> !Served(base, node, p);
      for i := 0 to |missing|
        invariant nodes == old(nodes) && Valid()
        invariant single ==> Progress(range, base, View(), node, want, Names(missing[..i]), failed, bind)
      {
        var p := missing[i];
        ghost var m := View();
        NamesSnoc(missing, i);
        var tunnel := CreateTunnelInternal(node, p, 0, None, port => bind(p, port));
        if single {
          StillMissing(range, base, m, node, want, Names(missing[..i]), failed, bind, p);
          if tunnel.None? {
            NotMapped(m, node, p);
            ProgressFails(range, base, m, node, want, Names(missing[..i]), failed, bind, p);
          } else {
            ProgressCreates(range, base, m, node, want, Names(missing[..i]), failed, bind, tunnel.value);
          }
        }
        if tunnel.None? {
          failed := failed + {p};
        }
      }
      assert missing[..|missing|] == missing;
    }

    /** With at most one tunnel per preset, a sync brings the tunnels of a registered node in line with its presets,
        except for those it reports. */
    method SyncNodeTunnels(node: string, bind: (string, int) -> bool) returns (failed: set<string>)
      requires Valid()
      modifies this
      ensures nodes == old(nodes) && Valid()
      ensures node !in nodes ==> View() == old(View()) && failed == {}
      ensures node in nodes && SinglePerPreset(old(View()), node) ==>
                SyncOutcome(range, old(View()), View(), node, Wanted(nodes[node].presets), failed, bind)
    {
      failed := {};
      if node !in nodes {
        return;
      }
      ghost var before := View();
      var want := Wanted(nodes[node].presets);
      var existing := ListTunnelsForNode(node);
      var missing := MissingPresets(existing, node, want);
      CloseUnwanted(existing, node, want);
      ghost var base := View();
      MissingIsUnserved(before, base, node, want);
      failed := CreateMissing(missing, node, bind);
      if SinglePerPreset(before, node) {
        ProgressDone(range, before, base, View(), node, want, Names(missing), failed, bind);
      }
    }
  }

  function Names(missing: seq<string>): (r: set<string>)
    ensures forall p :: p in r <==> p in missing
  {
    set p | p in missing
  }

  lemma NamesSnoc(missing: seq<string>, i: nat)
    requires i < |missing| && forall i, j :: 0 <= i < j < |missing| ==> missing[i] != missing[j]
    ensures Names(missing[..i + 1]) == Names(missing[..i]) + {missing[i]} && missing[i] !in Names(missing[..i])
  {
    assert missing[..i + 1] == missing[..i] + [missing[i]];
  }

  lemma NotMapped(m: Maps, node: string, preset: string)
    requires !Served(m, node, preset)
    ensures !IsMapped(m, node, preset, None)
  {
    assert forall id :: id in m.tunnels ==> !Serves(m, id, node, preset);
  }

  /** Some tunnel of the node has the preset and its wanted protocol. */
  predicate ServedRightly(m: Maps, node: string, want: map<string, string>, p: string) {
    p in want && exists id :: id in m.tunnels && Serves(m, id, node, p) && m.tunnels[id].protocol == want[p]
  }

  /** The presets without a tunnel of the right protocol are those that nothing serves after the closes. */
  lemma MissingIsUnserved(before: Maps, base: Maps, node: string, want: map<string, string>)
    requires ClosedUnwanted(before, base, node, want)
    ensures forall p :: p in want ==> (Served(base, node, p) <==> ServedRightly(before, node, want, p))
  {
    forall p | p in want ensures Served(base, node, p) <==> ServedRightly(before, node, want, p) {
      if Served(base, node, p) {
        var id :| id in base.tunnels && Serves(base, id, node, p);
        assert Serves(before, id, node, p);
      }
      if ServedRightly(before, node, want, p) {
        var id :| id in before.tunnels && Serves(before, id, node, p) && before.tunnels[id].protocol == want[p];
        assert Serves(base, id, node, p);
      }
    }
  }
}
