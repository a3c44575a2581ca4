/** What is saved of a node or a tunnel, and what any saved record, also a damaged one, is restored as. */
module RestoredState {
  import opened Basics
  import opened Text
  import C = ClientConfig
  import opened Registry
  import opened TunnelServer
  import opened Persistence

  // ----- times -----

  /** The time of a saved number of seconds; none for zero and less. */
  function TimeOf(seconds: int): Time {
    if seconds <= 0 then Never else At(seconds * 1_000_000_000)
  }

  /** A saved time is the number of whole seconds before it. */
  lemma SavedTime(t: Time)
    ensures t == Never ==> UnixIfNotZero(t) == 0
    ensures t.At? ==> UnixIfNotZero(t) * 1_000_000_000 <= t.nanos < (UnixIfNotZero(t) + 1) * 1_000_000_000
  {
  }

  lemma RestoredTime(seconds: int)
    ensures FromUnix(seconds) == TimeOf(seconds)
  {
  }

  // ----- presets -----

  /** A preset with a name, an address and a known protocol is restored, trimmed; any other is passed over. */
  lemma RestoredPreset(p: C.Preset)
    ensures var protocol := if Trim(p.protocol) == "" then "tcp" else Lower(Trim(p.protocol));
            RestorePreset(p) ==
              if Trim(p.name) == "" || Trim(p.localAddr) == "" || (protocol != "tcp" && protocol != "udp") then None
              else Some((Trim(p.name), C.Preset(Trim(p.name), Trim(p.localAddr), p.description, protocol)))
  {
    C.NormalizeProtocolIdempotent(p.protocol);
  }

  lemma {:induction false} ReadIntoSnoc<A, K, V>(entry: A -> Option<(K, V)>, items: seq<A>, x: A, m: map<K, V>)
    ensures ReadInto(entry, items + [x], m) ==
              match entry(x)
              case None => ReadInto(entry, items, m)
              case Some(e) => ReadInto(entry, items, m)[e.0 := e.1]
    decreases |items|
  {
    if |items| == 0 {
      assert items + [x] == [x] && [x][1..] == [];
    } else {
      assert (items + [x])[1..] == items[1..] + [x];
      ReadIntoSnoc(entry, items[1..], x, match entry(items[0]) case None => m case Some(e) => m[e.0 := e.1]);
    }
  }

  // ----- nodes -----

  /** A node with a name and a token is restored, disconnected and trimmed, with its times and presets. */
  lemma RestoredNode(item: SavedNode)
    ensures RestoreNode(item).Some? <==> Trim(item.name) != "" && Trim(item.accessToken) != ""
    ensures RestoreNode(item).Some? ==>
              var name, n := RestoreNode(item).value.0, RestoreNode(item).value.1;
              && name == Trim(item.name) && n.accessToken == Trim(item.accessToken)
              && n.hostname == Trim(item.hostname) && n.platform == Trim(item.platform) && n.remote == Trim(item.remote)
              && !n.connected && n.provisionError == Trim(item.provisionError)
              && n.issuedAt == TimeOf(item.issuedAt) && n.connectedAt == TimeOf(item.connectedAt)
              && n.lastSeen == TimeOf(item.lastSeen) && n.provisionErrorAt == TimeOf(item.provisionErrorAt)
              && n.presets == ReadInto(RestorePreset, item.presets, map[])
  {
  }

  /** The last of several nodes with one name counts. */
  lemma LastNodeCounts(items: seq<SavedNode>, item: SavedNode)
    ensures RestoreNodes(items + [item]) ==
              if RestoreNode(item).None? then RestoreNodes(items)
              else RestoreNodes(items)[Trim(item.name) := RestoreNode(item).value.1]
  {
    ReadIntoSnoc(RestoreNode, items, item, map[]);
  }

  /** A preset is restored behind those before it, and replaces one of its name. */
  lemma LastPresetCounts(items: seq<C.Preset>, p: C.Preset)
    ensures ReadInto(RestorePreset, items + [p], map[]) ==
              if RestorePreset(p).None? then ReadInto(RestorePreset, items, map[])
              else ReadInto(RestorePreset, items, map[])[Trim(p.name) := RestorePreset(p).value.1]
  {
    ReadIntoSnoc(RestorePreset, items, p, map[]);
  }

  /** What is saved of a node. */
  lemma SavedNodeIs(saved: SavedNode, name: string, n: Node, i: nat)
    requires SavesNode(saved, name, n)
    ensures && saved.name == name && saved.accessToken == n.accessToken && saved.hostname == n.hostname
            && saved.platform == n.platform && saved.remote == n.remote && saved.provisionError == n.provisionError
            && saved.issuedAt == UnixIfNotZero(n.issuedAt) && saved.connectedAt == UnixIfNotZero(n.connectedAt)
            && saved.lastSeen == UnixIfNotZero(n.lastSeen) && saved.provisionErrorAt == UnixIfNotZero(n.provisionErrorAt)
    ensures forall p :: p in n.presets ==> n.presets[p].(protocol := C.NormalizeProtocol(n.presets[p].protocol)) in saved.presets
  {
    var order :| ListsPresets(saved.presets, n.presets, order);
    forall p | p in n.presets ensures n.presets[p].(protocol := C.NormalizeProtocol(n.presets[p].protocol)) in saved.presets {
      assert p in order;
      var k :| 0 <= k < |order| && order[k] == p;
      assert saved.presets[k] == SavePreset(n.presets[p]);
    }
  }

  // ----- tunnels -----

  /** A saved tunnel is passed over if its node or its preset is not known. */
  lemma UnknownTunnel(range: Range, s: ServerState, item: SavedTunnel, bind: (string, int) -> bool, now: Time, t: ServerState)
    requires RestoreStep(range, s, item, bind, now, t)
    requires Trim(item.node) !in s.nodes || item.preset !in s.nodes[Trim(item.node)].presets
    ensures t == s
  {
  }

  /** It is created, on its saved port and with its counters, if no tunnel of the same node and preset is registered and the
      port binds. */
  lemma RestoredTunnel(range: Range, s: ServerState, item: SavedTunnel, bind: (string, int) -> bool, now: Time, t: ServerState)
    requires RestoreStep(range, s, item, bind, now, t)
    requires Trim(item.node) == item.node && item.node in s.nodes && item.preset in s.nodes[item.node].presets
    requires forall id :: id in s.m.tunnels && s.m.tunnels[id].node == item.node ==> s.m.tunnels[id].preset != item.preset
    requires item.port != 0
    requires bind(C.NormalizeProtocol(s.nodes[item.node].presets[item.preset].protocol), item.port)
    ensures var protocol := C.NormalizeProtocol(s.nodes[item.node].presets[item.preset].protocol);
            && t.nodes == s.nodes
            && t.m.tunnels == s.m.tunnels[s.m.nextId := Tunnel(item.node, item.preset, protocol, item.port)]
            && t.m.ports == s.m.ports[item.port := s.m.nextId]
            && s.m.nextId in t.stats && t.stats == s.stats[s.m.nextId := t.stats[s.m.nextId]]
    ensures s.m.nextId in t.stats && var c := t.stats[s.m.nextId];
            && c.total == item.total && c.ingress == item.ingress && c.egress == item.egress && c.active == 0
            && c.lastActivity == item.lastActivity && c.lastError == item.lastError
            && c.createdAt == (if item.createdAt > 0 then TimeOf(item.createdAt) else now)
            && c.lastErrorAt == (if item.lastError == "" then Never else TimeOf(item.lastErrorAt))
  {
    var protocol := Wanted(s.nodes[item.node].presets)[item.preset];
    assert !IsMapped(s.m, item.node, item.preset, None);
    assert SomePortBinds(range, s.m.ports, item.port, p => bind(protocol, p));
    assert Restorable(range, s, item, bind);
  }

  /** If one is registered, the port does not bind, or the node's name is not trimmed, nothing is created and the node keeps
      an error. */
  lemma FailedTunnel(range: Range, s: ServerState, item: SavedTunnel, bind: (string, int) -> bool, now: Time, t: ServerState)
    requires RestoreStep(range, s, item, bind, now, t)
    requires Trim(item.node) in s.nodes && item.preset in s.nodes[Trim(item.node)].presets && item.port != 0
    requires || item.node !in s.nodes || item.preset !in s.nodes[item.node].presets
             || (exists id :: id in s.m.tunnels && s.m.tunnels[id].node == item.node && s.m.tunnels[id].preset == item.preset)
             || !bind(C.NormalizeProtocol(s.nodes[item.node].presets[item.preset].protocol), item.port)
    ensures var name := Trim(item.node);
            && t.m == s.m && t.stats == s.stats && t.nodes.Keys == s.nodes.Keys
            && t.nodes[name].provisionError != "" && t.nodes[name].provisionErrorAt == now
            && forall other :: other in s.nodes && other != name ==> t.nodes[other] == s.nodes[other]
  {
    assert !Restorable(range, s, item, bind);
  }

  /** What is saved of a tunnel. */
  lemma SavedTunnelIs(id: nat, t: Tunnel, c: Stats)
    ensures var s := SaveTunnel(id, t, c);
            && s.id == id && s.node == t.node && s.preset == t.preset && s.protocol == t.protocol && s.port == t.port
            && s.total == c.total && s.ingress == c.ingress && s.egress == c.egress && s.lastActivity == c.lastActivity
            && s.lastError == c.lastError && s.createdAt == UnixIfNotZero(c.createdAt)
            && s.lastErrorAt == UnixIfNotZero(c.lastErrorAt)
  {
  }
}
