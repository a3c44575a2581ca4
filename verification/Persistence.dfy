/**
 Saving the server's nodes and tunnels and restoring them after a restart. A snapshot lists maps in some order; any
 order is allowed for. Writing the snapshot as JSON and reading it back is the identity on records.
 */
module Persistence {
  import opened Basics
  import opened Text
  import C = ClientConfig
  import opened Registry
  import opened TunnelServer

  const NANOS := 1_000_000_000

  datatype SavedNode = SavedNode(
    name: string, accessToken: string, issuedAt: int, hostname: string, platform: string, remote: string,
    presets: seq<C.Preset>, connectedAt: int, lastSeen: int, provisionError: string, provisionErrorAt: int)

  datatype SavedTunnel = SavedTunnel(
    id: nat, node: string, preset: string, protocol: string, port: int, createdAt: int,
    total: nat, ingress: nat, egress: nat, lastActivity: int, lastError: string, lastErrorAt: int)

  /** What a tunnel counts. */
  datatype Stats = Stats(
    createdAt: Time, total: nat, ingress: nat, egress: nat, lastActivity: int, lastError: string, lastErrorAt: Time,
    active: int)

  datatype ServerState = ServerState(nodes: map<string, Node>, m: Maps, stats: map<nat, Stats>)

  // ----- times -----

  function UnixIfNotZero(t: Time): int {
    if t.Never? then 0 else t.nanos / NANOS
  }

  function FromUnix(seconds: int): Time {
    if seconds > 0 then At(seconds * NANOS) else Never
  }

  /** What is left of a time after saving: whole seconds, and nothing from before 1970. */
  function WholeSeconds(t: Time): Time {
    FromUnix(UnixIfNotZero(t))
  }

  lemma WholeSecondsIsFloor(t: Time)
    ensures WholeSeconds(WholeSeconds(t)) == WholeSeconds(t)
    ensures t.At? && t.nanos >= NANOS ==> WholeSeconds(t).At? && 0 <= t.nanos - WholeSeconds(t).nanos < NANOS
  {
  }

  // ----- saving -----

  function SavePreset(p: C.Preset): C.Preset {
    p.(protocol := C.NormalizeProtocol(p.protocol))
  }

  function SaveNode(name: string, n: Node, presets: seq<C.Preset>): SavedNode {
    SavedNode(name, n.accessToken, UnixIfNotZero(n.issuedAt), n.hostname, n.platform, n.remote, presets,
              UnixIfNotZero(n.connectedAt), UnixIfNotZero(n.lastSeen), n.provisionError, UnixIfNotZero(n.provisionErrorAt))
  }

  function SaveTunnel(id: nat, t: Tunnel, s: Stats): SavedTunnel {
    SavedTunnel(id, t.node, t.preset, t.protocol, t.port, UnixIfNotZero(s.createdAt),
                s.total, s.ingress, s.egress, s.lastActivity, s.lastError, UnixIfNotZero(s.lastErrorAt))
  }

  /** Lists the keys of a map, each once. */
  ghost predicate Lists<K(!new)>(order: seq<K>, keys: set<K>) {
    && (forall k :: k in order <==> k in keys)
    && forall i, j :: 0 <= i < j < |order| ==> order[i] != order[j]
  }

  /** The presets of a node, listed in some order. */
  ghost predicate ListsPresets(saved: seq<C.Preset>, presets: map<string, C.Preset>, order: seq<string>) {
    && Lists(order, presets.Keys) && |saved| == |order|
    && forall i :: 0 <= i < |order| ==> saved[i] == SavePreset(presets[order[i]])
  }

  ghost predicate SavesNode(saved: SavedNode, name: string, n: Node) {
    && saved == SaveNode(name, n, saved.presets)
    && exists order :: ListsPresets(saved.presets, n.presets, order)
  }

  ghost predicate ListsNodes(saved: seq<SavedNode>, nodes: map<string, Node>, order: seq<string>) {
    && Lists(order, nodes.Keys) && |saved| == |order|
    && forall i :: 0 <= i < |order| ==> SavesNode(saved[i], order[i], nodes[order[i]])
  }

  ghost predicate ListsTunnels(saved: seq<SavedTunnel>, m: Maps, stats: map<nat, Stats>, order: seq<nat>) {
    && Lists(order, m.tunnels.Keys) && m.tunnels.Keys == stats.Keys && |saved| == |order|
    && forall i :: 0 <= i < |order| ==> saved[i] == SaveTunnel(order[i], m.tunnels[order[i]], stats[order[i]])
  }

  // ----- restoring -----

  /** Reads a list into a map: entries that are refused are left out, later ones replace earlier ones. */
  function ReadInto<A, K, V>(entry: A -> Option<(K, V)>, items: seq<A>, m: map<K, V>): map<K, V> {
    if |items| == 0 then m
    else
      match entry(items[0])
      case None => ReadInto(entry, items[1..], m)
      case Some(e) => ReadInto(entry, items[1..], m[e.0 := e.1])
  }

  function RestorePreset(p: C.Preset): Option<(string, C.Preset)> {
    var name, addr, protocol := Trim(p.name), Trim(p.localAddr), C.NormalizeProtocol(p.protocol);
    if name == "" || addr == "" || !C.IsSupportedProtocol(protocol) then None
    else Some((name, p.(name := name, localAddr := addr, protocol := protocol)))
  }

  function RestoreNode(item: SavedNode): Option<(string, Node)> {
    if Trim(item.name) == "" || Trim(item.accessToken) == "" then None
    else
      Some((Trim(item.name),
            Node(Trim(item.accessToken), FromUnix(item.issuedAt), Trim(item.hostname), Trim(item.platform), Trim(item.remote),
                 ReadInto(RestorePreset, item.presets, map[]), false, FromUnix(item.connectedAt), FromUnix(item.lastSeen),
                 Trim(item.provisionError), FromUnix(item.provisionErrorAt))))
  }

  function RestoreNodes(items: seq<SavedNode>): map<string, Node> {
    ReadInto(RestoreNode, items, map[])
  }

  /** The counters of a tunnel that was just created, overwritten by the saved ones. */
  function AppliedStats(item: SavedTunnel, now: Time): Stats {
    Stats(if item.createdAt > 0 then FromUnix(item.createdAt) else now, item.total, item.ingress, item.egress, item.lastActivity,
          item.lastError, if item.lastError == "" then Never else FromUnix(item.lastErrorAt), 0)
  }

  /** A list of entries with different keys is read back as the map it lists. */
  lemma {:induction false} ReadListing<A, K(!new), V>(entry: A -> Option<(K, V)>, items: seq<A>, m: map<K, V>,
          order: seq<K>, want: map<K, V>)
    requires |items| == |order| && forall i, j :: 0 <= i < j < |order| ==> order[i] != order[j]
    requires forall k :: k in want <==> k in order
    requires forall i :: 0 <= i < |items| ==> entry(items[i]) == Some((order[i], want[order[i]]))
    requires forall k :: k in order ==> k !in m
    ensures ReadInto(entry, items, m) == m + want
  {
    if |items| == 0 {
      assert m + want == m;
    } else {
      var k := order[0];
      var rest := map x | x in want && x != k :: want[x];
      forall x ensures x in rest <==> x in order[1..] {
        if x in order[1..] {
          var j :| 0 <= j < |order[1..]| && order[1..][j] == x;
          assert order[j + 1] == x;
        }
      }
      ReadListing(entry, items[1..], m[k := want[k]], order[1..], rest);
      assert m[k := want[k]] + rest == m + want;
    }
  }

  /** What restoring one saved tunnel does. A tunnel of an unknown node or preset is passed over; one that cannot be
      created leaves an error with its node. */
  ghost predicate RestoreStep(range: Range, s: ServerState, item: SavedTunnel, bind: (string, int) -> bool,
          now: Time, t: ServerState) {
    var name := Trim(item.node);
    if name !in s.nodes || item.preset !in s.nodes[name].presets then t == s
    else if Restorable(range, s, item, bind) then
      && s.m.nextId in t.m.tunnels
      && var created := t.m.tunnels[s.m.nextId];
         && created == Tunnel(item.node, item.preset, Wanted(s.nodes[item.node].presets)[item.preset], created.port)
         && PortChosen(range, s.m.ports, item.port, p => bind(created.protocol, p), created.port)
         && t == ServerState(s.nodes, Registered(s.m, created), s.stats[s.m.nextId := AppliedStats(item, now)])
    else
      && t.m == s.m && t.stats == s.stats && name in t.nodes && t.nodes[name].provisionError != ""
      && t.nodes == s.nodes[name := s.nodes[name].(provisionError := t.nodes[name].provisionError,
                                                   provisionErrorAt := now)]
  }

  predicate Restorable(range: Range, s: ServerState, item: SavedTunnel, bind: (string, int) -> bool) {
    && item.node in s.nodes && item.preset in s.nodes[item.node].presets && !IsMapped(s.m, item.node, item.preset, None)
    && SomePortBinds(range, s.m.ports, item.port, p => bind(Wanted(s.nodes[item.node].presets)[item.preset], p))
  }

  /** The steps from `s` to `t`, one for each item; a step also sees how many items are left. */
  ghost predicate Run<S(!new), A>(step: (S, A, int, S) -> bool, s: S, items: seq<A>, t: S)
    decreases |items|
  {
    if |items| == 0 then t == s
    else exists mid :: step(s, items[0], |items|, mid) && Run(step, mid, items[1..], t)
  }

  /** Restoring a tunnel as a step; `bind` may answer differently for each tunnel still to be restored. */
  ghost function Restorer(range: Range, bind: (int, string, int) -> bool, now: Time)
    : (ServerState, SavedTunnel, int, ServerState) -> bool
  {
    (s, item, n, t) => RestoreStep(range, s, item, (q, p) => bind(n, q, p), now, t)
  }

  ghost predicate RestoresTo(range: Range, s: ServerState, items: seq<SavedTunnel>,
          bind: (int, string, int) -> bool, now: Time, t: ServerState) {
    Run(Restorer(range, bind, now), s, items, t)
  }

  // ----- the state a restart recovers -----

  predicate CleanPreset(name: string, p: C.Preset) {
    && p.name == name && Trim(name) == name != "" && Trim(p.localAddr) == p.localAddr != ""
    && C.NormalizeProtocol(p.protocol) == p.protocol && C.IsSupportedProtocol(p.protocol)
  }

  predicate CleanNode(name: string, n: Node) {
    && Trim(name) == name != "" && Trim(n.accessToken) == n.accessToken != ""
    && forall p :: p in n.presets ==> CleanPreset(p, n.presets[p])
  }

  /** No port and no preset has two tunnels. */
  ghost predicate OneEach(m: Maps) {
    && Inverse(m)
    && forall a, b :: a in m.tunnels && b in m.tunnels && SamePair(m.tunnels[a], m.tunnels[b]) ==> a == b
  }

  /** Every tunnel belongs to a node and a preset of the same protocol, no preset has two tunnels, and no port either. */
  ghost predicate Settled(s: ServerState) {
    && (forall name :: name in s.nodes ==> CleanNode(name, s.nodes[name]))
    && OneEach(s.m) && s.stats.Keys == s.m.tunnels.Keys
    && (forall id :: id in s.m.tunnels ==>
          var t := s.m.tunnels[id];
          && t.port != 0 && t.node in s.nodes && t.preset in s.nodes[t.node].presets
          && t.protocol == s.nodes[t.node].presets[t.preset].protocol)
  }

  /** A node as it comes back: disconnected, its times in whole seconds, its texts trimmed. */
  function Recovered(n: Node): Node {
    n.(connected := false, issuedAt := WholeSeconds(n.issuedAt), connectedAt := WholeSeconds(n.connectedAt),
       lastSeen := WholeSeconds(n.lastSeen), provisionErrorAt := WholeSeconds(n.provisionErrorAt),
       hostname := Trim(n.hostname), platform := Trim(n.platform), remote := Trim(n.remote),
       provisionError := Trim(n.provisionError))
  }

  /** The counters as they come back: all of them, with times in whole seconds and no live connection. */
  function RecoveredStats(s: Stats, now: Time): Stats {
    s.(createdAt := if UnixIfNotZero(s.createdAt) > 0 then WholeSeconds(s.createdAt) else now,
       lastErrorAt := if s.lastError == "" then Never else WholeSeconds(s.lastErrorAt), active := 0)
  }

  lemma PresetIsRecovered(name: string, p: C.Preset)
    requires CleanPreset(name, p)
    ensures RestorePreset(SavePreset(p)) == Some((name, p))
  {
  }

  lemma ListingIsRead<A, K(!new), N, V>(entry: A -> Option<(K, V)>, items: seq<A>, source: map<K, N>,
          order: seq<K>, back: N -> V)
    requires Lists(order, source.Keys) && |items| == |order|
    requires forall i :: 0 <= i < |items| ==>
        order[i] in source && entry(items[i]) == Some((order[i], back(source[order[i]])))
    ensures ReadInto(entry, items, map[]) == map k | k in source :: back(source[k])
  {
    var want := map k | k in source :: back(source[k]);
    ReadListing(entry, items, map[], order, want);
    assert map[] + want == want;
  }

  lemma PresetAt(saved: seq<C.Preset>, presets: map<string, C.Preset>, order: seq<string>, i: nat)
    requires forall p :: p in presets ==> CleanPreset(p, presets[p])
    requires ListsPresets(saved, presets, order) && i < |order|
    ensures order[i] in presets && RestorePreset(saved[i]) == Some((order[i], presets[order[i]]))
  {
    assert order[i] in order;
    PresetIsRecovered(order[i], presets[order[i]]);
  }

  lemma WholeListing<A, K(!new), V>(entry: A -> Option<(K, V)>, items: seq<A>, source: map<K, V>, order: seq<K>)
    requires Lists(order, source.Keys) && |items| == |order|
    requires forall i :: 0 <= i < |items| ==> order[i] in source && entry(items[i]) == Some((order[i], source[order[i]]))
    ensures ReadInto(entry, items, map[]) == source
  {
    ReadListing(entry, items, map[], order, source);
    assert map[] + source == source;
  }

  lemma PresetsAreRecovered(saved: seq<C.Preset>, presets: map<string, C.Preset>, order: seq<string>)
    requires forall p :: p in presets ==> CleanPreset(p, presets[p])
    requires ListsPresets(saved, presets, order)
    ensures ReadInto(RestorePreset, saved, map[]) == presets
  {
    forall i | 0 <= i < |saved| ensures order[i] in presets && RestorePreset(saved[i]) == Some((order[i], presets[order[i]])) {
      PresetAt(saved, presets, order, i);
    }
    WholeListing(RestorePreset, saved, presets, order);
  }

  lemma NodeIsRecovered(saved: SavedNode, name: string, n: Node)
    requires CleanNode(name, n) && SavesNode(saved, name, n)
    ensures RestoreNode(saved) == Some((name, Recovered(n)))
  {
    var order :| ListsPresets(saved.presets, n.presets, order);
    PresetsAreRecovered(saved.presets, n.presets, order);
  }

  /** All nodes come back, with their tokens and presets. */
  lemma NodesAreRecovered(saved: seq<SavedNode>, nodes: map<string, Node>, order: seq<string>)
    requires forall name :: name in nodes ==> CleanNode(name, nodes[name])
    requires ListsNodes(saved, nodes, order)
    ensures RestoreNodes(saved) == map name | name in nodes :: Recovered(nodes[name])
  {
    forall i | 0 <= i < |saved|
      ensures order[i] in nodes && RestoreNode(saved[i]) == Some((order[i], Recovered(nodes[order[i]])))
    {
      assert order[i] in order;
      NodeIsRecovered(saved[i], order[i], nodes[order[i]]);
    }
    ListingIsRead(RestoreNode, saved, nodes, order, Recovered);
  }

  function Below(k: nat): (r: set<nat>)
    ensures forall id: nat :: id in r <==> id < k
  {
    if k == 0 then {} else Below(k - 1) + {k - 1}
  }

  /** The first `k` listed tunnels are registered again, as tunnels 0 to k - 1. */
  predicate Copied(m: Maps, order: seq<nat>, k: nat, r: Maps)
    requires k <= |order| && forall i :: 0 <= i < |order| ==> order[i] in m.tunnels
  {
    && r.nextId == k && Inverse(r) && r.tunnels.Keys == Below(k)
    && forall i :: 0 <= i < k ==> r.tunnels[i] == m.tunnels[order[i]]
  }

  lemma NextIsNew(m: Maps, order: seq<nat>, k: nat, r: Maps)
    requires OneEach(m) && Lists(order, m.tunnels.Keys) && k < |order|
    requires forall i :: 0 <= i < |order| ==> order[i] in m.tunnels
    requires Copied(m, order, k, r)
    ensures var t := m.tunnels[order[k]];
            && !IsMapped(r, t.node, t.preset, None) && t.port !in r.ports
            && Copied(m, order, k + 1, Registered(r, t))
  {
    var t := m.tunnels[order[k]];
    forall id | id in r.tunnels ensures !SamePair(r.tunnels[id], t) && r.tunnels[id].port != t.port {
      assert order[id] != order[k];
    }
    RegisteredInverse(r, t);
  }

  /** And the nodes and the counters of those tunnels are back too. */
  ghost predicate Back(s: ServerState, order: seq<nat>, k: nat, now: Time, r: ServerState)
    requires k <= |order| && forall i :: 0 <= i < |order| ==> order[i] in s.m.tunnels && order[i] in s.stats
  {
    && r.nodes == (map name | name in s.nodes :: Recovered(s.nodes[name]))
    && Copied(s.m, order, k, r.m) && r.stats.Keys == r.m.tunnels.Keys
    && forall i :: 0 <= i < k ==> r.stats[i] == RecoveredStats(s.stats[order[i]], now)
  }

  /** A saved tunnel of a known node and preset whose port binds is created. */
  lemma StepCreates(range: Range, r: ServerState, item: SavedTunnel, bind: (string, int) -> bool, now: Time,
          q: ServerState)
    requires Trim(item.node) == item.node && item.node in r.nodes && item.preset in r.nodes[item.node].presets
    requires Wanted(r.nodes[item.node].presets)[item.preset] == item.protocol
    requires !IsMapped(r.m, item.node, item.preset, None)
    requires item.port != 0 && bind(item.protocol, item.port)
    requires RestoreStep(range, r, item, bind, now, q)
    ensures q == ServerState(r.nodes, Registered(r.m, Tunnel(item.node, item.preset, item.protocol, item.port)),
                             r.stats[r.m.nextId := AppliedStats(item, now)])
  {
    assert Restorable(range, r, item, bind);
  }

  lemma TunnelIsKnown(s: ServerState, id: nat)
    requires Settled(s) && id in s.m.tunnels
    ensures var t := s.m.tunnels[id];
            && Trim(t.node) == t.node && t.node in s.nodes && t.preset in s.nodes[t.node].presets
            && Wanted(s.nodes[t.node].presets)[t.preset] == t.protocol && t.port != 0
  {
    var t := s.m.tunnels[id];
    assert CleanNode(t.node, s.nodes[t.node]) && CleanPreset(t.preset, s.nodes[t.node].presets[t.preset]);
  }

  lemma StatsAreApplied(id: nat, t: Tunnel, s: Stats, now: Time)
    ensures AppliedStats(SaveTunnel(id, t, s), now) == RecoveredStats(s, now)
  {
  }

  lemma BackGrows(s: ServerState, order: seq<nat>, k: nat, now: Time, r: ServerState, m: Maps)
    requires k < |order| && forall i :: 0 <= i < |order| ==> order[i] in s.m.tunnels && order[i] in s.stats
    requires Back(s, order, k, now, r) && Copied(s.m, order, k + 1, m)
    ensures Back(s, order, k + 1, now, ServerState(r.nodes, m, r.stats[k := RecoveredStats(s.stats[order[k]], now)]))
  {
  }

  lemma OneMoreBack(range: Range, s: ServerState, order: seq<nat>, k: nat, item: SavedTunnel, bind: (string, int) -> bool,
                    now: Time, r: ServerState, q: ServerState)
    requires Settled(s) && Lists(order, s.m.tunnels.Keys) && k < |order|
    requires forall i :: 0 <= i < |order| ==> order[i] in s.m.tunnels && order[i] in s.stats
    requires Back(s, order, k, now, r)
    requires item == SaveTunnel(order[k], s.m.tunnels[order[k]], s.stats[order[k]])
    requires bind(item.protocol, item.port)
    requires RestoreStep(range, r, item, bind, now, q)
    ensures Back(s, order, k + 1, now, q)
  {
    NextIsNew(s.m, order, k, r.m);
    TunnelIsKnown(s, order[k]);
    StatsAreApplied(order[k], s.m.tunnels[order[k]], s.stats[order[k]], now);
    assert r.nodes[item.node].presets == s.nodes[item.node].presets;
    StepCreates(range, r, item, bind, now, q);
    BackGrows(s, order, k, now, r, Registered(r.m, s.m.tunnels[order[k]]));
  }

  /** All saved tunnels are listed, and each port binds whenever it is tried. */
  ghost predicate Recoverable(s: ServerState, order: seq<nat>, saved: seq<SavedTunnel>,
          bind: (int, string, int) -> bool) {
    && Settled(s) && ListsTunnels(saved, s.m, s.stats, order)
    && forall n, id :: id in s.m.tunnels ==> bind(n, s.m.tunnels[id].protocol, s.m.tunnels[id].port)
  }

  lemma ListedAreIn(s: ServerState, tunnels: seq<SavedTunnel>, order: seq<nat>)
    requires ListsTunnels(tunnels, s.m, s.stats, order)
    ensures forall i :: 0 <= i < |order| ==> order[i] in s.m.tunnels && order[i] in s.stats
  {
    forall i | 0 <= i < |order| ensures order[i] in s.m.tunnels && order[i] in s.stats {
      assert order[i] in order;
    }
  }

  ghost function BackAt(s: ServerState, order: seq<nat>, now: Time): (nat, ServerState) -> bool
    requires forall i :: 0 <= i < |order| ==> order[i] in s.m.tunnels && order[i] in s.stats
  {
    (k: nat, x: ServerState) => k <= |order| && Back(s, order, k, now, x)
  }

  lemma StepBack(range: Range, s: ServerState, order: seq<nat>, k: nat, saved: seq<SavedTunnel>, n: int,
                 bind: (int, string, int) -> bool, step: (ServerState, SavedTunnel, int, ServerState) -> bool,
                 inv: (nat, ServerState) -> bool, now: Time, r: ServerState, q: ServerState)
    requires Recoverable(s, order, saved, bind) && k < |order|
    requires forall i :: 0 <= i < |order| ==> order[i] in s.m.tunnels && order[i] in s.stats
    requires inv == BackAt(s, order, now) && inv(k, r)
    requires step == Restorer(range, bind, now) && step(r, saved[k], n, q)
    ensures inv(k + 1, q)
  {
    OneMoreBack(range, s, order, k, saved[k], (x, p) => bind(n, x, p), now, r, q);
  }

  /** What every step keeps holds at the end. */
  lemma {:induction false} RunKeeps<S(!new), A>(step: (S, A, int, S) -> bool, inv: (nat, S) -> bool,
          items: seq<A>, k: nat, s: S, t: S)
    requires forall i: nat, x, n, y :: i < |items| && inv(i, x) && step(x, items[i], n, y) ==> inv(i + 1, y)
    requires k <= |items| && inv(k, s) && Run(step, s, items[k..], t)
    ensures inv(|items|, t)
    decreases |items| - k
  {
    if k < |items| {
      var rest := items[k..];
      var mid :| step(s, rest[0], |rest|, mid) && Run(step, mid, rest[1..], t);
      assert rest[0] == items[k] && rest[1..] == items[k + 1..];
      RunKeeps(step, inv, items, k + 1, mid, t);
    }
  }

  lemma TunnelsAreRecovered(range: Range, s: ServerState, order: seq<nat>, saved: seq<SavedTunnel>,
                            bind: (int, string, int) -> bool, now: Time, r: ServerState, q: ServerState)
    requires Recoverable(s, order, saved, bind) && |saved| == |order|
    requires forall i :: 0 <= i < |order| ==> order[i] in s.m.tunnels && order[i] in s.stats
    requires Back(s, order, 0, now, r) && RestoresTo(range, r, saved, bind, now, q)
    ensures Back(s, order, |order|, now, q)
  {
    var inv := BackAt(s, order, now);
    var step := Restorer(range, bind, now);
    forall i: nat, x, n, y | i < |saved| && inv(i, x) && step(x, saved[i], n, y) ensures inv(i + 1, y) {
      StepBack(range, s, order, i, saved, n, bind, step, inv, now, x, y);
    }
    assert saved[0..] == saved;
    RunKeeps(step, inv, saved, 0, r, q);
  }

  lemma BackStarts(s: ServerState, order: seq<nat>, now: Time, r: ServerState)
    requires forall i :: 0 <= i < |order| ==> order[i] in s.m.tunnels && order[i] in s.stats
    requires r.nodes == (map name | name in s.nodes :: Recovered(s.nodes[name]))
        && r.m == Maps(map[], map[], 0) && r.stats == map[]
    ensures Back(s, order, 0, now, r)
  {
  }

  /** A restart of a settled server whose saved ports all bind recovers its nodes with tokens and presets, and every
      tunnel with its node, preset, protocol, port and counters: only IDs, live connections and parts of seconds differ. */
  lemma RestartRecovers(range: Range, s: ServerState, nodes: seq<SavedNode>, tunnels: seq<SavedTunnel>,
                        nodeOrder: seq<string>, order: seq<nat>, bind: (int, string, int) -> bool, now: Time, q: ServerState)
    requires ListsNodes(nodes, s.nodes, nodeOrder) && Recoverable(s, order, tunnels, bind)
    requires RestoresTo(range, ServerState(RestoreNodes(nodes), Maps(map[], map[], 0), map[]), tunnels, bind, now, q)
    ensures forall i :: 0 <= i < |order| ==> order[i] in s.m.tunnels && order[i] in s.stats
    ensures Back(s, order, |order|, now, q)
  {
    NodesAreRecovered(nodes, s.nodes, nodeOrder);
    ListedAreIn(s, tunnels, order);
    var r := ServerState(RestoreNodes(nodes), Maps(map[], map[], 0), map[]);
    BackStarts(s, order, now, r);
    TunnelsAreRecovered(range, s, order, tunnels, bind, now, r, q);
  }

  /** The mapping from node and preset to port is the same. */
  lemma RestartKeepsPorts(s: ServerState, order: seq<nat>, now: Time, q: ServerState, node: string,
          preset: string, port: int)
    requires Lists(order, s.m.tunnels.Keys)
    requires forall i :: 0 <= i < |order| ==> order[i] in s.m.tunnels && order[i] in s.stats
    requires Back(s, order, |order|, now, q)
    ensures MapsTo(s.m, node, preset, port) <==> MapsTo(q.m, node, preset, port)
  {
    CopyKeepsPorts(s.m, order, q.m, node, preset, port);
  }

  predicate IsTunnel(m: Maps, id: nat, node: string, preset: string, port: int) {
    id in m.tunnels && m.tunnels[id].node == node && m.tunnels[id].preset == preset && m.tunnels[id].port == port
  }

  predicate MapsTo(m: Maps, node: string, preset: string, port: int) {
    exists id :: id in m.tunnels && IsTunnel(m, id, node, preset, port)
  }

  lemma CopyKeepsPorts(m: Maps, order: seq<nat>, r: Maps, node: string, preset: string, port: int)
    requires Lists(order, m.tunnels.Keys)
    requires forall i :: 0 <= i < |order| ==> order[i] in m.tunnels
    requires Copied(m, order, |order|, r)
    ensures MapsTo(m, node, preset, port) <==> MapsTo(r, node, preset, port)
  {
    if MapsTo(m, node, preset, port) {
      var a :| a in m.tunnels && IsTunnel(m, a, node, preset, port);
      assert a in order;
      var i :| 0 <= i < |order| && order[i] == a;
      assert i in r.tunnels && IsTunnel(r, i, node, preset, port);
    }
    if MapsTo(r, node, preset, port) {
      var b :| b in r.tunnels && IsTunnel(r, b, node, preset, port);
      assert order[b] in m.tunnels && IsTunnel(m, order[b], node, preset, port);
    }
  }

  // ----- restoring any saved ports -----

  /** The first `k` saved tunnels have been restored or not: the maps are inverse, and only their ports are taken. */
  ghost predicate PortsOf(items: seq<SavedTunnel>, k: nat, m: Maps)
    requires k <= |items|
  {
    && Inverse(m) && FreshIds(m)
    && forall p :: p in m.ports ==> exists i :: 0 <= i < k && items[i].port == p
  }

  /** What a restored tunnel does to the maps, if anything. */
  lemma StepMaps(range: Range, r: ServerState, item: SavedTunnel, bind: (string, int) -> bool, now: Time, q: ServerState)
    requires item.port != 0 && RestoreStep(range, r, item, bind, now, q)
    ensures q.m == r.m || exists t: Tunnel :: t.port == item.port && q.m == Registered(r.m, t)
  {
    if q.m != r.m {
      assert q.m.tunnels[r.m.nextId].port == item.port && q.m == Registered(r.m, q.m.tunnels[r.m.nextId]);
    }
  }

  lemma PortsOfStep(items: seq<SavedTunnel>, k: nat, m: Maps, n: Maps)
    requires k < |items| && PortsOf(items, k, m)
    requires forall i, j :: 0 <= i < j < |items| ==> items[i].port != items[j].port
    requires n == m || exists t: Tunnel :: t.port == items[k].port && n == Registered(m, t)
    ensures PortsOf(items, k + 1, n)
  {
    if t: Tunnel :| t.port == items[k].port && n == Registered(m, t) {
      assert t.port !in m.ports;
      RegisteredInverse(m, t);
      assert items[k].port == t.port;
    }
  }

  ghost function PortsAt(items: seq<SavedTunnel>): (nat, ServerState) -> bool {
    (k: nat, x: ServerState) => k <= |items| && PortsOf(items, k, x.m)
  }

  lemma StepPorts(range: Range, items: seq<SavedTunnel>, k: nat, n: int, bind: (int, string, int) -> bool,
                  step: (ServerState, SavedTunnel, int, ServerState) -> bool, inv: (nat, ServerState) -> bool,
                  now: Time, r: ServerState, q: ServerState)
    requires k < |items| && items[k].port != 0
    requires forall i, j :: 0 <= i < j < |items| ==> items[i].port != items[j].port
    requires inv == PortsAt(items) && inv(k, r)
    requires step == Restorer(range, bind, now) && step(r, items[k], n, q)
    ensures inv(k + 1, q)
  {
    StepMaps(range, r, items[k], (x, p) => bind(n, x, p), now, q);
    PortsOfStep(items, k, r.m, q.m);
  }

  /** Restoring different saved ports leaves the registry's maps inverse, whatever nodes, presets and protocols were
      saved with them and whatever fails. */
  lemma DistinctPortsRestoreInverse(range: Range, nodes: map<string, Node>, items: seq<SavedTunnel>,
                                    bind: (int, string, int) -> bool, now: Time, q: ServerState)
    requires forall i :: 0 <= i < |items| ==> items[i].port != 0
    requires forall i, j :: 0 <= i < j < |items| ==> items[i].port != items[j].port
    requires RestoresTo(range, ServerState(nodes, Maps(map[], map[], 0), map[]), items, bind, now, q)
    ensures Inverse(q.m) && FreshIds(q.m)
  {
    var start := ServerState(nodes, Maps(map[], map[], 0), map[]);
    var inv, step := PortsAt(items), Restorer(range, bind, now);
    forall i: nat, x, n, y | i < |items| && inv(i, x) && step(x, items[i], n, y) ensures inv(i + 1, y) {
      StepPorts(range, items, i, n, bind, step, inv, now, x, y);
    }
    assert items[0..] == items;
    RunKeeps(step, inv, items, 0, start, q);
  }

  // ----- the loops -----

  method ReadList<A, K(==), V>(entry: A -> Option<(K, V)>, items: seq<A>) returns (m: map<K, V>)
    ensures m == ReadInto(entry, items, map[])
  {
    m := map[];
    assert items[0..] == items;
    for i := 0 to |items|
      invariant ReadInto(entry, items, map[]) == ReadInto(entry, items[i..], m)
    {
      assert items[i..][1..] == items[i + 1..];
      var e := entry(items[i]);
      if e.Some? {
        m := m[e.value.0 := e.value.1];
      }
    }
  }

  ghost predicate PresetsListed(saved: seq<C.Preset>, presets: map<string, C.Preset>) {
    exists order :: ListsPresets(saved, presets, order)
  }

  ghost predicate NodesListed(saved: seq<SavedNode>, nodes: map<string, Node>) {
    exists order :: ListsNodes(saved, nodes, order)
  }

  ghost predicate TunnelsListed(saved: seq<SavedTunnel>, m: Maps, stats: map<nat, Stats>) {
    exists order :: ListsTunnels(saved, m, stats, order)
  }

  method ListPresets(presets: map<string, C.Preset>) returns (r: seq<C.Preset>)
    ensures PresetsListed(r, presets)
  {
    r := [];
    ghost var order: seq<string> := [];
    var rest := presets.Keys;
    while rest != {}
      invariant rest <= presets.Keys
      invariant Lists(order, presets.Keys - rest) && |r| == |order|
      invariant forall i :: 0 <= i < |order| ==> order[i] in presets && r[i] == SavePreset(presets[order[i]])
      decreases |rest|
    {
      var k :| k in rest;
      rest := rest - {k};
      r := r + [SavePreset(presets[k])];
      order := order + [k];
    }
    assert ListsPresets(r, presets, order);
  }

  method ListNodes(all: map<string, Node>) returns (nodes: seq<SavedNode>)
    ensures NodesListed(nodes, all)
  {
    nodes := [];
    ghost var order: seq<string> := [];
    var names := all.Keys;
    while names != {}
      invariant names <= all.Keys
      invariant Lists(order, all.Keys - names) && |nodes| == |order|
      invariant forall i :: 0 <= i < |order| ==> order[i] in all && SavesNode(nodes[i], order[i], all[order[i]])
      decreases |names|
    {
      var name :| name in names;
      names := names - {name};
      var presets := ListPresets(all[name].presets);
      var saved := SaveNode(name, all[name], presets);
      assert SavesNode(saved, name, all[name]);
      nodes := nodes + [saved];
      order := order + [name];
    }
    assert ListsNodes(nodes, all, order);
  }

  /** A snapshot lists every node with its presets, and every tunnel with its counters. */
  method SnapshotState(server: Server, stats: map<nat, Stats>) returns (nodes: seq<SavedNode>, tunnels: seq<SavedTunnel>)
    requires stats.Keys == server.tunnels.Keys
    ensures NodesListed(nodes, server.nodes) && TunnelsListed(tunnels, server.View(), stats)
  {
    nodes := ListNodes(server.nodes);
    tunnels := [];
    ghost var order: seq<nat> := [];
    var ids := server.tunnels.Keys;
    while ids != {}
      invariant ids <= server.tunnels.Keys
      invariant Lists(order, server.tunnels.Keys - ids) && |tunnels| == |order|
      invariant forall i :: 0 <= i < |order| ==>
                  order[i] in server.tunnels && tunnels[i] == SaveTunnel(order[i], server.tunnels[order[i]], stats[order[i]])
      decreases |ids|
    {
      var id :| id in ids;
      ids := ids - {id};
      tunnels := tunnels + [SaveTunnel(id, server.tunnels[id], stats[id])];
      order := order + [id];
    }
    assert ListsTunnels(tunnels, server.View(), stats, order);
  }

  const RESTORE_ERROR := "restoring a saved mapping failed"

  method RestoreTunnel(server: Server, stats: map<nat, Stats>, item: SavedTunnel, bind: (string, int) -> bool, now: Time)
    returns (r: map<nat, Stats>)
    modifies server
    ensures RestoreStep(server.range, ServerState(old(server.nodes), old(server.View()), stats), item, bind, now,
                        ServerState(server.nodes, server.View(), r))
  {
    r := stats;
    var name := Trim(item.node);
    if name !in server.nodes || item.preset !in server.nodes[name].presets {
      return;
    }
    var id := server.nextId;
    var protocol := if item.node in server.nodes && item.preset in server.nodes[item.node].presets
                    then Wanted(server.nodes[item.node].presets)[item.preset] else "";
    var tunnel := server.CreateTunnelInternal(item.node, item.preset, item.port, None, p => bind(protocol, p));
    if tunnel.None? {
      server.nodes := server.nodes[name := server.nodes[name].(provisionError := RESTORE_ERROR, provisionErrorAt := now)];
    } else {
      r := stats[id := AppliedStats(item, now)];
    }
  }

  lemma RunHead<S(!new), A>(step: (S, A, int, S) -> bool, s: S, items: seq<A>, mid: S, t: S)
    requires |items| > 0 && step(s, items[0], |items|, mid) && Run(step, mid, items[1..], t)
    ensures Run(step, s, items, t)
  {
  }

  /** Nodes are restored first, then one tunnel after the other. */
  method RestoreState(server: Server, nodes: seq<SavedNode>, tunnels: seq<SavedTunnel>,
          bind: (int, string, int) -> bool, now: Time)
    returns (stats: map<nat, Stats>)
    modifies server
    ensures RestoresTo(server.range, ServerState(RestoreNodes(nodes), old(server.View()), map[]), tunnels, bind, now,
                       ServerState(server.nodes, server.View(), stats))
  {
    server.nodes := ReadList(RestoreNode, nodes);
    stats := map[];
    ghost var start := ServerState(server.nodes, server.View(), stats);
    ghost var step := Restorer(server.range, bind, now);
    assert tunnels[0..] == tunnels;
    for i := 0 to |tunnels|
      invariant forall t :: Run(step, ServerState(server.nodes, server.View(), stats), tunnels[i..], t) ==>
          Run(step, start, tunnels, t)
    {
      ghost var before := ServerState(server.nodes, server.View(), stats);
      stats := RestoreOne(server, stats, tunnels[i], |tunnels| - i, bind, now, step);
      ghost var after := ServerState(server.nodes, server.View(), stats);
      assert tunnels[i..][1..] == tunnels[i + 1..];
      forall t | Run(step, after, tunnels[i + 1..], t) ensures Run(step, start, tunnels, t) {
        RunHead(step, before, tunnels[i..], after, t);
      }
    }
  }

  method RestoreOne(server: Server, stats: map<nat, Stats>, item: SavedTunnel, n: int,
          bind: (int, string, int) -> bool, now: Time,
                    ghost step: (ServerState, SavedTunnel, int, ServerState) -> bool)
    returns (r: map<nat, Stats>)
    requires step == Restorer(server.range, bind, now)
    modifies server
    ensures step(ServerState(old(server.nodes), old(server.View()), stats), item, n, ServerState(server.nodes, server.View(), r))
  {
    r := RestoreTunnel(server, stats, item, (q, p) => bind(n, q, p), now);
  }
}
