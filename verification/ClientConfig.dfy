/**
 The client's configuration record: normalisation, saving and loading in the three credential modes
 (bootstrap token, enrollment password, dedicated token), and the catalog of hosted servers.
 Saving to JSON and reading it back is the identity on records.
 */
module ClientConfig {
  import opened Basics
  import opened Text

  datatype Preset = Preset(name: string, localAddr: string, description: string, protocol: string)

  datatype HostedServer = HostedServer(
    id: string, name: string, serverAddr: string, tlsEnabled: bool, tlsServerName: string, tlsCAFile: string)

  datatype Config = Config(
    bootstrapToken: string, serverAddr: string, token: string, enrollmentPassword: string,
    nodeName: string, reconnectIntervalSec: int, blockIPAPIListenAddr: string, webListenAddr: string,
    tlsEnabled: bool, tlsServerName: string, tlsCAFile: string,
    selectedServerID: string, hostedServers: seq<HostedServer>, presets: seq<Preset>, configPath: string)

  /** What a bootstrap token decodes to: all fields are trimmed, and the server and the token are not empty. */
  datatype PayloadRecord = Payload(serverAddr: string, nodeName: string, accessToken: string)
  type Payload = p: PayloadRecord |
    && Trimmed(p.serverAddr) && Trimmed(p.nodeName) && Trimmed(p.accessToken)
    && p.serverAddr != "" && p.accessToken != ""
    witness Payload("s", "", "t")

  datatype System = Windows | Linux | OtherSystem

  /** The environment: host name, platform, platform texts, the bootstrap decoder on trimmed tokens, and the
      address checks of the network library. */
  datatype Environment = Environment(
    hostname: string, system: System, presetNote: string, decode: string -> Option<Payload>,
    isLoopbackListener: string -> bool, isHost: string -> bool, hostOfControlAddress: string -> Option<string>,
    digest: string -> string)

  const DEFAULT_RECONNECT_SEC := 5
  const DEFAULT_SERVER_ADDR := "dx.1catai.com:50001"
  const DEFAULT_WEB_ADDR := "127.0.0.1:51888"
  const PRIMARY_SERVER_ID := "1cat-primary"
  const CURRENT_CUSTOM_ID := "current-custom"

  // ----- presets -----

  function ProtocolName(t: string): string {
    if t == "" then "tcp" else Lower(t)
  }

  function NormalizeProtocol(v: string): string {
    ProtocolName(Trim(v))
  }

  predicate IsSupportedProtocol(v: string) {
    NormalizeProtocol(v) == "tcp" || NormalizeProtocol(v) == "udp"
  }

  predicate IsLowercase(s: string) {
    forall i :: 0 <= i < |s| ==> LowerChar(s[i]) == s[i]
  }

  lemma LowerIsLowercase(s: string)
    ensures IsLowercase(Lower(s))
    ensures IsLowercase(s) ==> Lower(s) == s
    ensures Trimmed(s) ==> Trimmed(Lower(s))
  {
  }

  predicate IsProtocolName(n: string) {
    n != "" && Trimmed(n) && IsLowercase(n)
  }

  lemma ProtocolNameFixed(n: string)
    requires IsProtocolName(n)
    ensures NormalizeProtocol(n) == n
  {
    TrimOfTrimmed(n);
    LowerIsLowercase(n);
  }

  lemma ProtocolNameIsNormal(t: string)
    requires Trimmed(t)
    ensures IsProtocolName(ProtocolName(t))
  {
    LowerIsLowercase(t);
  }

  lemma NormalizeProtocolIdempotent(v: string)
    ensures NormalizeProtocol(NormalizeProtocol(v)) == NormalizeProtocol(v)
  {
    TrimIsTrimmed(v);
    ProtocolNameIsNormal(Trim(v));
    ProtocolNameFixed(NormalizeProtocol(v));
  }

  function CleanPreset(p: Preset): Preset {
    Preset(Trim(p.name), Trim(p.localAddr), Trim(p.description), NormalizeProtocol(p.protocol))
  }

  predicate UsablePreset(p: Preset) {
    p.name != "" && p.localAddr != ""
  }

  lemma CleanPresetIdempotent(p: Preset)
    ensures CleanPreset(CleanPreset(p)) == CleanPreset(p)
  {
    TrimIsTrimmed(p.name);
    TrimIsTrimmed(p.localAddr);
    TrimIsTrimmed(p.description);
    NormalizeProtocolIdempotent(p.protocol);
  }

  function NormalizePresets(ps: seq<Preset>): seq<Preset> {
    Normalized(CleanPreset, UsablePreset, ps)
  }

  lemma NormalizePresetsIdempotent(ps: seq<Preset>)
    ensures NormalizePresets(NormalizePresets(ps)) == NormalizePresets(ps)
  {
    forall p ensures CleanPreset(CleanPreset(p)) == CleanPreset(p) {
      CleanPresetIdempotent(p);
    }
    NormalizedIdempotent(CleanPreset, UsablePreset, ps);
  }

  function DefaultPresetFor(system: System, note: string): Preset {
    if system.Windows? then Preset("rdp", "127.0.0.1:3389", note, "tcp")
    else Preset("ssh", "0.0.0.0:22", note, "tcp")
  }

  function DefaultPreset(env: Environment): Preset {
    DefaultPresetFor(env.system, Trim(env.presetNote))
  }

  function DefaultPresets(env: Environment): seq<Preset> {
    [DefaultPreset(env)]
  }

  lemma CleanPresetFixed(p: Preset)
    requires Trimmed(p.name) && Trimmed(p.localAddr) && Trimmed(p.description)
    requires IsProtocolName(p.protocol)
    ensures CleanPreset(p) == p
  {
    TrimOfTrimmed(p.name);
    TrimOfTrimmed(p.localAddr);
    TrimOfTrimmed(p.description);
    ProtocolNameFixed(p.protocol);
  }

  lemma DefaultTextsAreClean()
    ensures Trimmed("rdp") && Trimmed("ssh") && Trimmed("127.0.0.1:3389") && Trimmed("0.0.0.0:22")
    ensures IsProtocolName("tcp")
  {
  }

  lemma NormalizedSingleton<T>(f: T -> T, ok: T -> bool, x: T)
    requires f(x) == x && ok(x)
    ensures Normalized(f, ok, [x]) == [x]
  {
  }

  lemma DefaultPresetIsClean(system: System, note: string)
    requires Trimmed(note)
    ensures var p := DefaultPresetFor(system, note); CleanPreset(p) == p && UsablePreset(p)
  {
    DefaultTextsAreClean();
    CleanPresetFixed(DefaultPresetFor(system, note));
  }

  lemma DefaultPresetsAreNormal(env: Environment)
    ensures NormalizePresets(DefaultPresets(env)) == DefaultPresets(env)
  {
    TrimIsTrimmed(env.presetNote);
    DefaultPresetIsClean(env.system, Trim(env.presetNote));
    NormalizedSingleton(CleanPreset, UsablePreset, DefaultPreset(env));
  }

  // ----- hosted servers -----

  function CleanServer(s: HostedServer): HostedServer {
    s.(id := Trim(s.id), name := Trim(s.name), serverAddr := Trim(s.serverAddr),
       tlsServerName := Trim(s.tlsServerName), tlsCAFile := Trim(s.tlsCAFile))
  }

  predicate UsableServer(s: HostedServer) {
    s.id != "" && s.name != "" && s.serverAddr != ""
  }

  lemma CleanServerIdempotent(s: HostedServer)
    ensures CleanServer(CleanServer(s)) == CleanServer(s)
  {
    TrimIsTrimmed(s.id);
    TrimIsTrimmed(s.name);
    TrimIsTrimmed(s.serverAddr);
    TrimIsTrimmed(s.tlsServerName);
    TrimIsTrimmed(s.tlsCAFile);
  }

  function NormalizeServers(ss: seq<HostedServer>): seq<HostedServer> {
    Normalized(CleanServer, UsableServer, ss)
  }

  lemma NormalizeServersIdempotent(ss: seq<HostedServer>)
    ensures NormalizeServers(NormalizeServers(ss)) == NormalizeServers(ss)
  {
    forall s ensures CleanServer(CleanServer(s)) == CleanServer(s) {
      CleanServerIdempotent(s);
    }
    NormalizedIdempotent(CleanServer, UsableServer, ss);
  }

  function BuiltInServer(): HostedServer {
    HostedServer(PRIMARY_SERVER_ID, "1Cat 主节点", DEFAULT_SERVER_ADDR, true, "dx.1catai.com", "1cat-tunnel-ca.pem")
  }

  function SeenID(servers: seq<HostedServer>, id: string): (r: bool)
    ensures r <==> exists i :: 0 <= i < |servers| && servers[i].id == id
  {
    if |servers| == 0 then false else servers[0].id == id || SeenID(servers[1..], id)
  }

  /** The servers with each ID once, first come first kept; `out` is what was kept so far. */
  function Distinct(out: seq<HostedServer>, servers: seq<HostedServer>): (r: seq<HostedServer>)
    ensures out <= r
    ensures forall s :: s in r ==> s in out || s in servers
    decreases |servers|
  {
    if |servers| == 0 then out
    else if SeenID(out, servers[0].id) then Distinct(out, servers[1..])
    else Distinct(out + [servers[0]], servers[1..])
  }

  function Listed(hosted: seq<HostedServer>): seq<HostedServer> {
    Distinct([], [BuiltInServer()] + NormalizeServers(hosted))
  }

  predicate Entry(s: HostedServer) {
    s.id != "" && Trimmed(s.id) && s.serverAddr != "" && Trimmed(s.serverAddr)
  }

  predicate HasIDs(servers: seq<HostedServer>) {
    forall i :: 0 <= i < |servers| ==> Entry(servers[i])
  }

  /** The ID of the first server at the address, or the empty string. */
  function IDForAddress(servers: seq<HostedServer>, address: string): (r: string)
    ensures r != "" ==> exists i :: 0 <= i < |servers| && servers[i].id == r && EqualFold(servers[i].serverAddr, address)
    ensures HasIDs(servers) && r == "" ==>
              forall i :: 0 <= i < |servers| ==> !EqualFold(servers[i].serverAddr, address)
  {
    if |servers| == 0 then ""
    else if EqualFold(servers[0].serverAddr, address) then servers[0].id
    else IDForAddress(servers[1..], address)
  }

  function CurrentCustom(c: Config): HostedServer {
    HostedServer(CURRENT_CUSTOM_ID, "当前自定义服务器", Trim(c.serverAddr), c.tlsEnabled, Trim(c.tlsServerName), Trim(c.tlsCAFile))
  }

  function Catalog(c: Config): seq<HostedServer> {
    var out := Listed(c.hostedServers);
    if Trim(c.serverAddr) != "" && IDForAddress(out, Trim(c.serverAddr)) == "" then out + [CurrentCustom(c)] else out
  }

  /** The catalog's loop: the IDs seen so far, and the servers kept. */
  method KeepDistinct(servers: seq<HostedServer>) returns (out: seq<HostedServer>)
    ensures out == Distinct([], servers)
    ensures forall i, j :: 0 <= i < j < |out| ==> out[i].id != out[j].id
    ensures forall s :: s in servers ==> exists i :: 0 <= i < |out| && out[i].id == s.id
  {
    var seen: set<string> := {};
    out := [];
    assert servers[0..] == servers;
    for k := 0 to |servers|
      invariant forall id :: id in seen <==> exists i :: 0 <= i < |out| && out[i].id == id
      invariant forall i, j :: 0 <= i < j < |out| ==> out[i].id != out[j].id
      invariant forall j :: 0 <= j < k ==> servers[j].id in seen
      invariant Distinct([], servers) == Distinct(out, servers[k..])
    {
      assert servers[k..][1..] == servers[k + 1..];
      if servers[k].id !in seen {
        seen := seen + {servers[k].id};
        out := out + [servers[k]];
        assert out[|out| - 1].id == servers[k].id;
      }
    }
  }

  method HostedServerCatalog(c: Config) returns (out: seq<HostedServer>)
    ensures out == Catalog(c)
  {
    var normal := NormalizeList(CleanServer, UsableServer, c.hostedServers);
    out := KeepDistinct([BuiltInServer()] + normal);
    if Trim(c.serverAddr) != "" && IDForAddress(out, Trim(c.serverAddr)) == "" {
      out := out + [CurrentCustom(c)];
    }
  }

  predicate HasSelection(servers: seq<HostedServer>, id: string, address: string) {
    exists i :: 0 <= i < |servers| && servers[i].id == id && EqualFold(servers[i].serverAddr, address)
  }

  function SelectedID(c: Config): string {
    var servers := Catalog(c);
    var id := Trim(c.selectedServerID);
    if id != "" && HasSelection(servers, id, Trim(c.serverAddr)) then id
    else if IDForAddress(servers, Trim(c.serverAddr)) != "" then IDForAddress(servers, Trim(c.serverAddr))
    else if |servers| > 0 then servers[0].id
    else ""
  }

  function FindServer(servers: seq<HostedServer>, id: string): (r: Option<HostedServer>)
    ensures r.Some? ==> r.value in servers && r.value.id == id
    ensures r.None? ==> forall s :: s in servers ==> s.id != id
  {
    if |servers| == 0 then None
    else if servers[0].id == id then Some(servers[0])
    else FindServer(servers[1..], id)
  }

  function ApplyServer(c: Config, id: string): Option<Config> {
    var found := FindServer(Catalog(c), Trim(id));
    if found.None? then None
    else
      var s := found.value;
      if Trim(id) == SelectedID(c) && EqualFold(s.serverAddr, c.serverAddr) then
        Some(c.(selectedServerID := Trim(id)))
      else
        Some(c.(selectedServerID := s.id, serverAddr := s.serverAddr, tlsEnabled := s.tlsEnabled,
                tlsServerName := s.tlsServerName, tlsCAFile := s.tlsCAFile))
  }

  // ----- normalisation -----

  /** Whether the marker occurs in the value in any case, as in a configuration file copied from the example. */
  predicate ContainsFold(value: string, marker: string) {
    exists i, j :: 0 <= i <= j <= |value| && EqualFold(value[i..j], marker)
  }

  const BOOTSTRAP_MARKER := "PASTE_SERVER_CONNECT_TOKEN_HERE"
  const SERVER_MARKER := "YOUR_SERVER_PUBLIC_IP"
  const TOKEN_MARKER := "replace-with-a-strong-shared-token"

  function Sanitize(value: string, marker: string): string {
    if ContainsFold(value, marker) then "" else Trim(value)
  }

  lemma SanitizeIdempotent(value: string, marker: string)
    requires marker != ""
    ensures Trimmed(Sanitize(value, marker)) && !ContainsFold(Sanitize(value, marker), marker)
    ensures Sanitize(Sanitize(value, marker), marker) == Sanitize(value, marker)
  {
    TrimIsTrimmed(value);
    if ContainsFold(value, marker) {
      forall i, j | 0 <= i <= j <= 0 ensures !EqualFold(""[i..j], marker) {
        DifferentLength(""[i..j], marker);
      }
      TrimOfTrimmed("");
    } else if ContainsFold(Trim(value), marker) {
      TrimContaining(value, marker);
    }
  }

  lemma SliceOfSlice(s: string, a: nat, b: nat, i: nat, j: nat)
    requires a <= b <= |s| && i <= j <= b - a
    ensures s[a..b][i..j] == s[a + i..a + j]
  {
    var x, y := s[a..b][i..j], s[a + i..a + j];
    assert forall k :: 0 <= k < |x| ==> x[k] == y[k];
  }

  lemma TrimContaining(value: string, marker: string)
    requires ContainsFold(Trim(value), marker)
    ensures ContainsFold(value, marker)
  {
    var a, b := TrimSlice(value);
    var i, j :| 0 <= i <= j <= |Trim(value)| && EqualFold(Trim(value)[i..j], marker);
    SliceOfSlice(value, a, b, i, j);
    assert EqualFold(value[a + i..a + j], marker);
  }

  function PreparedName(hostname: string, name: string): string {
    if Trim(name) == "" && Trim(hostname) != "" then Trim(hostname) else Trim(name)
  }

  function PreparedWeb(block: string, web: string): string {
    if Trim(web) != "" then Trim(web) else if Trim(block) != "" then Trim(block) else DEFAULT_WEB_ADDR
  }

  function PreparedBlock(system: System, block: string, web: string): string {
    if system.Linux? && Trim(block) == "" then PreparedWeb(block, web) else Trim(block)
  }

  function PreparedPresets(env: Environment, ps: seq<Preset>): seq<Preset> {
    if |NormalizePresets(ps)| == 0 then DefaultPresets(env) else NormalizePresets(ps)
  }

  function PreparedInterval(sec: int): int {
    if sec <= 0 then DEFAULT_RECONNECT_SEC else sec
  }

  /** Every field but the selection. */
  function PreparedFields(env: Environment, c: Config): Config {
    c.(bootstrapToken := Sanitize(c.bootstrapToken, BOOTSTRAP_MARKER),
       serverAddr := Sanitize(c.serverAddr, SERVER_MARKER),
       token := Sanitize(c.token, TOKEN_MARKER),
       enrollmentPassword := Trim(c.enrollmentPassword),
       nodeName := PreparedName(env.hostname, c.nodeName),
       reconnectIntervalSec := PreparedInterval(c.reconnectIntervalSec),
       blockIPAPIListenAddr := PreparedBlock(env.system, c.blockIPAPIListenAddr, c.webListenAddr),
       webListenAddr := PreparedWeb(c.blockIPAPIListenAddr, c.webListenAddr),
       tlsServerName := Trim(c.tlsServerName),
       tlsCAFile := Trim(c.tlsCAFile),
       selectedServerID := Trim(c.selectedServerID),
       hostedServers := NormalizeServers(c.hostedServers),
       presets := PreparedPresets(env, c.presets))
  }

  function Prepare(env: Environment, c: Config): Config {
    var d := PreparedFields(env, c);
    if d.selectedServerID == "" then d.(selectedServerID := SelectedID(d)) else d
  }

  lemma PreparedNameIdempotent(hostname: string, name: string)
    ensures PreparedName(hostname, PreparedName(hostname, name)) == PreparedName(hostname, name)
  {
    TrimIsTrimmed(hostname);
    TrimIsTrimmed(name);
  }

  lemma DefaultWebAddr()
    ensures Trimmed(DEFAULT_WEB_ADDR) && DEFAULT_WEB_ADDR != ""
  {
  }

  lemma PreparedWebIsTrimmed(block: string, web: string)
    ensures PreparedWeb(block, web) != "" && Trim(PreparedWeb(block, web)) == PreparedWeb(block, web)
  {
    TrimIsTrimmed(block);
    TrimIsTrimmed(web);
    DefaultWebAddr();
    TrimOfTrimmed(PreparedWeb(block, web));
  }

  lemma PreparedAddressesIdempotent(system: System, block: string, web: string)
    ensures var b, w := PreparedBlock(system, block, web), PreparedWeb(block, web);
            PreparedWeb(b, w) == w && PreparedBlock(system, b, w) == b
  {
    PreparedWebIsTrimmed(block, web);
    TrimIsTrimmed(block);
  }

  lemma PreparedPresetsIdempotent(env: Environment, ps: seq<Preset>)
    ensures PreparedPresets(env, PreparedPresets(env, ps)) == PreparedPresets(env, ps)
  {
    NormalizePresetsIdempotent(ps);
    DefaultPresetsAreNormal(env);
  }

  lemma MarkersAreNotEmpty()
    ensures BOOTSTRAP_MARKER != "" && SERVER_MARKER != "" && TOKEN_MARKER != ""
  {
  }

  lemma PreparedFieldsIdempotent(env: Environment, c: Config)
    ensures PreparedFields(env, PreparedFields(env, c)) == PreparedFields(env, c)
  {
    MarkersAreNotEmpty();
    SanitizeIdempotent(c.bootstrapToken, BOOTSTRAP_MARKER);
    SanitizeIdempotent(c.serverAddr, SERVER_MARKER);
    SanitizeIdempotent(c.token, TOKEN_MARKER);
    TrimIsTrimmed(c.enrollmentPassword);
    PreparedNameIdempotent(env.hostname, c.nodeName);
    PreparedAddressesIdempotent(env.system, c.blockIPAPIListenAddr, c.webListenAddr);
    TrimIsTrimmed(c.tlsServerName);
    TrimIsTrimmed(c.tlsCAFile);
    TrimIsTrimmed(c.selectedServerID);
    NormalizeServersIdempotent(c.hostedServers);
    PreparedPresetsIdempotent(env, c.presets);
  }

  // ----- the catalog -----

  lemma {:induction false} DistinctKeepsFirst(out: seq<HostedServer>, servers: seq<HostedServer>)
    requires HasIDs(out) && HasIDs(servers)
    ensures HasIDs(Distinct(out, servers))
    decreases |servers|
  {
    if |servers| > 0 {
      if SeenID(out, servers[0].id) {
        DistinctKeepsFirst(out, servers[1..]);
      } else {
        DistinctKeepsFirst(out + [servers[0]], servers[1..]);
      }
    }
  }

  lemma BuiltInTexts()
    ensures Entry(BuiltInServer())
    ensures CURRENT_CUSTOM_ID != "" && Trimmed(CURRENT_CUSTOM_ID)
  {
  }

  lemma NormalServersHaveIDs(hosted: seq<HostedServer>)
    ensures HasIDs(NormalizeServers(hosted))
  {
    var r := NormalizeServers(hosted);
    forall i | 0 <= i < |r| ensures Entry(r[i]) {
      NormalizedElements(CleanServer, UsableServer, hosted, i);
      var k :| 0 <= k < |hosted| && r[i] == CleanServer(hosted[k]);
      TrimIsTrimmed(hosted[k].id);
      TrimIsTrimmed(hosted[k].serverAddr);
    }
  }

  lemma ListedHasIDs(hosted: seq<HostedServer>)
    ensures HasIDs(Listed(hosted)) && |Listed(hosted)| > 0
  {
    BuiltInTexts();
    NormalServersHaveIDs(hosted);
    var all := [BuiltInServer()] + NormalizeServers(hosted);
    assert HasIDs(all);
    DistinctKeepsFirst([], all);
    assert Distinct([], all) == Distinct([] + [all[0]], all[1..]);
    assert [] + [all[0]] <= Distinct([], all);
  }

  lemma CatalogHasIDs(c: Config)
    ensures HasIDs(Catalog(c)) && |Catalog(c)| > 0 && Listed(c.hostedServers) <= Catalog(c)
  {
    ListedHasIDs(c.hostedServers);
    BuiltInTexts();
    TrimIsTrimmed(c.serverAddr);
  }

  lemma SelectedIsTrimmed(c: Config)
    ensures SelectedID(c) != "" && Trimmed(SelectedID(c))
  {
    CatalogHasIDs(c);
    TrimIsTrimmed(c.selectedServerID);
  }

  /** Normalising a configuration twice is normalising it once. */
  lemma PrepareIdempotent(env: Environment, c: Config)
    ensures Prepare(env, Prepare(env, c)) == Prepare(env, c)
  {
    var d := PreparedFields(env, c);
    PreparedFieldsIdempotent(env, c);
    SelectedIsTrimmed(d);
    if d.selectedServerID == "" {
      TrimOfTrimmed(SelectedID(d));
    }
    PreparedFieldsOfSelection(env, d, Prepare(env, c).selectedServerID);
  }

  lemma PreparedFieldsOfSelection(env: Environment, d: Config, id: string)
    requires PreparedFields(env, d) == d && Trim(id) == id
    ensures PreparedFields(env, d.(selectedServerID := id)) == d.(selectedServerID := id)
  {
  }

  lemma SelectionOf(c: Config, s: HostedServer)
    requires s in Catalog(c) && s.id != "" && Trimmed(s.id) && c.selectedServerID == s.id
    requires EqualFold(s.serverAddr, Trim(c.serverAddr))
    ensures SelectedID(c) == s.id
  {
    TrimOfTrimmed(s.id);
    var i :| 0 <= i < |Catalog(c)| && Catalog(c)[i] == s;
    assert HasSelection(Catalog(c), s.id, Trim(c.serverAddr));
  }

  /** Selecting a catalog server and then asking which server is selected gives that server. */
  lemma SelectThenAsk(c: Config, id: string)
    requires ApplyServer(c, id).Some?
    ensures var r := ApplyServer(c, id).value;
            && SelectedID(r) == Trim(id)
            && EqualFold(r.serverAddr, FindServer(Catalog(c), Trim(id)).value.serverAddr)
  {
    var r := ApplyServer(c, id).value;
    var s := FindServer(Catalog(c), Trim(id)).value;
    CatalogHasIDs(c);
    CatalogHasIDs(r);
    var i :| 0 <= i < |Catalog(c)| && Catalog(c)[i] == s;
    assert Entry(Catalog(c)[i]);
    if Trim(id) == SelectedID(c) && EqualFold(s.serverAddr, c.serverAddr) {
      EqualFoldTrimmed(s.serverAddr, c.serverAddr);
      TrimOfTrimmed(c.serverAddr);
      assert Catalog(r) == Catalog(c);
    } else {
      TrimOfTrimmed(s.serverAddr);
      if i < |Listed(c.hostedServers)| {
        assert Catalog(r)[i] == Listed(c.hostedServers)[i] == s;
      } else {
        assert s == CurrentCustom(c);
        TrimOfTrimmed(s.tlsServerName) by { TrimIsTrimmed(c.tlsServerName); }
        TrimOfTrimmed(s.tlsCAFile) by { TrimIsTrimmed(c.tlsCAFile); }
        assert Catalog(r)[i] == CurrentCustom(r) == s;
      }
      assert s in Catalog(r);
    }
    SelectionOf(r, s);
  }

  // ----- saving and loading -----

  /** What SaveConfig writes: a bootstrap token stands for the server and the token, a password for the token. */
  function Save(c: Config): Config {
    var o := if Trim(c.bootstrapToken) != "" then c.(serverAddr := "", token := "", enrollmentPassword := "") else c;
    var t := if Trim(o.enrollmentPassword) != "" && o.token == o.enrollmentPassword then o.(token := "") else o;
    t.(configPath := "")
  }

  function WithFallback(p: Config): Config {
    if Trim(p.token) == "" && Trim(p.enrollmentPassword) != "" then p.(token := Trim(p.enrollmentPassword)) else p
  }

  function WithPayload(p: Config, q: Payload): Config {
    p.(serverAddr := q.serverAddr, token := q.accessToken,
       nodeName := if q.nodeName != "" then q.nodeName else p.nodeName)
  }

  /** Loading a record: None when its bootstrap token does not decode. */
  function Load(env: Environment, path: string, record: Config): Option<Config> {
    var p := Prepare(env, record).(configPath := path);
    if Trim(p.bootstrapToken) == "" then Some(WithFallback(p))
    else
      match env.decode(Trim(p.bootstrapToken))
      case None => None
      case Some(q) => Some(WithFallback(WithPayload(p, q)))
  }

  /** The configuration agrees with its bootstrap token, and without one has a token if it has a password. */
  predicate Consistent(env: Environment, c: Config) {
    if c.bootstrapToken != "" then
      match env.decode(c.bootstrapToken)
      case None => false
      case Some(q) => c == WithPayload(c, q)
    else c.token == "" ==> c.enrollmentPassword == ""
  }

  function DropSharedPassword(c: Config): Config {
    if c.bootstrapToken != "" then c.(enrollmentPassword := "") else c
  }

  lemma EmptyText()
    ensures Trim("") == ""
  {
  }

  lemma LoadOfSaved(env: Environment, path: string, c: Config)
    requires Prepare(env, Save(c)) == Save(c) && c.configPath == path
    requires Trimmed(c.bootstrapToken) && Trimmed(c.token) && Trimmed(c.enrollmentPassword)
    requires Consistent(env, c)
    ensures Load(env, path, Save(c)) == Some(DropSharedPassword(c))
  {
    EmptyText();
    TrimOfTrimmed(c.bootstrapToken);
    TrimOfTrimmed(c.token);
    TrimOfTrimmed(c.enrollmentPassword);
    if c.bootstrapToken != "" {
      var q := env.decode(c.bootstrapToken).value;
      TrimOfTrimmed(q.accessToken);
    }
  }

  lemma EmptyIsPrepared(marker: string)
    requires marker != ""
    ensures Sanitize("", marker) == ""
  {
    EmptyText();
  }

  /** A selection that is set already is not looked up again. */
  predicate Normal(env: Environment, c: Config) {
    PreparedFields(env, c) == c && c.selectedServerID != ""
  }

  lemma NormalIsPrepared(env: Environment, c: Config)
    ensures Normal(env, c) <==> Prepare(env, c) == c
  {
    var d := PreparedFields(env, c);
    SelectedIsTrimmed(d);
    TrimOfTrimmed(SelectedID(d));
    PrepareOfFields(env, c, d);
  }

  lemma PrepareOfFields(env: Environment, c: Config, d: Config)
    requires d == PreparedFields(env, c)
    ensures d.selectedServerID == Trim(c.selectedServerID)
    ensures Prepare(env, c) == if d.selectedServerID == "" then d.(selectedServerID := SelectedID(d)) else d
  {
  }

  lemma NormalUpdate(env: Environment, c: Config, server: string, token: string, password: string, path: string)
    requires Normal(env, c)
    requires Sanitize(server, SERVER_MARKER) == server && Sanitize(token, TOKEN_MARKER) == token
        && Trim(password) == password
    ensures Normal(env, c.(serverAddr := server, token := token, enrollmentPassword := password, configPath := path))
  {
    var d := c.(serverAddr := server, token := token, enrollmentPassword := password, configPath := path);
    var e := PreparedFields(env, c);
    assert e.bootstrapToken == c.bootstrapToken && e.nodeName == c.nodeName
        && e.reconnectIntervalSec == c.reconnectIntervalSec && e.presets == c.presets
        && e.blockIPAPIListenAddr == c.blockIPAPIListenAddr && e.webListenAddr == c.webListenAddr
        && e.tlsServerName == c.tlsServerName && e.tlsCAFile == c.tlsCAFile
        && e.selectedServerID == c.selectedServerID && e.hostedServers == c.hostedServers;
    assert PreparedFields(env, d) == d;
  }

  /** Clearing what saving clears keeps a normal configuration normal. */
  lemma SavedIsNormal(env: Environment, c: Config)
    requires Normal(env, c)
    ensures Normal(env, Save(c))
  {
    MarkersAreNotEmpty();
    EmptyText();
    EmptyIsPrepared(SERVER_MARKER);
    EmptyIsPrepared(TOKEN_MARKER);
    var r := Save(c);
    var e := PreparedFields(env, c);
    assert e.serverAddr == c.serverAddr && e.token == c.token && e.enrollmentPassword == c.enrollmentPassword;
    NormalUpdate(env, c, r.serverAddr, r.token, r.enrollmentPassword, "");
  }

  /** Saving a normal configuration and loading it gives it back, in each of the three credential modes; only a
      password stored beside a bootstrap token is dropped. */
  lemma SaveThenLoad(env: Environment, c: Config)
    requires Prepare(env, c) == c && Consistent(env, c)
    ensures Load(env, c.configPath, Save(c)) == Some(DropSharedPassword(c))
  {
    MarkersAreNotEmpty();
    SanitizeIdempotent(c.bootstrapToken, BOOTSTRAP_MARKER);
    SanitizeIdempotent(c.token, TOKEN_MARKER);
    TrimIsTrimmed(c.enrollmentPassword);
    NormalIsPrepared(env, c);
    SavedIsNormal(env, c);
    NormalIsPrepared(env, Save(c));
    LoadOfSaved(env, c.configPath, c);
  }

  // ----- what is loaded can be saved and loaded again -----

  lemma NormalPayload(env: Environment, p: Config, q: Payload, password: string)
    requires Normal(env, p) && Trim(password) == password
    ensures Normal(env, WithPayload(p, q).(serverAddr := "", token := "", enrollmentPassword := password, configPath := ""))
  {
    MarkersAreNotEmpty();
    EmptyIsPrepared(SERVER_MARKER);
    EmptyIsPrepared(TOKEN_MARKER);
    NormalUpdate(env, p, "", "", password, "");
    TrimOfTrimmed(q.nodeName);
    var d := p.(serverAddr := "", token := "", enrollmentPassword := password, configPath := "");
    NormalName(env, d, WithPayload(p, q).nodeName);
  }

  lemma NormalName(env: Environment, d: Config, name: string)
    requires Normal(env, d)
    requires name == d.nodeName || (name != "" && Trim(name) == name)
    ensures Normal(env, d.(nodeName := name))
  {
    var e := PreparedFields(env, d);
    assert e.nodeName == d.nodeName;
    assert PreparedFields(env, d.(nodeName := name)) == e.(nodeName := name);
  }

  lemma PreparedIsNormal(env: Environment, record: Config)
    ensures Normal(env, Prepare(env, record))
  {
    PrepareIdempotent(env, record);
    NormalIsPrepared(env, Prepare(env, record));
  }

  lemma LoadedFields(env: Environment, p: Config)
    requires Normal(env, p)
    ensures Trimmed(p.bootstrapToken) && Trimmed(p.token) && Trimmed(p.enrollmentPassword)
    ensures Trim(p.bootstrapToken) == p.bootstrapToken && Trim(p.token) == p.token
    ensures Trim(p.enrollmentPassword) == p.enrollmentPassword
    ensures Sanitize(p.serverAddr, SERVER_MARKER) == p.serverAddr && Sanitize(p.token, TOKEN_MARKER) == p.token
  {
    var e := PreparedFields(env, p);
    assert e.bootstrapToken == p.bootstrapToken && e.token == p.token && e.serverAddr == p.serverAddr
        && e.enrollmentPassword == p.enrollmentPassword;
    MarkersAreNotEmpty();
    SanitizeIdempotent(p.bootstrapToken, BOOTSTRAP_MARKER);
    SanitizeIdempotent(p.token, TOKEN_MARKER);
    TrimIsTrimmed(p.enrollmentPassword);
    TrimOfTrimmed(p.bootstrapToken);
    TrimOfTrimmed(p.token);
  }

  lemma ReloadWithBootstrap(env: Environment, path: string, p: Config, q: Payload)
    requires Normal(env, p) && p.bootstrapToken != "" && env.decode(p.bootstrapToken) == Some(q)
    ensures var c := WithPayload(p, q).(configPath := path); Load(env, path, Save(c)) == Some(DropSharedPassword(c))
  {
    var c := WithPayload(p, q).(configPath := path);
    LoadedFields(env, p);
    TrimOfTrimmed(q.accessToken);
    NormalPayload(env, p, q, "");
    assert Save(c) == WithPayload(p, q).(serverAddr := "", token := "", enrollmentPassword := "", configPath := "");
    NormalIsPrepared(env, Save(c));
    LoadOfSaved(env, path, c);
  }

  lemma ReloadWithoutBootstrap(env: Environment, path: string, p: Config)
    requires Normal(env, p) && p.bootstrapToken == ""
    ensures var c := WithFallback(p).(configPath := path); Load(env, path, Save(c)) == Some(c)
  {
    var c := WithFallback(p).(configPath := path);
    LoadedFields(env, p);
    EmptyText();
    EmptyIsPrepared(TOKEN_MARKER) by { MarkersAreNotEmpty(); }
    var r := Save(c);
    NormalUpdate(env, p, r.serverAddr, r.token, r.enrollmentPassword, "");
    NormalIsPrepared(env, r);
    LoadOfSaved(env, path, c);
  }

  /** What a load makes of the prepared record. */
  lemma LoadOfPrepared(env: Environment, path: string, record: Config)
    requires Load(env, path, record).Some?
    ensures var p, c := Prepare(env, record), Load(env, path, record).value;
            && Normal(env, p)
            && (p.bootstrapToken == "" ==> c == WithFallback(p).(configPath := path))
            && (p.bootstrapToken != "" ==>
                  env.decode(p.bootstrapToken).Some?
                  && c == WithPayload(p, env.decode(p.bootstrapToken).value).(configPath := path))
  {
    PreparedIsNormal(env, record);
    LoadedFields(env, Prepare(env, record));
    EmptyText();
    if Prepare(env, record).bootstrapToken != "" {
      TrimOfTrimmed(env.decode(Prepare(env, record).bootstrapToken).value.accessToken);
    }
  }

  /** Whatever record was loaded, saving the result and loading it again reproduces it. */
  lemma LoadSaveLoad(env: Environment, path: string, record: Config)
    requires Load(env, path, record).Some?
    ensures var c := Load(env, path, record).value; Load(env, path, Save(c)) == Some(DropSharedPassword(c))
  {
    var p := Prepare(env, record);
    LoadOfPrepared(env, path, record);
    if p.bootstrapToken != "" {
      ReloadWithBootstrap(env, path, p, env.decode(p.bootstrapToken).value);
    } else {
      ReloadWithoutBootstrap(env, path, p);
    }
  }

  // ----- validation -----

  predicate DistinctNames(presets: seq<Preset>) {
    forall i, j :: 0 <= i < j < |presets| ==> !EqualFold(Trim(presets[i].name), Trim(presets[j].name))
  }

  predicate ValidPreset(p: Preset) {
    Trim(p.name) != "" && Trim(p.localAddr) != "" && IsSupportedProtocol(p.protocol)
  }

  predicate Valid(env: Environment, c: Config) {
    && env.isLoopbackListener(c.webListenAddr)
    && Trim(c.serverAddr) != "" && !ContainsFold(c.serverAddr, SERVER_MARKER)
    && Trim(c.token) != "" && !ContainsFold(c.token, TOKEN_MARKER)
    && Trim(c.nodeName) != ""
    && c.reconnectIntervalSec > 0
    && |c.presets| > 0
    && (forall i :: 0 <= i < |c.presets| ==> ValidPreset(c.presets[i]))
    && DistinctNames(c.presets)
  }

  /** The validator's loop over the presets, with the folded names seen so far. */
  method ValidatePresets(presets: seq<Preset>, valid: Preset -> bool, key: Preset -> string) returns (ok: bool)
    ensures ok <==>
      && (forall i :: 0 <= i < |presets| ==> valid(presets[i]))
      && forall i, j :: 0 <= i < j < |presets| ==> key(presets[i]) != key(presets[j])
  {
    var seen: set<string> := {};
    for i := 0 to |presets|
      invariant forall k :: k in seen <==> exists j :: 0 <= j < i && key(presets[j]) == k
      invariant forall j :: 0 <= j < i ==> valid(presets[j])
      invariant forall j, k :: 0 <= j < k < i ==> key(presets[j]) != key(presets[k])
    {
      if !valid(presets[i]) {
        return false;
      }
      if key(presets[i]) in seen {
        return false;
      }
      seen := seen + {key(presets[i])};
    }
    ok := true;
  }

  method Validate(env: Environment, c: Config) returns (ok: bool)
    ensures ok <==> Valid(env, c)
  {
    if !env.isLoopbackListener(c.webListenAddr) || Trim(c.serverAddr) == "" || ContainsFold(c.serverAddr, SERVER_MARKER)
       || Trim(c.token) == "" || ContainsFold(c.token, TOKEN_MARKER) || Trim(c.nodeName) == ""
       || c.reconnectIntervalSec <= 0 || |c.presets| == 0 {
      return false;
    }
    ok := ValidatePresets(c.presets, ValidPreset, (p: Preset) => Lower(Trim(p.name)));
  }
}
