/** What saving writes of a configuration, and what loading makes of each field of a record. */
module LoadedConfig {
  import opened Basics
  import opened Text
  import opened ClientConfig
  import opened ManagedEdits
  import opened ServerCatalog

  // ----- saving -----

  /** Beside a bootstrap token neither server nor secrets are written, a token that is only the password is not written
      twice, and the path is no part of the record. */
  lemma SavedRecord(c: Config)
    ensures Trim(c.bootstrapToken) != "" ==>
              Save(c) == c.(serverAddr := "", token := "", enrollmentPassword := "", configPath := "")
    ensures Trim(c.bootstrapToken) == "" && Trim(c.enrollmentPassword) != "" && c.token == c.enrollmentPassword ==>
              Save(c) == c.(token := "", configPath := "")
    ensures Trim(c.bootstrapToken) == "" && (Trim(c.enrollmentPassword) == "" || c.token != c.enrollmentPassword) ==>
              Save(c) == c.(configPath := "")
  {
    EmptyText();
  }

  // ----- the credential -----

  /** A field that still holds a text of the example file, in any case, counts as empty. */
  predicate HoldsText(value: string, text: string) {
    exists i, j :: 0 <= i <= j <= |value| && EqualFold(value[i..j], text)
  }

  lemma PlaceholderAnywhere(a: string, m: string, b: string, text: string)
    requires EqualFold(m, text)
    ensures HoldsText(a + m + b, text)
  {
    assert (a + m + b)[|a|..|a| + |m|] == m;
  }

  function FieldText(value: string, placeholder: string): string {
    if HoldsText(value, placeholder) then "" else Trim(value)
  }

  lemma FieldIsSanitized(value: string, placeholder: string)
    ensures Sanitize(value, placeholder) == FieldText(value, placeholder)
  {
  }

  function BootstrapOf(r: Config): string {
    FieldText(r.bootstrapToken, "PASTE_SERVER_CONNECT_TOKEN_HERE")
  }

  function ServerOf(r: Config): string {
    FieldText(r.serverAddr, "YOUR_SERVER_PUBLIC_IP")
  }

  function TokenOf(r: Config): string {
    FieldText(r.token, "replace-with-a-strong-shared-token")
  }

  /** The node name of a record, or else the host's. */
  function NodeOf(env: Environment, r: Config): string {
    if Trim(r.nodeName) == "" && Trim(env.hostname) != "" then Trim(env.hostname) else Trim(r.nodeName)
  }

  lemma FieldsOfRecord(env: Environment, r: Config)
    ensures var p := Prepare(env, r);
            && p.bootstrapToken == BootstrapOf(r) && p.serverAddr == ServerOf(r) && p.token == TokenOf(r)
            && p.enrollmentPassword == Trim(r.enrollmentPassword) && p.nodeName == NodeOf(env, r)
  {
    FieldIsSanitized(r.bootstrapToken, BOOTSTRAP_MARKER);
    FieldIsSanitized(r.serverAddr, SERVER_MARKER);
    FieldIsSanitized(r.token, TOKEN_MARKER);
  }

  /** With a bootstrap token in the record, server and token come from it, and the node name if it has one; one that cannot be
      read makes the record unloadable. Without one they are the record's, and a password stands in for a missing
      token. */
  lemma LoadedCredential(env: Environment, path: string, r: Config)
    ensures BootstrapOf(r) == "" ==>
              Load(env, path, r).Some? && var d := Load(env, path, r).value;
              && d.bootstrapToken == "" && d.serverAddr == ServerOf(r) && d.nodeName == NodeOf(env, r)
              && d.token == if TokenOf(r) == "" then Trim(r.enrollmentPassword) else TokenOf(r)
    ensures BootstrapOf(r) != "" ==>
              match env.decode(BootstrapOf(r))
              case None => Load(env, path, r) == None
              case Some(q) =>
                Load(env, path, r).Some? && var d := Load(env, path, r).value;
                && d.bootstrapToken == BootstrapOf(r) && d.serverAddr == q.serverAddr && d.token == q.accessToken
                && d.nodeName == if q.nodeName == "" then NodeOf(env, r) else q.nodeName
    ensures Load(env, path, r).Some? ==> Load(env, path, r).value.enrollmentPassword == Trim(r.enrollmentPassword)
  {
    FieldsOfRecord(env, r);
    TrimIsTrimmed(r.bootstrapToken);
    TrimIsTrimmed(r.token);
    TrimIsTrimmed(r.enrollmentPassword);
    EmptyText();
    if BootstrapOf(r) != "" && env.decode(BootstrapOf(r)).Some? {
      TrimOfTrimmed(env.decode(BootstrapOf(r)).value.accessToken);
    }
  }

  // ----- the other fields -----

  /** The address of the local page: its own, or else the one of the older setting, or else the default. */
  function WebOf(r: Config): string {
    if Trim(r.webListenAddr) != "" then Trim(r.webListenAddr)
    else if Trim(r.blockIPAPIListenAddr) != "" then Trim(r.blockIPAPIListenAddr)
    else "127.0.0.1:51888"
  }

  lemma PreparedSettings(env: Environment, r: Config)
    ensures var d := Prepare(env, r);
            && d.tlsEnabled == r.tlsEnabled && d.tlsServerName == Trim(r.tlsServerName) && d.tlsCAFile == Trim(r.tlsCAFile)
            && d.reconnectIntervalSec == (if r.reconnectIntervalSec > 0 then r.reconnectIntervalSec else 5)
            && d.webListenAddr == WebOf(r)
            && d.blockIPAPIListenAddr ==
                 if env.system == Linux && Trim(r.blockIPAPIListenAddr) == "" then WebOf(r) else Trim(r.blockIPAPIListenAddr)
  {
  }

  /** Only the credential decides about server, token and node name; loading leaves the other prepared fields. */
  lemma LoadLeaves(env: Environment, path: string, r: Config)
    requires Load(env, path, r).Some?
    ensures var d, p := Load(env, path, r).value, Prepare(env, r);
            d == p.(configPath := path, serverAddr := d.serverAddr, token := d.token, nodeName := d.nodeName)
  {
  }

  /** The other fields of a loaded configuration are those of the record without the white space around them, or their
      defaults. */
  lemma LoadedSettings(env: Environment, path: string, r: Config)
    requires Load(env, path, r).Some?
    ensures var d := Load(env, path, r).value;
            && d.configPath == path && d.tlsEnabled == r.tlsEnabled
            && d.tlsServerName == Trim(r.tlsServerName) && d.tlsCAFile == Trim(r.tlsCAFile)
            && d.reconnectIntervalSec == (if r.reconnectIntervalSec > 0 then r.reconnectIntervalSec else 5)
            && d.webListenAddr == WebOf(r)
            && d.blockIPAPIListenAddr ==
                 if env.system == Linux && Trim(r.blockIPAPIListenAddr) == "" then WebOf(r) else Trim(r.blockIPAPIListenAddr)
  {
    PreparedSettings(env, r);
    LoadLeaves(env, path, r);
  }

  lemma LoadedLists(env: Environment, path: string, r: Config)
    requires Load(env, path, r).Some?
    ensures Load(env, path, r).value.hostedServers == NormalizeServers(r.hostedServers)
    ensures Load(env, path, r).value.presets ==
              if NormalizePresets(r.presets) == [] then DefaultPresets(env) else NormalizePresets(r.presets)
  {
    LoadLeaves(env, path, r);
  }

  /** A stored server without ID, name or address is dropped, the others keep their order, trimmed. */
  lemma LoadedServer(env: Environment, path: string, r: Config, s: HostedServer, before: seq<HostedServer>)
    requires r.hostedServers == before + [s] && Load(env, path, r).Some?
    requires Load(env, path, r.(hostedServers := before)).Some?
    ensures var d, e := Load(env, path, r).value.hostedServers, Load(env, path, r.(hostedServers := before)).value.hostedServers;
            if Offered(s) then |d| == |e| + 1 && d[..|e|] == e && IsEntryOf(d[|e|], s) else d == e
  {
    LoadedLists(env, path, r);
    LoadedLists(env, path, r.(hostedServers := before));
    NormalizedSnoc(CleanServer, UsableServer, before, s);
  }

  predicate IsUsable(p: Preset) {
    Trim(p.name) != "" && Trim(p.localAddr) != ""
  }

  predicate IsLoadedFrom(q: Preset, p: Preset) {
    q.name == Trim(p.name) && q.localAddr == Trim(p.localAddr) && q.description == Trim(p.description)
    && q.protocol == if Trim(p.protocol) == "" then "tcp" else Lower(Trim(p.protocol))
  }

  /** A mapping with a name and an address is loaded, behind those before it. */
  lemma LoadedMapping(env: Environment, path: string, r: Config, p: Preset, before: seq<Preset>)
    requires r.presets == before + [p] && IsUsable(p) && Load(env, path, r).Some?
    ensures var d := Load(env, path, r).value.presets;
            |d| > 0 && IsLoadedFrom(d[|d| - 1], p) && d[..|d| - 1] == NormalizePresets(before)
  {
    LoadedLists(env, path, r);
    NormalizedSnoc(CleanPreset, UsablePreset, before, p);
  }

  /** One without is dropped. */
  lemma DroppedMapping(before: seq<Preset>, p: Preset)
    requires !IsUsable(p)
    ensures NormalizePresets(before + [p]) == NormalizePresets(before)
  {
    NormalizedSnoc(CleanPreset, UsablePreset, before, p);
  }

  lemma {:induction false} NoneUsable(ps: seq<Preset>)
    requires forall k :: 0 <= k < |ps| ==> !IsUsable(ps[k])
    ensures NormalizePresets(ps) == []
  {
    if |ps| > 0 {
      NoneUsable(ps[1..]);
    }
  }

  /** Without any such mapping the default one is loaded: remote desktop on Windows, and otherwise SSH. */
  lemma LoadedDefault(env: Environment, path: string, r: Config)
    requires Load(env, path, r).Some? && forall k :: 0 <= k < |r.presets| ==> !IsUsable(r.presets[k])
    ensures Load(env, path, r).value.presets ==
              [if env.system == Windows then Preset("rdp", "127.0.0.1:3389", Trim(env.presetNote), "tcp")
               else Preset("ssh", "0.0.0.0:22", Trim(env.presetNote), "tcp")]
  {
    NoneUsable(r.presets);
    LoadedLists(env, path, r);
  }

  // ----- validity -----

  predicate HasText(s: string) {
    exists i :: 0 <= i < |s| && !IsSpace(s[i])
  }

  lemma TextOrBlank(s: string)
    ensures HasText(s) <==> Trim(s) != ""
  {
    BlankIsAllSpace(s);
  }

  predicate ValidMapping(p: Preset) {
    HasText(p.name) && HasText(p.localAddr) && (!HasText(p.protocol) || EqualFold(Trim(p.protocol), "tcp") || EqualFold(Trim(p.protocol), "udp"))
  }

  lemma ProtocolNames()
    ensures Lower("tcp") == "tcp" && Lower("udp") == "udp"
  {
  }

  lemma MappingIsValid(p: Preset)
    ensures ValidPreset(p) <==> ValidMapping(p)
  {
    TextOrBlank(p.name);
    TextOrBlank(p.localAddr);
    TextOrBlank(p.protocol);
    ProtocolNames();
  }

  /** A configuration is valid exactly if the page listens locally, server, token and node name are filled in and no
      placeholders, the interval is positive, and there are mappings, valid and of different names. */
  lemma ValidExactly(env: Environment, c: Config)
    ensures Valid(env, c) <==>
              && env.isLoopbackListener(c.webListenAddr)
              && HasText(c.serverAddr) && !HoldsText(c.serverAddr, "YOUR_SERVER_PUBLIC_IP")
              && HasText(c.token) && !HoldsText(c.token, "replace-with-a-strong-shared-token")
              && HasText(c.nodeName) && c.reconnectIntervalSec >= 1 && |c.presets| >= 1
              && (forall p :: p in c.presets ==> ValidMapping(p))
              && (forall i, j :: 0 <= i < j < |c.presets| ==> Lower(Trim(c.presets[i].name)) != Lower(Trim(c.presets[j].name)))
  {
    TextOrBlank(c.serverAddr);
    TextOrBlank(c.token);
    TextOrBlank(c.nodeName);
    forall i | 0 <= i < |c.presets| ensures ValidPreset(c.presets[i]) <==> ValidMapping(c.presets[i]) {
      MappingIsValid(c.presets[i]);
    }
  }
}
