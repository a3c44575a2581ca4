/**
 The edits of the local management page and of the server: new settings, the list of hosted servers, and a
 credential the server issued. Each lemma says what an edit keeps of the stored identity: the server connection,
 the node name and the token.
 */
module ManagedEdits {
  import opened Basics
  import opened Text
  import opened ClientConfig

  const MAX_MAPPINGS := 20
  const TOKEN_PREFIX := "1cat1."

  datatype Mapping = Mapping(name: string, protocol: string, localHost: string, localPort: int)

  datatype ConfigRequest = ConfigRequest(
    revision: Option<nat>, serverID: string, nodeName: string, credential: string,
    mappingCount: int, mappings: seq<Mapping>)

  datatype ServerRequest =
    | RemoveServer(id: string)
    | AddServer(name: string, serverAddr: string, tlsServerName: string)
    | UnknownAction

  // ----- the identity a token belongs to -----

  predicate SameConnection(a: Config, b: Config) {
    && EqualFold(Trim(a.serverAddr), Trim(b.serverAddr))
    && a.tlsEnabled == b.tlsEnabled
    && EqualFold(Trim(a.tlsServerName), Trim(b.tlsServerName))
    && EqualFold(Trim(a.tlsCAFile), Trim(b.tlsCAFile))
  }

  predicate SameIdentity(a: Config, b: Config) {
    SameConnection(a, b) && Trim(a.nodeName) == Trim(b.nodeName)
  }

  lemma SameIdentityIsEquivalence(a: Config, b: Config, c: Config)
    ensures SameIdentity(a, a)
    ensures SameIdentity(a, b) ==> SameIdentity(b, a)
    ensures SameIdentity(a, b) && SameIdentity(b, c) ==> SameIdentity(a, c)
  {
  }

  /** A stored bootstrap token stands for the stored server, token and node name. */
  predicate LinkedBootstrap(env: Environment, c: Config) {
    Trim(c.bootstrapToken) != "" ==>
      match env.decode(Trim(c.bootstrapToken))
      case None => false
      case Some(q) =>
        && EqualFold(q.serverAddr, Trim(c.serverAddr))
        && Trim(c.token) == q.accessToken
        && (q.nodeName != "" ==> Trim(c.nodeName) == q.nodeName)
  }

  /** And a stored password has become the token, so it stands for nothing else. */
  predicate Linked(env: Environment, c: Config) {
    LinkedBootstrap(env, c) && (Trim(c.token) == "" ==> Trim(c.enrollmentPassword) == "")
  }

  // ----- mappings -----

  function Decimal(n: nat): string {
    var digit := (n % 10 + 48) as char;
    if n < 10 then [digit] else Decimal(n / 10) + [digit]
  }

  function JoinHostPort(host: string, port: nat): string {
    if ':' in host then "[" + host + "]:" + Decimal(port) else host + ":" + Decimal(port)
  }

  function MappingName(m: Mapping, index: nat): string {
    if Trim(m.name) == "" then "port-" + Decimal(index + 1) else Trim(m.name)
  }

  function StripBrackets(host: string): string {
    var a := if HasPrefix(host, "[") then host[1..] else host;
    if a != "" && a[|a| - 1] == ']' then a[..|a| - 1] else a
  }

  /** One mapping as a preset, or None if it is refused. */
  function ConvertMapping(env: Environment, m: Mapping, index: nat): Option<Preset> {
    var host := StripBrackets(Trim(m.localHost));
    if |MappingName(m, index)| > 64 || !IsSupportedProtocol(m.protocol) || !env.isHost(host) then None
    else if m.localPort < 1 || m.localPort > 65535 then None
    else Some(Preset(MappingName(m, index), JoinHostPort(host, m.localPort),
                     "由本机 Web 管理面板配置", NormalizeProtocol(m.protocol)))
  }

  /** Every mapping converts, and no two have the same key. */
  predicate AllConvert(mappings: seq<Mapping>, convert: (Mapping, nat) -> Option<Preset>, key: (Mapping, nat) -> string) {
    && (forall i :: 0 <= i < |mappings| ==> convert(mappings[i], i).Some?)
    && forall i, j :: 0 <= i < j < |mappings| ==> key(mappings[i], i) != key(mappings[j], j)
  }

  function Converted(mappings: seq<Mapping>, convert: (Mapping, nat) -> Option<Preset>): (r: seq<Preset>)
    requires forall i :: 0 <= i < |mappings| ==> convert(mappings[i], i).Some?
    ensures |r| == |mappings|
    ensures forall i :: 0 <= i < |r| ==> convert(mappings[i], i) == Some(r[i])
  {
    seq(|mappings|, i requires 0 <= i < |mappings| => convert(mappings[i], i).value)
  }

  function Converter(env: Environment): (Mapping, nat) -> Option<Preset> {
    (m: Mapping, i: nat) => ConvertMapping(env, m, i)
  }

  function FoldedName(m: Mapping, index: nat): string {
    Lower(MappingName(m, index))
  }

  predicate AcceptedMappings(env: Environment, req: ConfigRequest) {
    && 1 <= req.mappingCount <= MAX_MAPPINGS
    && |req.mappings| == req.mappingCount
    && AllConvert(req.mappings, Converter(env), FoldedName)
  }

  function RequestedPresets(env: Environment, req: ConfigRequest): (r: seq<Preset>)
    requires AcceptedMappings(env, req)
    ensures |r| == req.mappingCount
  {
    Converted(req.mappings, Converter(env))
  }

  /** The request's loop over the mappings, with the folded names seen so far. */
  method ConvertMappings(mappings: seq<Mapping>, convert: (Mapping, nat) -> Option<Preset>, key: (Mapping, nat) -> string)
    returns (r: Option<seq<Preset>>)
    ensures r.Some? <==> AllConvert(mappings, convert, key)
    ensures r.Some? ==> r.value == Converted(mappings, convert)
  {
    var seen: set<string> := {};
    var presets: seq<Preset> := [];
    for i := 0 to |mappings|
      invariant |presets| == i
      invariant forall k :: k in seen <==> exists j :: 0 <= j < i && key(mappings[j], j) == k
      invariant forall j :: 0 <= j < i ==> convert(mappings[j], j) == Some(presets[j])
      invariant forall j, k :: 0 <= j < k < i ==> key(mappings[j], j) != key(mappings[k], k)
    {
      if key(mappings[i], i) in seen {
        return None;
      }
      seen := seen + {key(mappings[i], i)};
      var preset := convert(mappings[i], i);
      if preset.None? {
        return None;
      }
      presets := presets + [preset.value];
    }
    r := Some(presets);
  }

  method PresetsFromRequest(env: Environment, req: ConfigRequest) returns (r: Option<seq<Preset>>)
    ensures r.Some? <==> AcceptedMappings(env, req)
    ensures r.Some? ==> r.value == RequestedPresets(env, req)
  {
    if req.mappingCount < 1 || req.mappingCount > MAX_MAPPINGS || |req.mappings| != req.mappingCount {
      return None;
    }
    r := ConvertMappings(req.mappings, Converter(env), FoldedName);
  }

  lemma NotBlank(s: string, k: nat)
    requires k < |s| && !IsSpace(s[k])
    ensures Trim(s) != ""
  {
    BlankIsAllSpace(s);
  }

  lemma MappingNameIsTrimmed(m: Mapping, index: nat)
    ensures Trim(MappingName(m, index)) == MappingName(m, index) != ""
  {
    TrimIsTrimmed(m.name);
    var d := Decimal(index + 1);
    assert d[|d| - 1] == ((index + 1) % 10 + 48) as char;
    assert !IsSpace(d[|d| - 1]);
    if Trim(m.name) == "" {
      var n := "port-" + d;
      assert n[|n| - 1] == d[|d| - 1] && n[0] == 'p';
      TrimOfTrimmed(n);
    }
  }

  lemma ConvertedIsValid(env: Environment, m: Mapping, index: nat)
    requires ConvertMapping(env, m, index).Some?
    ensures ValidPreset(ConvertMapping(env, m, index).value)
    ensures Trim(ConvertMapping(env, m, index).value.name) == MappingName(m, index)
  {
    var p := ConvertMapping(env, m, index).value;
    MappingNameIsTrimmed(m, index);
    NormalizeProtocolIdempotent(m.protocol);
    var host := StripBrackets(Trim(m.localHost));
    if ':' in host {
      NotBlank(p.localAddr, 0);
    } else {
      assert p.localAddr == (host + ":") + Decimal(m.localPort);
      assert p.localAddr[|host|] == ':';
      NotBlank(p.localAddr, |host|);
    }
  }

  /** The mappings a request may ask for always pass the validator's preset checks. */
  lemma AcceptedPresetsAreValid(env: Environment, req: ConfigRequest)
    requires AcceptedMappings(env, req)
    ensures var ps := RequestedPresets(env, req);
            && |ps| > 0 && (forall i :: 0 <= i < |ps| ==> ValidPreset(ps[i])) && DistinctNames(ps)
  {
    var ps := RequestedPresets(env, req);
    forall i | 0 <= i < |ps|
      ensures ValidPreset(ps[i]) && Lower(Trim(ps[i].name)) == FoldedName(req.mappings[i], i)
    {
      assert Converter(env)(req.mappings[i], i) == Some(ps[i]);
      ConvertedIsValid(env, req.mappings[i], i);
    }
    forall i, j | 0 <= i < j < |ps| ensures !EqualFold(Trim(ps[i].name), Trim(ps[j].name)) {
      assert FoldedName(req.mappings[i], i) != FoldedName(req.mappings[j], j);
    }
  }

  // ----- new settings -----

  predicate HasCredential(c: Config) {
    Trim(c.bootstrapToken) != "" || Trim(c.token) != "" || Trim(c.enrollmentPassword) != ""
  }

  function ApplyCredential(env: Environment, c: Config, credential: string): Option<Config> {
    match env.decode(Trim(credential))
    case Some(q) =>
      if !EqualFold(q.serverAddr, c.serverAddr) then None
      else Some(c.(bootstrapToken := Trim(credential), token := q.accessToken, enrollmentPassword := "",
                   nodeName := if q.nodeName != "" then q.nodeName else c.nodeName))
    case None =>
      if HasPrefix(Trim(credential), TOKEN_PREFIX) then None
      else Some(c.(bootstrapToken := "", token := Trim(credential), enrollmentPassword := Trim(credential)))
  }

  predicate Entered(req: ConfigRequest) {
    Trim(req.credential) != ""
  }

  /** The configuration a settings request asks for, or None if the request is refused. */
  function EditConfig(env: Environment, c: Config, req: ConfigRequest): Option<Config> {
    var applied := ApplyServer(c, req.serverID);
    if applied.None? then None
    else
      var next := applied.value.(nodeName := Trim(req.nodeName));
      var changed := !SameConnection(c, applied.value) || Trim(req.nodeName) != Trim(c.nodeName);
      if next.nodeName == "" || |next.nodeName| > 128 then None
      else if !Entered(req) && (changed || !HasCredential(next)) then None
      else
        var credited := if Entered(req) then ApplyCredential(env, next, req.credential) else Some(next);
        if credited.None? || !AcceptedMappings(env, req) then None
        else Some(credited.value.(presets := RequestedPresets(env, req), configPath := c.configPath))
  }

  /** Without a new credential a request can change neither the server, nor the node, nor the stored secrets. */
  lemma EditKeepsIdentity(env: Environment, c: Config, req: ConfigRequest)
    requires EditConfig(env, c, req).Some? && !Entered(req)
    ensures var n := EditConfig(env, c, req).value;
            && SameIdentity(n, c)
            && n.token == c.token && n.bootstrapToken == c.bootstrapToken && n.enrollmentPassword == c.enrollmentPassword
  {
    TrimIsTrimmed(req.nodeName);
  }

  lemma CredentialIsLinked(env: Environment, c: Config, credential: string)
    requires ApplyCredential(env, c, credential).Some?
    ensures Linked(env, ApplyCredential(env, c, credential).value)
  {
    EmptyText();
    TrimIsTrimmed(credential);
    if q :| env.decode(Trim(credential)) == Some(q) {
      EqualFoldTrimmed(q.serverAddr, c.serverAddr);
      TrimOfTrimmed(c.serverAddr);
      TrimOfTrimmed(q.accessToken);
      TrimOfTrimmed(q.nodeName);
    }
  }

  lemma LinkedDependsOn(env: Environment, a: Config, b: Config)
    requires Linked(env, b)
    requires a.bootstrapToken == b.bootstrapToken && a.token == b.token && SameIdentity(a, b)
    requires a.enrollmentPassword == b.enrollmentPassword
    ensures Linked(env, a)
  {
    if Trim(a.bootstrapToken) != "" {
      var q := env.decode(Trim(b.bootstrapToken)).value;
      EqualFoldIsEquivalence(q.serverAddr, Trim(b.serverAddr), Trim(a.serverAddr));
    }
  }

  lemma EditIsLinked(env: Environment, c: Config, req: ConfigRequest)
    requires EditConfig(env, c, req).Some? && Linked(env, c)
    ensures Linked(env, EditConfig(env, c, req).value)
  {
    var n := EditConfig(env, c, req).value;
    if Entered(req) {
      var next := ApplyServer(c, req.serverID).value.(nodeName := Trim(req.nodeName));
      CredentialIsLinked(env, next, req.credential);
      var m := ApplyCredential(env, next, req.credential).value;
      SameIdentityIsEquivalence(n, m, m);
      LinkedDependsOn(env, n, m);
    } else {
      EditKeepsIdentity(env, c, req);
      LinkedDependsOn(env, n, c);
    }
  }

  // ----- saving and loading keep the identity -----

  lemma PreparedIdentity(env: Environment, r: Config)
    requires Trim(r.nodeName) != "" && Trim(r.serverAddr) != "" && !ContainsFold(r.serverAddr, SERVER_MARKER)
    ensures SameIdentity(Prepare(env, r), r)
  {
    TrimIsTrimmed(r.serverAddr);
    TrimIsTrimmed(r.nodeName);
    TrimIsTrimmed(r.tlsServerName);
    TrimIsTrimmed(r.tlsCAFile);
  }

  lemma SavedToken(env: Environment, c: Config)
    requires Trim(c.token) != "" && !ContainsFold(c.token, TOKEN_MARKER) && Trim(c.bootstrapToken) == ""
    ensures var p := Prepare(env, Save(c));
            && Trim(p.bootstrapToken) == ""
            && Trim(WithFallback(p).token) == Trim(c.token)
  {
    EmptyText();
    TrimIsTrimmed(c.bootstrapToken);
    TrimIsTrimmed(c.token);
    TrimIsTrimmed(c.enrollmentPassword);
    EmptyIsPrepared(TOKEN_MARKER) by { MarkersAreNotEmpty(); }
  }

  lemma LoadedWithoutBootstrap(env: Environment, path: string, c: Config)
    requires Valid(env, c) && Trim(c.bootstrapToken) == ""
    ensures Load(env, path, Save(c)).Some?
    ensures var d := Load(env, path, Save(c)).value;
            && SameIdentity(d, c) && Trim(d.token) == Trim(c.token) && Trim(d.bootstrapToken) == ""
  {
    SavedToken(env, c);
    PreparedIdentity(env, Save(c));
    var d := Load(env, path, Save(c)).value;
    SameIdentityIsEquivalence(d, Prepare(env, Save(c)), Save(c));
    SameIdentityIsEquivalence(d, Save(c), c);
  }

  lemma LoadedWithBootstrap(env: Environment, path: string, c: Config)
    requires Valid(env, c) && Linked(env, c) && Trim(c.bootstrapToken) != ""
    requires Load(env, path, Save(c)).Some?
    ensures var d := Load(env, path, Save(c)).value;
            && (Trim(d.token) != "" ==> SameIdentity(d, c) && Trim(d.token) == Trim(c.token))
            && Linked(env, d)
  {
    EmptyText();
    var p := Prepare(env, Save(c));
    EmptyIsPrepared(TOKEN_MARKER) by { MarkersAreNotEmpty(); }
    TrimIsTrimmed(c.bootstrapToken);
    TrimIsTrimmed(c.nodeName);
    TrimIsTrimmed(c.tlsServerName);
    TrimIsTrimmed(c.tlsCAFile);
    if p.bootstrapToken != "" {
      var q := env.decode(Trim(c.bootstrapToken)).value;
      TrimOfTrimmed(q.serverAddr);
      TrimOfTrimmed(q.accessToken);
      TrimOfTrimmed(q.nodeName);
    }
  }

  /** What is loaded after saving an accepted configuration has its identity and token, or no token at all. */
  lemma LoadKeepsIdentity(env: Environment, path: string, c: Config)
    requires Valid(env, c) && Linked(env, c) && Load(env, path, Save(c)).Some?
    ensures var d := Load(env, path, Save(c)).value;
            && (Trim(d.token) != "" ==> SameIdentity(d, c) && Trim(d.token) == Trim(c.token))
            && Linked(env, d)
  {
    if Trim(c.bootstrapToken) == "" {
      LoadedWithoutBootstrap(env, path, c);
    } else {
      LoadedWithBootstrap(env, path, c);
    }
  }

  /** Whatever was in the file, a loaded bootstrap token stands for the loaded server, token and node name. */
  lemma LoadIsLinked(env: Environment, path: string, record: Config)
    requires Load(env, path, record).Some?
    ensures Linked(env, Load(env, path, record).value)
  {
    var p, c := Prepare(env, record), Load(env, path, record).value;
    LoadOfPrepared(env, path, record);
    LoadedFields(env, p);
    EmptyText();
    if p.bootstrapToken != "" {
      var q := env.decode(p.bootstrapToken).value;
      TrimOfTrimmed(q.serverAddr);
      TrimOfTrimmed(q.accessToken);
      TrimOfTrimmed(q.nodeName);
    }
  }

  /** The presets are the normalised ones. */
  lemma LoadKeepsPresets(env: Environment, path: string, c: Config)
    requires Load(env, path, Save(c)).Some?
    ensures Load(env, path, Save(c)).value.presets == PreparedPresets(env, c.presets)
  {
    assert Save(c).presets == c.presets;
    assert Prepare(env, Save(c)).presets == PreparedPresets(env, c.presets);
  }

  // ----- an issued credential -----

  /** A reply is for the configuration its session was started with; a changed one is left alone. */
  predicate ReplyApplies(source: Config, c: Config) {
    SameConnection(source, c) && source.nodeName == c.nodeName && source.token == c.token
  }

  function WithIssuedToken(c: Config, token: string): Config {
    c.(bootstrapToken := "", enrollmentPassword := "", token := token)
  }

  lemma IssuedTokenIsLinked(env: Environment, c: Config, token: string)
    ensures Linked(env, WithIssuedToken(c, token)) && SameIdentity(WithIssuedToken(c, token), c)
  {
    EmptyText();
    SameIdentityIsEquivalence(c, c, c);
  }

  // ----- the list of hosted servers -----

  function RemoveFirst(servers: seq<HostedServer>, id: string): Option<seq<HostedServer>> {
    if |servers| == 0 then None
    else if servers[0].id == id then Some(servers[1..])
    else
      match RemoveFirst(servers[1..], id)
      case None => None
      case Some(rest) => Some([servers[0]] + rest)
  }

  predicate AlreadyListed(servers: seq<HostedServer>, address: string, name: string) {
    exists i :: 0 <= i < |servers| && EqualFold(servers[i].serverAddr, address) && EqualFold(servers[i].tlsServerName, name)
  }

  function EditServers(env: Environment, c: Config, req: ServerRequest): Option<Config> {
    match req
    case RemoveServer(id) =>
      if id == SelectedID(c) then None
      else
        (match RemoveFirst(c.hostedServers, id)
         case None => None
         case Some(rest) => Some(c.(hostedServers := rest)))
    case AddServer(rawName, rawAddress, rawServerName) =>
      var name, address := Trim(rawName), Trim(rawAddress);
      var host := env.hostOfControlAddress(address);
      if name == "" || |name| > 128 || host.None? || !env.isHost(host.value) then None
      else
        var serverName := if Trim(rawServerName) == "" then host.value else Trim(rawServerName);
        if !env.isHost(serverName) || AlreadyListed(Catalog(c), address, serverName) || |c.hostedServers| >= 32 then None
        else
          var id := "custom-" + env.digest(Lower(address + "|" + serverName));
          Some(c.(hostedServers := c.hostedServers + [HostedServer(id, name, address, true, serverName, "")]))
    case UnknownAction => None
  }

  /** Editing the list touches nothing else. */
  lemma EditServersKeepsRest(env: Environment, c: Config, req: ServerRequest)
    requires EditServers(env, c, req).Some?
    ensures EditServers(env, c, req).value == c.(hostedServers := EditServers(env, c, req).value.hostedServers)
    ensures Linked(env, c) ==> Linked(env, EditServers(env, c, req).value)
    ensures SameIdentity(EditServers(env, c, req).value, c)
  {
    var n := EditServers(env, c, req).value;
    SameIdentityIsEquivalence(n, c, c);
    if Linked(env, c) {
      LinkedDependsOn(env, n, c);
    }
  }
}
