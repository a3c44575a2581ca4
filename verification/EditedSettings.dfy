/**
 What an accepted settings request comes to, read off the request itself: each mapping's name, protocol, host and port,
 the node name, the server of the catalog entry it names and the credential. And when a request is accepted.
 */
module EditedSettings {
  import opened Basics
  import opened Text
  import opened ClientConfig
  import opened ManagedEdits

  // ----- decimal texts -----

  predicate AllDigits(s: string) {
    forall i :: 0 <= i < |s| ==> '0' <= s[i] <= '9'
  }

  function DecimalValue(s: string): nat
    requires AllDigits(s)
  {
    if s == "" then 0 else 10 * DecimalValue(s[..|s| - 1]) + (s[|s| - 1] as int - '0' as int)
  }

  /** The decimal text of a number has its value, and no zero in front. */
  lemma {:induction false} DecimalReads(n: nat)
    ensures Decimal(n) != "" && AllDigits(Decimal(n)) && DecimalValue(Decimal(n)) == n
    ensures n > 0 ==> Decimal(n)[0] != '0'
  {
    var d := Decimal(n);
    if n >= 10 {
      DecimalReads(n / 10);
      assert d[..|d| - 1] == Decimal(n / 10);
    } else {
      assert d[..0] == "";
    }
  }

  // ----- an address and its parts -----

  /** The host, in brackets if it has a colon, a colon, and the port in decimal. */
  ghost predicate IsAddress(address: string, host: string, port: nat) {
    exists digits: string ::
      && address == (if ':' in host then "[" + host + "]" else host) + ":" + digits
      && AllDigits(digits) && DecimalValue(digits) == port
  }

  /** The text without one bracket at its start and one at its end. */
  predicate IsInside(host: string, t: string) {
    var left, right := t != "" && t[0] == '[', t != "" && t[|t| - 1] == ']';
    t == (if left then "[" else "") + host + (if right then "]" else "")
  }

  lemma AddressOf(host: string, port: nat)
    ensures IsAddress(JoinHostPort(host, port), host, port)
  {
    DecimalReads(port);
    var front := if ':' in host then "[" + host + "]" else host;
    if ':' in host {
      assert "[" + host + "]:" + Decimal(port) == front + ":" + Decimal(port);
    }
  }

  lemma InsideOf(t: string)
    ensures IsInside(StripBrackets(t), t)
  {
    var a := if HasPrefix(t, "[") then t[1..] else t;
    if t != "" && t[0] == '[' {
      assert t == "[" + a;
    } else {
      assert a == t;
    }
    if a != "" && a[|a| - 1] == ']' {
      assert a == a[..|a| - 1] + "]";
    }
  }

  // ----- the mappings -----

  /** The name asked for, or `port-` and the number of the mapping, counted from one. */
  ghost predicate IsName(name: string, asked: string, index: nat) {
    if Trim(asked) != "" then name == Trim(asked)
    else exists digits: string :: name == "port-" + digits && AllDigits(digits) && DecimalValue(digits) == index + 1
  }

  /** `tcp` if that or nothing was asked for, in any case, and `udp` if that was. */
  predicate IsProtocol(protocol: string, asked: string) {
    || (protocol == "tcp" && (Trim(asked) == "" || EqualFold(Trim(asked), "tcp")))
    || (protocol == "udp" && EqualFold(Trim(asked), "udp"))
  }

  ghost predicate IsPresetFor(p: Preset, m: Mapping, index: nat) {
    && IsName(p.name, m.name, index) && IsProtocol(p.protocol, m.protocol)
    && 1 <= m.localPort <= 65535 && p.description == "由本机 Web 管理面板配置"
    && exists host :: IsInside(host, Trim(m.localHost)) && IsAddress(p.localAddr, host, m.localPort)
  }

  lemma NameOf(m: Mapping, index: nat)
    ensures IsName(MappingName(m, index), m.name, index)
  {
    DecimalReads(index + 1);
  }

  lemma LowerNames()
    ensures Lower("tcp") == "tcp" && Lower("udp") == "udp"
  {
  }

  lemma ProtocolOf(asked: string)
    requires IsSupportedProtocol(asked)
    ensures IsProtocol(NormalizeProtocol(asked), asked)
  {
    LowerNames();
  }

  lemma PresetOf(env: Environment, m: Mapping, index: nat)
    requires ConvertMapping(env, m, index).Some?
    ensures IsPresetFor(ConvertMapping(env, m, index).value, m, index)
  {
    var host := StripBrackets(Trim(m.localHost));
    NameOf(m, index);
    ProtocolOf(m.protocol);
    InsideOf(Trim(m.localHost));
    AddressOf(host, m.localPort);
  }

  /** An accepted request gives one preset for each of its mappings, in order, with the name, the protocol, the host and the
      port asked for. */
  lemma EditHasMappings(env: Environment, c: Config, req: ConfigRequest, i: nat)
    requires EditConfig(env, c, req).Some?
    ensures |EditConfig(env, c, req).value.presets| == |req.mappings| == req.mappingCount
    ensures i < |req.mappings| ==> IsPresetFor(EditConfig(env, c, req).value.presets[i], req.mappings[i], i)
  {
    if i < |req.mappings| {
      var ps := RequestedPresets(env, req);
      assert Converter(env)(req.mappings[i], i) == Some(ps[i]);
      PresetOf(env, req.mappings[i], i);
    }
  }

  // ----- the rest of the record -----

  /** The node name is the requested one, unless the credential names the node itself. */
  lemma EditHasNode(env: Environment, c: Config, req: ConfigRequest)
    requires EditConfig(env, c, req).Some?
    ensures var n := EditConfig(env, c, req).value;
            var q := if Trim(req.credential) == "" then None else env.decode(Trim(req.credential));
            n.nodeName == if q.Some? && q.value.nodeName != "" then q.value.nodeName else Trim(req.nodeName)
  {
    TrimIsTrimmed(req.credential);
  }

  /** An entered credential is stored as a bootstrap token with the token in it, or as token and password; without one
      the stored secrets stay. */
  lemma EditHasCredential(env: Environment, c: Config, req: ConfigRequest)
    requires EditConfig(env, c, req).Some?
    ensures var n, entered := EditConfig(env, c, req).value, Trim(req.credential);
            if entered == "" then
              n.bootstrapToken == c.bootstrapToken && n.token == c.token && n.enrollmentPassword == c.enrollmentPassword
            else
              match env.decode(entered)
              case Some(q) => n.bootstrapToken == entered && n.token == q.accessToken && n.enrollmentPassword == ""
                              && EqualFold(q.serverAddr, n.serverAddr)
              case None => n.bootstrapToken == "" && n.token == entered && n.enrollmentPassword == entered
  {
    TrimIsTrimmed(req.credential);
  }

  lemma {:induction false} FirstWithID(servers: seq<HostedServer>, id: string) returns (k: nat)
    requires FindServer(servers, id).Some?
    ensures k < |servers| && servers[k].id == id && FindServer(servers, id).value == servers[k]
    ensures forall j :: 0 <= j < k ==> servers[j].id != id
  {
    if servers[0].id == id {
      k := 0;
    } else {
      k := FirstWithID(servers[1..], id);
      k := k + 1;
    }
  }

  /** Selecting a server takes over the first catalog entry with its ID; if it was selected and used already, the stored
      connection stays as it is. */
  lemma SelectionTakesEntry(c: Config, id: string) returns (k: nat)
    requires ApplyServer(c, id).Some?
    ensures k < |Catalog(c)| && Catalog(c)[k].id == Trim(id)
    ensures forall j :: 0 <= j < k ==> Catalog(c)[j].id != Trim(id)
    ensures var s := Catalog(c)[k];
            ApplyServer(c, id).value ==
              if Trim(id) == SelectedID(c) && EqualFold(s.serverAddr, c.serverAddr) then c.(selectedServerID := Trim(id))
              else c.(selectedServerID := Trim(id), serverAddr := s.serverAddr, tlsEnabled := s.tlsEnabled,
                      tlsServerName := s.tlsServerName, tlsCAFile := s.tlsCAFile)
  {
    k := FirstWithID(Catalog(c), Trim(id));
  }

  lemma CredentialKeeps(env: Environment, c: Config, credential: string)
    requires ApplyCredential(env, c, credential).Some?
    ensures var n := ApplyCredential(env, c, credential).value;
            n == c.(bootstrapToken := n.bootstrapToken, token := n.token, enrollmentPassword := n.enrollmentPassword,
                    nodeName := n.nodeName)
  {
  }

  /** Beyond the server an edit changes secrets, node name and mappings, and nothing else. */
  lemma EditChangesOnly(env: Environment, c: Config, req: ConfigRequest)
    requires EditConfig(env, c, req).Some?
    ensures ApplyServer(c, req.serverID).Some?
    ensures var n := EditConfig(env, c, req).value;
            n == ApplyServer(c, req.serverID).value.(
                   bootstrapToken := n.bootstrapToken, token := n.token, enrollmentPassword := n.enrollmentPassword,
                   nodeName := n.nodeName, presets := n.presets)
  {
    var applied := ApplyServer(c, req.serverID).value;
    SelectionKeepsPath(c, req.serverID);
    if Entered(req) {
      CredentialKeeps(env, applied.(nodeName := Trim(req.nodeName)), req.credential);
    }
  }

  lemma SelectionKeepsPath(c: Config, id: string)
    requires ApplyServer(c, id).Some?
    ensures ApplyServer(c, id).value.configPath == c.configPath
  {
  }

  // ----- which requests are accepted -----

  /** A mapping that can be served: a short name, TCP or UDP, a host, and a port. */
  ghost predicate Servable(env: Environment, m: Mapping, index: nat) {
    && |MappingName(m, index)| <= 64
    && (exists protocol :: IsProtocol(protocol, m.protocol))
    && (exists host :: IsInside(host, Trim(m.localHost)) && env.isHost(host))
    && 1 <= m.localPort <= 65535
  }

  lemma InsideIsUnique(a: string, b: string, t: string)
    requires IsInside(a, t) && IsInside(b, t)
    ensures a == b
  {
    var left := if t != "" && t[0] == '[' then "[" else "";
    assert a == t[|left|..|left| + |a|] && b == t[|left|..|left| + |b|];
  }

  lemma ServableConverts(env: Environment, m: Mapping, index: nat)
    ensures Servable(env, m, index) <==> ConvertMapping(env, m, index).Some?
  {
    InsideOf(Trim(m.localHost));
    LowerNames();
    if Servable(env, m, index) {
      var host :| IsInside(host, Trim(m.localHost)) && env.isHost(host);
      InsideIsUnique(host, StripBrackets(Trim(m.localHost)), Trim(m.localHost));
    }
    if IsSupportedProtocol(m.protocol) {
      ProtocolOf(m.protocol);
    }
  }

  ghost predicate ServableMappings(env: Environment, req: ConfigRequest) {
    && 1 <= req.mappingCount <= 20 && |req.mappings| == req.mappingCount
    && (forall i :: 0 <= i < |req.mappings| ==> Servable(env, req.mappings[i], i))
    && (forall i, j :: 0 <= i < j < |req.mappings| ==>
          !EqualFold(MappingName(req.mappings[i], i), MappingName(req.mappings[j], j)))
  }

  lemma ServableAreAccepted(env: Environment, req: ConfigRequest)
    ensures ServableMappings(env, req) <==> AcceptedMappings(env, req)
  {
    forall i | 0 <= i < |req.mappings|
      ensures Servable(env, req.mappings[i], i) <==> Converter(env)(req.mappings[i], i).Some?
    {
      ServableConverts(env, req.mappings[i], i);
    }
    if AcceptedMappings(env, req) {
      forall i, j | 0 <= i < j < |req.mappings|
        ensures !EqualFold(MappingName(req.mappings[i], i), MappingName(req.mappings[j], j))
      {
        assert FoldedName(req.mappings[i], i) != FoldedName(req.mappings[j], j);
      }
    }
    if ServableMappings(env, req) {
      forall i, j | 0 <= i < j < |req.mappings| ensures FoldedName(req.mappings[i], i) != FoldedName(req.mappings[j], j) {
        assert !EqualFold(MappingName(req.mappings[i], i), MappingName(req.mappings[j], j));
      }
    }
  }

  /** The credential part of a request: with none, the connection and the node must stay and a secret be stored; a
      connect token must be for the server, and a text that looks like one but is none is refused. */
  predicate CredentialFits(env: Environment, c: Config, applied: Config, req: ConfigRequest) {
    var entered := Trim(req.credential);
    if entered == "" then
      && EqualFold(Trim(c.serverAddr), Trim(applied.serverAddr)) && c.tlsEnabled == applied.tlsEnabled
      && EqualFold(Trim(c.tlsServerName), Trim(applied.tlsServerName)) && EqualFold(Trim(c.tlsCAFile), Trim(applied.tlsCAFile))
      && Trim(req.nodeName) == Trim(c.nodeName)
      && (Trim(c.bootstrapToken) != "" || Trim(c.token) != "" || Trim(c.enrollmentPassword) != "")
    else
      match env.decode(entered)
      case Some(q) => EqualFold(q.serverAddr, applied.serverAddr)
      case None => !("1cat1." <= entered)
  }

  lemma SelectableIsListed(c: Config, id: string)
    ensures ApplyServer(c, id).Some? <==> exists k :: 0 <= k < |Catalog(c)| && Catalog(c)[k].id == Trim(id)
  {
  }

  /** A request is accepted exactly if its server is in the catalog, its node name is of a proper length, its credential
      fits and its mappings can be served under different names. */
  lemma EditIsAccepted(env: Environment, c: Config, req: ConfigRequest)
    ensures EditConfig(env, c, req).Some? <==>
              && ApplyServer(c, req.serverID).Some? && 1 <= |Trim(req.nodeName)| <= 128
              && CredentialFits(env, c, ApplyServer(c, req.serverID).value, req)
              && ServableMappings(env, req)
  {
    ServableAreAccepted(env, req);
    TrimIsTrimmed(req.credential);
    TokenLooks(Trim(req.credential));
  }

  lemma TokenLooks(t: string)
    ensures HasPrefix(t, TOKEN_PREFIX) <==> "1cat1." <= t
  {
  }

  // ----- what is in force after a reload -----

  lemma LoadedPresets(env: Environment, path: string, c: Config, i: nat)
    requires Load(env, path, Save(c)).Some? && |c.presets| > 0
    requires forall k :: 0 <= k < |c.presets| ==> ValidPreset(c.presets[k])
    ensures |Load(env, path, Save(c)).value.presets| == |c.presets|
    ensures i < |c.presets| ==>
              var p, q := c.presets[i], Load(env, path, Save(c)).value.presets[i];
              && q.name == Trim(p.name) && q.localAddr == Trim(p.localAddr) && q.description == Trim(p.description)
              && IsProtocol(q.protocol, p.protocol)
  {
    LoadKeepsPresets(env, path, c);
    forall k | 0 <= k < |c.presets| ensures UsablePreset(CleanPreset(c.presets[k])) {
      assert ValidPreset(c.presets[k]);
    }
    NormalizedAll(CleanPreset, UsablePreset, c.presets);
    if i < |c.presets| {
      ProtocolOf(c.presets[i].protocol);
    }
  }

  lemma TrimmedNames()
    ensures Trim("tcp") == "tcp" && Trim("udp") == "udp"
  {
  }

  /** What is read for a protocol name is the name. */
  lemma ProtocolStays(protocol: string, asked: string)
    requires IsProtocol(protocol, asked)
    ensures forall again: string :: IsProtocol(again, protocol) ==> again == protocol
  {
    TrimmedNames();
    LowerNames();
    NamesDiffer();
  }

  lemma NamesDiffer()
    ensures "tcp" != "udp" && "tcp" != "" && "udp" != ""
  {
    assert "tcp"[0] != "udp"[0];
  }

  /** The mappings of an accepted request are the ones in force after its result was saved and loaded again. */
  lemma EditedMappingsAreLoaded(env: Environment, path: string, c: Config, req: ConfigRequest, i: nat)
    requires EditConfig(env, c, req).Some? && Load(env, path, Save(EditConfig(env, c, req).value)).Some?
    ensures var n := EditConfig(env, c, req).value;
            var d := Load(env, path, Save(n)).value;
            && |d.presets| == |req.mappings|
            && (i < |req.mappings| ==>
                  && IsName(d.presets[i].name, req.mappings[i].name, i)
                  && IsProtocol(d.presets[i].protocol, req.mappings[i].protocol)
                  && d.presets[i].localAddr == Trim(n.presets[i].localAddr))
  {
    var n := EditConfig(env, c, req).value;
    AcceptedPresetsAreValid(env, req);
    EditHasMappings(env, c, req, i);
    LoadedPresets(env, path, n, i);
    if i < |req.mappings| {
      EditedName(env, c, req, i);
      ProtocolStays(n.presets[i].protocol, req.mappings[i].protocol);
    }
  }

  lemma EditedName(env: Environment, c: Config, req: ConfigRequest, i: nat)
    requires EditConfig(env, c, req).Some? && i < |req.mappings|
    ensures |EditConfig(env, c, req).value.presets| == |req.mappings|
    ensures Trim(EditConfig(env, c, req).value.presets[i].name) == EditConfig(env, c, req).value.presets[i].name
  {
    assert Converter(env)(req.mappings[i], i) == Some(RequestedPresets(env, req)[i]);
    MappingNameIsTrimmed(req.mappings[i], i);
  }
}
