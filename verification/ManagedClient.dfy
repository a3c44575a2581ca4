/**
 The client object: its shared fields and the methods that change them, each tied to the step functions of the
 protocol, and the protocol's laws for the real configuration operations.
 */
module ManagedClient {
  import opened Basics
  import opened Text
  import opened ClientConfig
  import opened ManagedEdits
  import E = EditedSettings
  import P = ClientProtocol

  function StoredToken(c: Config): string {
    Trim(c.token)
  }

  function ClientOps(env: Environment): P.Ops {
    P.Ops(
      c => Valid(env, c), Save, (path, c) => Load(env, path, c),
      (c, r) => EditConfig(env, c, r), Entered, (c, r) => EditServers(env, c, r),
      ReplyApplies, WithIssuedToken, SameIdentity, c => Linked(env, c), StoredToken, Trim)
  }

  lemma EditLaw(env: Environment, c: Config, r: ConfigRequest)
    requires EditConfig(env, c, r).Some?
    ensures Linked(env, c) ==> Linked(env, EditConfig(env, c, r).value)
    ensures !Entered(r) ==>
              SameIdentity(EditConfig(env, c, r).value, c) && StoredToken(EditConfig(env, c, r).value) == StoredToken(c)
  {
    if Linked(env, c) {
      EditIsLinked(env, c, r);
    }
    if !Entered(r) {
      EditKeepsIdentity(env, c, r);
    }
  }

  lemma IssueLaw(env: Environment, c: Config, t: string)
    ensures var n := WithIssuedToken(c, Trim(t));
            && Linked(env, n) && SameIdentity(n, c) && StoredToken(n) == Trim(t)
            && P.Settings(n) == P.Settings(c) && n.hostedServers == c.hostedServers
  {
    IssuedTokenIsLinked(env, c, Trim(t));
    TrimIsTrimmed(t);
  }

  lemma ListLaw(env: Environment, c: Config, r: ServerRequest)
    requires EditServers(env, c, r).Some?
    ensures var n := EditServers(env, c, r).value;
            && n == c.(hostedServers := n.hostedServers) && SameIdentity(n, c) && StoredToken(n) == StoredToken(c)
            && (Linked(env, c) ==> Linked(env, n))
  {
    EditServersKeepsRest(env, c, r);
  }

  lemma LoadLaw(env: Environment, path: string, c: Config)
    requires Valid(env, c) && Linked(env, c) && Load(env, path, Save(c)).Some?
    ensures var d := Load(env, path, Save(c)).value;
            Linked(env, d) && (StoredToken(d) != "" ==> SameIdentity(d, c) && StoredToken(d) == StoredToken(c))
  {
    LoadKeepsIdentity(env, path, c);
  }

  /** The real configuration operations satisfy everything the protocol needs of them. */
  lemma ClientOpsAreLawful(env: Environment)
    ensures P.Lawful(ClientOps(env))
  {
    forall a, b, c
      ensures SameIdentity(a, a)
      ensures SameIdentity(a, b) ==> SameIdentity(b, a)
      ensures SameIdentity(a, b) && SameIdentity(b, c) ==> SameIdentity(a, c)
    {
      SameIdentityIsEquivalence(a, b, c);
    }
    EditLaws(env);
    LoadLaws(env);
    IssueLaws(env);
    ListLaws(env);
  }

  lemma EditLaws(env: Environment)
    ensures var ops := ClientOps(env);
            && (forall c, r :: ops.edit(c, r).Some? && ops.linked(c) ==> ops.linked(ops.edit(c, r).value))
            && (forall c, r :: ops.edit(c, r).Some? && !ops.entered(r) ==>
                  ops.same(ops.edit(c, r).value, c) && ops.token(ops.edit(c, r).value) == ops.token(c))
  {
    forall c, r | EditConfig(env, c, r).Some?
      ensures Linked(env, c) ==> Linked(env, EditConfig(env, c, r).value)
      ensures !Entered(r) ==>
                SameIdentity(EditConfig(env, c, r).value, c) && StoredToken(EditConfig(env, c, r).value) == StoredToken(c)
    {
      EditLaw(env, c, r);
    }
  }

  lemma LoadLaws(env: Environment)
    ensures var ops := ClientOps(env);
            forall path, c :: ops.valid(c) && ops.linked(c) && ops.load(path, ops.save(c)).Some? ==>
              var d := ops.load(path, ops.save(c)).value;
              ops.linked(d) && (ops.token(d) != "" ==> ops.same(d, c) && ops.token(d) == ops.token(c))
  {
    forall path, c | Valid(env, c) && Linked(env, c) && Load(env, path, Save(c)).Some?
      ensures var d := Load(env, path, Save(c)).value;
              Linked(env, d) && (StoredToken(d) != "" ==> SameIdentity(d, c) && StoredToken(d) == StoredToken(c))
    {
      LoadLaw(env, path, c);
    }
  }

  lemma IssueLaws(env: Environment)
    ensures var ops := ClientOps(env);
            && (forall c, t :: ops.linked(ops.issue(c, ops.trim(t))) && ops.same(ops.issue(c, ops.trim(t)), c)
                  && ops.token(ops.issue(c, ops.trim(t))) == ops.trim(t)
                  && P.Settings(ops.issue(c, ops.trim(t))) == P.Settings(c)
                  && ops.issue(c, ops.trim(t)).hostedServers == c.hostedServers)
            && (forall a, b :: ops.applies(a, b) ==> ops.same(a, b) && a.token == b.token)
  {
    forall c, t
      ensures var n := WithIssuedToken(c, Trim(t));
              && Linked(env, n) && SameIdentity(n, c) && StoredToken(n) == Trim(t)
              && P.Settings(n) == P.Settings(c) && n.hostedServers == c.hostedServers
    {
      IssueLaw(env, c, t);
    }
  }

  lemma ListLaws(env: Environment)
    ensures var ops := ClientOps(env);
            forall c, r :: ops.editServers(c, r).Some? ==>
              var n := ops.editServers(c, r).value;
              n == c.(hostedServers := n.hostedServers) && ops.same(n, c) && ops.token(n) == ops.token(c)
              && (ops.linked(c) ==> ops.linked(n))
  {
    forall c, r | EditServers(env, c, r).Some?
      ensures var n := EditServers(env, c, r).value;
              && n == c.(hostedServers := n.hostedServers) && SameIdentity(n, c) && StoredToken(n) == StoredToken(c)
              && (Linked(env, c) ==> Linked(env, n))
    {
      ListLaw(env, c, r);
    }
  }

  /** The token of `c`, if it has one, came with, was entered for, or was issued by its server connection and node. */
  ghost predicate TokenHasOrigin(env: Environment, run: seq<P.State>, i: nat, c: Config)
    requires i < |run|
  {
    StoredToken(c) != "" ==>
      exists g: P.Grant ::
        SameIdentity(g.source, c) && g.token == StoredToken(c) && P.HasOrigin(ClientOps(env), run, i + 1, g)
  }

  lemma BackedHasOrigin(env: Environment, run: seq<P.State>, i: nat, c: Config)
    requires P.Execution(ClientOps(env), run) && i < |run| && P.Backed(ClientOps(env), c, run[i].grants)
    ensures TokenHasOrigin(env, run, i, c)
  {
    if StoredToken(c) != "" {
      var ops := ClientOps(env);
      ClientOpsAreLawful(env);
      var g :| g in run[i].grants && P.Backs(ops, g, c);
      P.GrantOrigin(ops, run, i + 1, g);
      assert SameIdentity(g.source, c) && g.token == StoredToken(c);
    }
  }

  /** In every run of the client, the token in use came with, was entered for, or was issued by the server connection
      and node name it is now stored with. */
  lemma StoredTokenHasOrigin(env: Environment, run: seq<P.State>, i: nat)
    requires P.Execution(ClientOps(env), run) && i < |run|
    ensures TokenHasOrigin(env, run, i, run[i].h.cfg)
  {
    ClientOpsAreLawful(env);
    P.TokenProvenance(ClientOps(env), run, i);
    BackedHasOrigin(env, run, i, run[i].h.cfg);
  }

  /** What the client starts with: the configuration loaded from whatever the file holds. */
  lemma StartIsInitial(env: Environment, path: string, record: Config) returns (s: P.State)
    requires Load(env, path, record).Some?
    ensures P.Init(ClientOps(env), s) && s.h.disk == record && s.h.cfg == Load(env, path, record).value
  {
    var c := Load(env, path, record).value;
    LoadIsLinked(env, path, record);
    s := P.State(P.Shared(c, 0, record, false, None, {}, None, None, false), P.Top, P.Free, map[], 0,
                 {P.Grant(c, StoredToken(c))});
  }

  /** In every run the file is the one the client found, or it was saved from a configuration whose token came with, was
      entered for or was issued by the server connection and node name in it. */
  lemma FileHasOrigin(env: Environment, run: seq<P.State>, i: nat)
    requires P.Execution(ClientOps(env), run) && i < |run| && run[i].h.disk != run[0].h.disk
    ensures exists c: Config :: SavedWithOrigin(env, run, i, c)
  {
    ClientOpsAreLawful(env);
    P.FileProvenance(ClientOps(env), run, i);
    var c :| P.SavedFrom(ClientOps(env), run[i].h.disk, c, run[i].grants);
    BackedHasOrigin(env, run, i, c);
    assert SavedWithOrigin(env, run, i, c);
  }

  ghost predicate SavedWithOrigin(env: Environment, run: seq<P.State>, i: nat, c: Config)
    requires i < |run|
  {
    run[i].h.disk == Save(c) && Linked(env, c) && TokenHasOrigin(env, run, i, c)
  }

  /** The fields the locks protect. */
  class Client {
    const ops: P.Ops
    var cfg: Config
    var revision: nat
    var disk: Config
    var restart: bool
    var session: Option<P.Session>
    var cancelled: set<nat>
    var connected: Option<nat>
    var assignments: Option<nat>
    var shutdown: bool

    constructor (env: Environment, cfg: Config)
      ensures ops == ClientOps(env)
      ensures View() == P.Shared(cfg, 0, cfg, false, None, {}, None, None, false)
    {
      ops := ClientOps(env);
      this.cfg, revision, disk, restart, session := cfg, 0, cfg, false, None;
      cancelled, connected, assignments, shutdown := {}, None, None, false;
    }

    ghost function View(): P.Shared
      reads this
    {
      P.Shared(cfg, revision, disk, restart, session, cancelled, connected, assignments, shutdown)
    }

    method DrainRestartSignal()
      modifies this
      ensures View() == P.Drain(old(View())) && !restart
    {
      restart := false;
    }

    method SetSession(s: P.Session)
      modifies this
      ensures View() == P.SetSession(old(View()), s) && session == Some(s)
    {
      session := Some(s);
    }

    method ClearSession(s: P.Session)
      modifies this
      ensures View() == P.ClearSession(old(View()), s)
      ensures session == if old(session).Some? && old(session).value.id == s.id then None else old(session)
    {
      if session.Some? && session.value.id == s.id {
        session := None;
      }
    }

    method SetDisconnected()
      modifies this
      ensures View() == P.SetDisconnected(old(View())) && connected == None
    {
      connected := None;
    }

    method ClearAssignments()
      modifies this
      ensures View() == P.ClearAssignments(old(View())) && assignments == None
    {
      assignments := None;
    }

    method MarkConnected(reported: nat)
      modifies this
      ensures View() == P.MarkConnected(old(View()), reported)
      ensures connected == if reported == revision && old(connected) == None then Some(reported) else old(connected)
    {
      if reported == revision {
        if connected.None? {
          connected := Some(reported);
        }
      }
    }

    method UpdateAssignments(reported: nat)
      modifies this
      ensures View() == P.UpdateAssignments(old(View()), reported)
      ensures assignments == if reported == revision then Some(reported) else old(assignments)
    {
      if reported == revision {
        assignments := Some(reported);
      }
    }

    /** The installed session is cancelled and the retry wait is ended. */
    method RequestReconnect()
      modifies this
      ensures View() == Reconnect(old(View()))
      ensures restart && session == old(session)
      ensures cancelled == if session.Some? then old(cancelled) + {session.value.id} else old(cancelled)
    {
      if session.Some? {
        cancelled := cancelled + {session.value.id};
      }
      restart := true;
    }

    /** A replacement that is refused or not saved changes nothing; one that is saved and then cannot be loaded again
        changes the file alone. */
    method ReplaceConfigLocked(next: Config, saveFails: bool) returns (ok: bool)
      modifies this
      ensures ok <==> Replaceable(ops, old(cfg), next) && !saveFails
      ensures View() == if ok then Replaced(ops, old(View()), next) else NotReplaced(ops, old(View()), next, saveFails)
      ensures ok ==>
                && revision == old(revision) + 1 && restart && connected == None && assignments == None
                && session == old(session) && (session.Some? ==> session.value.id in cancelled)
      ensures var path := if ops.trim(next.configPath) == "" then old(cfg).configPath else next.configPath;
              var w := next.(configPath := path);
              var saved := ops.trim(path) != "" && ops.valid(w) && !saveFails;
              && (ok <==> saved && ops.load(path, ops.save(w)).Some?)
              && (ok ==> ops.load(path, ops.save(w)) == Some(cfg))
              && disk == (if saved then ops.save(w) else old(disk))
      ensures !ok ==>
                && cfg == old(cfg) && revision == old(revision) && session == old(session) && cancelled == old(cancelled)
                && connected == old(connected) && assignments == old(assignments) && restart == old(restart)
    {
      var w := if ops.trim(next.configPath) == "" then next.(configPath := cfg.configPath) else next;
      if ops.trim(w.configPath) == "" || !ops.valid(w) || saveFails {
        return false;
      }
      disk := ops.save(w);
      var loaded := ops.load(w.configPath, disk);
      if loaded.None? {
        return false;
      }
      cfg, revision := loaded.value, revision + 1;
      ClearAssignments();
      SetDisconnected();
      RequestReconnect();
      ok := true;
    }

    /** A reply for another server, node or token changes nothing; any other replaces the stored secrets by its token. */
    method PersistSessionCredential(source: Config, accessToken: string, saveFails: bool) returns (ok: bool)
      modifies this
      ensures var token := ops.trim(accessToken);
              var updated := WithIssuedToken(old(cfg), token);
              View() ==
                if token == "" || !ops.applies(source, old(cfg)) || ops.trim(old(cfg).configPath) == "" || saveFails
                then old(View())
                else P.Store(P.Write(old(View()), ops.save(updated)), updated)
      ensures ok <==> ops.trim(accessToken) != ""
                      && (ops.applies(source, old(cfg)) ==> ops.trim(old(cfg).configPath) != "" && !saveFails)
      ensures ok && ops.applies(source, old(cfg)) ==>
                && cfg == old(cfg).(token := ops.trim(accessToken), bootstrapToken := "", enrollmentPassword := "")
                && disk == ops.save(cfg) && revision == old(revision) && session == old(session)
    {
      var token := ops.trim(accessToken);
      if token == "" {
        return false;
      }
      var updated := cfg;
      if !ops.applies(source, updated) {
        return true;
      }
      updated := updated.(bootstrapToken := "", enrollmentPassword := "", token := token);
      if ops.trim(updated.configPath) == "" || saveFails {
        return false;
      }
      disk := ops.save(updated);
      cfg := updated;
      ok := true;
    }

    /** A settings request against an old revision or without an accepted edit changes nothing; any other one replaces
        the configuration by its edit, if that can be done. */
    method HandleManagementConfig(req: ConfigRequest, saveFails: bool) returns (ok: bool)
      modifies this
      ensures ok <==> && (req.revision.None? || req.revision.value == old(revision))
                      && ops.edit(old(cfg), req).Some?
                      && Replaceable(ops, old(cfg), ops.edit(old(cfg), req).value) && !saveFails
      ensures View() ==
                if ok then Replaced(ops, old(View()), ops.edit(old(cfg), req).value)
                else if (req.revision.None? || req.revision.value == old(revision)) && ops.edit(old(cfg), req).Some?
                then NotReplaced(ops, old(View()), ops.edit(old(cfg), req).value, saveFails)
                else old(View())
    {
      if req.revision.Some? && req.revision.value != revision {
        return false;
      }
      var next := ops.edit(cfg, req);
      if next.None? {
        return false;
      }
      ok := ReplaceConfigLocked(next.value, saveFails);
    }

    /** An edit of the server list stores the edited configuration and keeps the revision and the session. */
    method HandleManagementServers(req: ServerRequest, saveFails: bool) returns (ok: bool)
      modifies this
      ensures ok <==> ops.editServers(old(cfg), req).Some? && old(cfg).configPath != "" && !saveFails
      ensures View() == if ok
                        then Edited(ops, old(View()), req)
                        else old(View())
      ensures ok ==> Some(cfg) == ops.editServers(old(cfg), req) && disk == ops.save(cfg)
                     && revision == old(revision) && session == old(session) && cancelled == old(cancelled)
    {
      var next := ops.editServers(cfg, req);
      if next.None? || cfg.configPath == "" || saveFails {
        return false;
      }
      disk := ops.save(next.value);
      cfg := next.value;
      ok := true;
    }
  }

  function Edited(ops: P.Ops, h: P.Shared, req: ServerRequest): P.Shared {
    match ops.editServers(h.cfg, req)
    case None => h
    case Some(next) => P.Store(P.Write(h, ops.save(next)), next)
  }

  function WithPath(ops: P.Ops, current: Config, next: Config): Config {
    if ops.trim(next.configPath) == "" then next.(configPath := current.configPath) else next
  }

  /** The configuration is accepted. */
  predicate Acceptable(ops: P.Ops, current: Config, next: Config) {
    var w := WithPath(ops, current, next);
    ops.trim(w.configPath) != "" && ops.valid(w)
  }

  /** It is accepted, and what is saved of it can be loaded again. */
  predicate Replaceable(ops: P.Ops, current: Config, next: Config) {
    var w := WithPath(ops, current, next);
    Acceptable(ops, current, next) && ops.load(w.configPath, ops.save(w)).Some?
  }

  /** What a replacement that fails leaves: the new file, once it is saved, and everything else as it was. */
  function NotReplaced(ops: P.Ops, h: P.Shared, next: Config, saveFails: bool): P.Shared {
    if Acceptable(ops, h.cfg, next) && !saveFails then P.Write(h, ops.save(WithPath(ops, h.cfg, next))) else h
  }

  /** The reloaded configuration in force at a new revision, nothing reported, and the old session on its way out. */
  function Replaced(ops: P.Ops, h: P.Shared, next: Config): P.Shared
    requires Replaceable(ops, h.cfg, next)
  {
    var w := WithPath(ops, h.cfg, next);
    var loaded := ops.load(w.configPath, ops.save(w)).value;
    Reconnect(P.SetDisconnected(P.ClearAssignments(P.Commit(P.Write(h, ops.save(w)), loaded))))
  }

  /** The mappings of an accepted request are the ones in force after the replacement, with the names, protocols and
      addresses asked for, and so are its node name and server. */
  lemma AcceptedRequestIsInForce(env: Environment, h: P.Shared, req: ConfigRequest, i: nat)
    requires EditConfig(env, h.cfg, req).Some?
    requires Replaceable(ClientOps(env), h.cfg, EditConfig(env, h.cfg, req).value)
    ensures var next := EditConfig(env, h.cfg, req).value;
            var now := Replaced(ClientOps(env), h, next).cfg;
            && |now.presets| == |req.mappings| == |next.presets|
            && (i < |req.mappings| ==>
                  && E.IsName(now.presets[i].name, req.mappings[i].name, i)
                  && E.IsProtocol(now.presets[i].protocol, req.mappings[i].protocol)
                  && now.presets[i].localAddr == Trim(next.presets[i].localAddr)
                  && E.IsPresetFor(next.presets[i], req.mappings[i], i))
  {
    var next := EditConfig(env, h.cfg, req).value;
    EditKeepsPath(env, h.cfg, req);
    E.EditHasMappings(env, h.cfg, req, i);
    E.EditedMappingsAreLoaded(env, next.configPath, h.cfg, req, i);
  }

  lemma EditKeepsPath(env: Environment, c: Config, req: ConfigRequest)
    requires EditConfig(env, c, req).Some?
    ensures WithPath(ClientOps(env), c, EditConfig(env, c, req).value) == EditConfig(env, c, req).value
  {
  }

  function Reconnect(h: P.Shared): P.Shared {
    P.Signal(match P.CancelOf(h) case None => h case Some(id) => P.Cancel(h, id))
  }

  /** The steps after the commit: clear what was reported, cancel the session, signal the loop. */
  lemma PublishSteps(ops: P.Ops, c: P.State) returns (run: seq<P.State>)
    requires c.section == P.WebClear
    ensures |run| == 6 && run[0] == c
    ensures forall i :: 0 <= i < 5 ==> P.WebStep(ops, run[i], run[i + 1])
    ensures run[5] == c.(section := P.WebDone, h := Reconnect(P.SetDisconnected(P.ClearAssignments(c.h))))
  {
    var d := c.(h := P.ClearAssignments(c.h), section := P.WebState);
    var e := d.(h := P.SetDisconnected(d.h), section := P.WebReadCancel);
    var id := P.CancelOf(e.h);
    var f := e.(section := P.WebCancel(id));
    var g := f.(h := if id.Some? then P.Cancel(f.h, id.value) else f.h, section := P.WebSignal);
    run := [c, d, e, f, g, g.(h := P.Signal(g.h), section := P.WebDone)];
    assert P.WebStep(ops, c, d) && P.WebStep(ops, d, e);
    assert P.WebStep(ops, e, f) && P.WebStep(ops, f, g) && P.WebStep(ops, g, run[5]);
  }

  /** Without interference the protocol's steps of a replacement come to what the method does. */
  lemma ReplaceIsSteps(ops: P.Ops, s: P.State, req: ConfigRequest, w: Config, loaded: Config) returns (run: seq<P.State>)
    requires s.section == P.WebSave(req, w) && ops.load(w.configPath, ops.save(w)) == Some(loaded)
    ensures |run| == 9 && run[0] == s
    ensures forall i :: 0 <= i < 8 ==> P.WebStep(ops, run[i], run[i + 1])
    ensures run[8] == s.(section := P.WebDone, grants := P.WithEntered(ops, s.grants, req, w),
                         h := Reconnect(P.SetDisconnected(P.ClearAssignments(P.Commit(P.Write(s.h, ops.save(w)), loaded)))))
  {
    var a := s.(h := P.Write(s.h, ops.save(w)), section := P.WebLoad(w),
               grants := P.WithEntered(ops, s.grants, req, w));
    var b := a.(section := P.WebCommit(loaded));
    var c := b.(h := P.Commit(b.h, loaded), section := P.WebClear);
    var tail := PublishSteps(ops, c);
    run := [s, a, b] + tail;
    assert P.WebStep(ops, s, a) && P.WebStep(ops, a, b) && P.WebStep(ops, b, c);
    forall i | 0 <= i < 8 ensures P.WebStep(ops, run[i], run[i + 1]) {
      if i >= 3 {
        assert run[i] == tail[i - 3] && run[i + 1] == tail[i - 2];
      }
    }
  }
}
