/**
 The client's hot reconfiguration as a step machine: the run loop, configuration replacement, server-list edits,
 reconnect requests, credential replies and session callbacks race over one update lock, the configuration and its
 revision, the installed session and a one-slot restart channel. Each section under one of the inner locks is one step.
 */
module ClientProtocol {
  import opened Basics
  import opened ClientConfig
  import opened ManagedEdits

  /** The value computations the steps use. */
  datatype Ops = Ops(
    valid: Config -> bool,
    save: Config -> Config,
    load: (string, Config) -> Option<Config>,
    edit: (Config, ConfigRequest) -> Option<Config>,
    entered: ConfigRequest -> bool,
    editServers: (Config, ServerRequest) -> Option<Config>,
    applies: (Config, Config) -> bool,
    issue: (Config, string) -> Config,
    same: (Config, Config) -> bool,
    linked: Config -> bool,
    token: Config -> string,
    trim: string -> string)

  /** What a live session depends on: everything but the secrets and the list of other servers. */
  function Settings(c: Config): Config {
    c.(bootstrapToken := "", token := "", enrollmentPassword := "", hostedServers := [])
  }

  ghost predicate Lawful(ops: Ops) {
    && (forall a :: ops.same(a, a))
    && (forall a, b :: ops.same(a, b) ==> ops.same(b, a))
    && (forall a, b, c :: ops.same(a, b) && ops.same(b, c) ==> ops.same(a, c))
    && (forall c, r :: ops.edit(c, r).Some? && ops.linked(c) ==> ops.linked(ops.edit(c, r).value))
    && (forall c, r :: ops.edit(c, r).Some? && !ops.entered(r) ==>
          ops.same(ops.edit(c, r).value, c) && ops.token(ops.edit(c, r).value) == ops.token(c))
    && (forall path, c :: ops.valid(c) && ops.linked(c) && ops.load(path, ops.save(c)).Some? ==>
          var d := ops.load(path, ops.save(c)).value;
          ops.linked(d) && (ops.token(d) != "" ==> ops.same(d, c) && ops.token(d) == ops.token(c)))
    && (forall c, t :: ops.linked(ops.issue(c, ops.trim(t))) && ops.same(ops.issue(c, ops.trim(t)), c)
          && ops.token(ops.issue(c, ops.trim(t))) == ops.trim(t)
          && Settings(ops.issue(c, ops.trim(t))) == Settings(c)
          && ops.issue(c, ops.trim(t)).hostedServers == c.hostedServers)
    && (forall c, r :: ops.editServers(c, r).Some? ==>
          var n := ops.editServers(c, r).value;
          n == c.(hostedServers := n.hostedServers) && ops.same(n, c) && ops.token(n) == ops.token(c)
          && (ops.linked(c) ==> ops.linked(n)))
    && (forall a, b :: ops.applies(a, b) ==> ops.same(a, b) && a.token == b.token)
  }

  // ----- shared state -----

  datatype Session = Session(id: nat, cfg: Config, revision: nat)

  /** A token and the configuration whose server and node it was entered for or issued by. */
  datatype Grant = Grant(source: Config, token: string)

  /** `connected` and `assignments` carry the revision of the session that reported them. */
  datatype Shared = Shared(
    cfg: Config, revision: nat, disk: Config, restart: bool,
    session: Option<Session>, cancelled: set<nat>,
    connected: Option<nat>, assignments: Option<nat>, shutdown: bool)

  function Signal(h: Shared): Shared { h.(restart := true) }
  function Drain(h: Shared): Shared { h.(restart := false) }
  function Commit(h: Shared, loaded: Config): Shared { h.(cfg := loaded, revision := h.revision + 1) }
  function Store(h: Shared, updated: Config): Shared { h.(cfg := updated) }
  function Write(h: Shared, record: Config): Shared { h.(disk := record) }
  function SetSession(h: Shared, s: Session): Shared { h.(session := Some(s)) }
  function ClearSession(h: Shared, s: Session): Shared {
    if h.session.Some? && h.session.value.id == s.id then h.(session := None) else h
  }
  function Cancel(h: Shared, id: nat): Shared { h.(cancelled := h.cancelled + {id}) }
  function SetDisconnected(h: Shared): Shared { h.(connected := None) }
  function ClearAssignments(h: Shared): Shared { h.(assignments := None) }
  function MarkConnected(h: Shared, revision: nat): Shared {
    if revision == h.revision && h.connected.None? then h.(connected := Some(revision)) else h
  }
  function UpdateAssignments(h: Shared, revision: nat): Shared {
    if revision == h.revision then h.(assignments := Some(revision)) else h
  }
  function CancelOf(h: Shared): Option<nat> {
    match h.session
    case None => None
    case Some(s) => Some(s.id)
  }

  // ----- program counters -----

  datatype Loop =
    | Top | Draining | Reading
    | Checking(cfg: Config, revision: nat)
    | Idling(revision: nat)
    | Waiting(revision: nat)
    | Starting(s: Session)
    | Running(s: Session)
    | Reporting(s: Session, issued: string)
    | Ended(s: Session)
    | Sampling(s: Session, err: bool)
    | Sampled(s: Session, changed: bool)
    | Released(s: Session, changed: bool)
    | Cleared(revision: nat, changed: bool)
    | After(revision: nat, changed: bool)
    | Stopped

  /** The section that holds the update lock, with its locals. */
  datatype Section =
    | Free
    | Install | InstallFresh | InstallSet | InstallDone(stale: bool)
    | PersistRead | PersistSave(updated: Config) | PersistStore(updated: Config) | PersistDone
    | WebCheck(req: ConfigRequest) | WebRead(req: ConfigRequest)
    | WebSave(req: ConfigRequest, next: Config) | WebLoad(next: Config) | WebCommit(loaded: Config)
    | WebClear | WebState | WebReadCancel | WebCancel(id: Option<nat>) | WebSignal | WebDone
    | ServersRead(edit: ServerRequest) | ServersSave(edit: ServerRequest, next: Config)
    | ServersStore(edit: ServerRequest, next: Config) | ServersDone

  /** A reconnect request, which takes no update lock. */
  datatype Requester = ReqClear | ReqState | ReqReadCancel | ReqCancel(id: Option<nat>) | ReqSignal

  datatype State = State(
    h: Shared, loop: Loop, section: Section, requesters: map<nat, Requester>, nextId: nat, grants: set<Grant>)

  // ----- steps -----

  ghost predicate Init(ops: Ops, s: State) {
    && s.loop == Top && s.section == Free && s.requesters == map[] && s.nextId == 0
    && s.h.revision == 0 && !s.h.restart && s.h.session == None && s.h.cancelled == {}
    && s.h.connected == None && s.h.assignments == None && !s.h.shutdown
    && ops.linked(s.h.cfg)
    && s.grants == {Grant(s.h.cfg, ops.token(s.h.cfg))}
  }

  /** The steps of the run loop that are not under the update lock. */
  ghost predicate LoopStep(ops: Ops, s: State, t: State) {
    var h := s.h;
    match s.loop
    case Top => t == s.(loop := if h.shutdown then Stopped else Draining)
    case Draining => t == s.(h := Drain(h), loop := Reading)
    case Reading => t == s.(loop := Checking(h.cfg, h.revision))
    case Checking(cfg, revision) =>
      if ops.valid(cfg) then t == s.(loop := Starting(Session(s.nextId, cfg, revision)), nextId := s.nextId + 1)
      else t == s.(loop := Idling(revision))
    case Idling(revision) => t == s.(h := SetDisconnected(h), loop := Waiting(revision))
    case Waiting(revision) =>
      || (h.shutdown && t == s.(loop := Stopped))
      || (h.restart && t == s.(h := Drain(h), loop := Top))
      || t == s.(loop := Top)
    case Starting(_) => s.section == Free && t == s.(section := Install)
    case Running(x) =>
      || t == s.(h := MarkConnected(h, x.revision))
      || t == s.(h := UpdateAssignments(h, x.revision))
      || (exists issued :: t == s.(loop := Reporting(x, issued), grants := s.grants + {Grant(x.cfg, ops.trim(issued))}))
      || t == s.(loop := Ended(x))
    case Reporting(x, issued) =>
      if ops.trim(issued) == "" then t == s.(loop := Running(x))
      else s.section == Free && t == s.(section := PersistRead)
    case Ended(x) => t == s.(loop := Sampling(x, x.id in h.cancelled || h.shutdown))
    case Sampling(x, err) => t == s.(loop := Sampled(x, err && !h.shutdown))
    case Sampled(x, changed) => t == s.(h := Cancel(h, x.id), loop := Released(x, changed))
    case Released(x, changed) => t == s.(h := ClearSession(h, x), loop := Cleared(x.revision, changed))
    case Cleared(revision, changed) =>
      t == s.(h := if changed || !h.shutdown then SetDisconnected(h) else h, loop := After(revision, changed))
    case After(revision, changed) =>
      t == s.(loop := if h.shutdown then Stopped else if changed then Top else Waiting(revision))
    case Stopped => false
  }

  /** The run loop installs its session, unless the configuration was replaced since it was read. */
  ghost predicate InstallStep(s: State, t: State) {
    && s.loop.Starting?
    && var h, x := s.h, s.loop.s;
    match s.section
    case Install => t == s.(section := if x.revision != h.revision then InstallDone(true) else InstallFresh)
    case InstallFresh => t == s.(h := SetDisconnected(h), section := InstallSet)
    case InstallSet => t == s.(h := SetSession(h, x), section := InstallDone(false))
    case InstallDone(stale) =>
      if stale then t == s.(h := Cancel(h, x.id), section := Free, loop := Top)
      else t == s.(section := Free, loop := Running(x))
    case _ => false
  }

  /** A credential reply is stored, unless it is for another server, node or token. */
  ghost predicate PersistStep(ops: Ops, s: State, t: State) {
    && s.loop.Reporting?
    && var h, x, issued := s.h, s.loop.s, s.loop.issued;
    match s.section
    case PersistRead =>
      if !ops.applies(x.cfg, h.cfg) || ops.trim(h.cfg.configPath) == "" then t == s.(section := PersistDone)
      else t == s.(section := PersistSave(ops.issue(h.cfg, ops.trim(issued))))
    case PersistSave(updated) =>
      || t == s.(section := PersistDone)
      || t == s.(h := Write(h, ops.save(updated)), section := PersistStore(updated))
    case PersistStore(updated) => t == s.(h := Store(h, updated), section := PersistDone)
    case PersistDone => t == s.(section := Free, loop := Running(x))
    case _ => false
  }

  /** A credential entered in a request counts once the configuration it was entered in is saved. */
  function WithEntered(ops: Ops, grants: set<Grant>, req: ConfigRequest, saved: Config): set<Grant> {
    if ops.entered(req) then grants + {Grant(saved, ops.token(saved))} else grants
  }

  /** A settings request replaces the configuration, clears what the old session reported and wakes the loop. */
  ghost predicate WebStep(ops: Ops, s: State, t: State) {
    var h := s.h;
    match s.section
    case WebCheck(req) =>
      t == s.(section := if req.revision.Some? && req.revision.value != h.revision then WebDone else WebRead(req))
    case WebRead(req) =>
      var next := ops.edit(h.cfg, req);
      if next.Some? && ops.valid(next.value) && ops.trim(next.value.configPath) != ""
      then t == s.(section := WebSave(req, next.value)) else t == s.(section := WebDone)
    case WebSave(req, next) =>
      || t == s.(section := WebDone)
      || t == s.(h := Write(h, ops.save(next)), section := WebLoad(next), grants := WithEntered(ops, s.grants, req, next))
    case WebLoad(next) =>
      || t == s.(section := WebDone)
      || (var loaded := ops.load(next.configPath, h.disk);
          loaded.Some? && t == s.(section := WebCommit(loaded.value)))
    case WebCommit(loaded) => t == s.(h := Commit(h, loaded), section := WebClear)
    case WebClear => t == s.(h := ClearAssignments(h), section := WebState)
    case WebState => t == s.(h := SetDisconnected(h), section := WebReadCancel)
    case WebReadCancel => t == s.(section := WebCancel(CancelOf(h)))
    case WebCancel(id) => t == s.(h := if id.Some? then Cancel(h, id.value) else h, section := WebSignal)
    case WebSignal => t == s.(h := Signal(h), section := WebDone)
    case WebDone => t == s.(section := Free)
    case _ => false
  }

  /** An edit of the server list stores a new configuration without a new revision. */
  ghost predicate ServersStep(ops: Ops, s: State, t: State) {
    var h := s.h;
    match s.section
    case ServersRead(edit) =>
      var next := ops.editServers(h.cfg, edit);
      if next.None? || h.cfg.configPath == "" then t == s.(section := ServersDone)
      else t == s.(section := ServersSave(edit, next.value))
    case ServersSave(edit, next) =>
      || t == s.(section := ServersDone)
      || t == s.(h := Write(h, ops.save(next)), section := ServersStore(edit, next))
    case ServersStore(_, next) => t == s.(h := Store(h, next), section := ServersDone)
    case ServersDone => t == s.(section := Free)
    case _ => false
  }

  ghost predicate LockStep(s: State, t: State) {
    && s.section == Free
    && (|| (exists req :: t == s.(section := WebCheck(req)))
        || (exists edit :: t == s.(section := ServersRead(edit))))
  }

  ghost predicate RequestStep(s: State, t: State, k: nat) {
    var h := s.h;
    if k !in s.requesters then t == s.(requesters := s.requesters[k := ReqClear])
    else
      match s.requesters[k]
      case ReqClear => t == s.(h := ClearAssignments(h), requesters := s.requesters[k := ReqState])
      case ReqState => t == s.(h := SetDisconnected(h), requesters := s.requesters[k := ReqReadCancel])
      case ReqReadCancel => t == s.(requesters := s.requesters[k := ReqCancel(CancelOf(h))])
      case ReqCancel(id) =>
        t == s.(h := if id.Some? then Cancel(h, id.value) else h, requesters := s.requesters[k := ReqSignal])
      case ReqSignal => t == s.(h := Signal(h), requesters := s.requesters - {k})
  }

  ghost predicate Next(ops: Ops, s: State, t: State) {
    || (LoopStep(ops, s, t) && !InSection(s))
    || InstallStep(s, t)
    || PersistStep(ops, s, t)
    || WebStep(ops, s, t)
    || ServersStep(ops, s, t)
    || LockStep(s, t)
    || (exists k :: RequestStep(s, t, k))
    || t == s.(h := s.h.(shutdown := true))
  }

  /** The loop's own thread is inside a section, so it takes no other step. */
  predicate InSection(s: State) {
    || s.section in {Install, InstallFresh, InstallSet, PersistRead, PersistDone}
    || s.section.InstallDone? || s.section.PersistSave? || s.section.PersistStore?
  }

  // ----- invariants -----

  /** After the commit of a new configuration and before its wake-up signal. */
  predicate Committing(section: Section) {
    section in {WebClear, WebState, WebReadCancel, WebSignal} || section.WebCancel?
  }

  /** The revision of the configuration the loop works with or waits on. */
  function ReadRevision(loop: Loop): Option<nat> {
    match loop
    case Checking(_, r) => Some(r)
    case Idling(r) => Some(r)
    case Waiting(r) => Some(r)
    case Starting(x) => Some(x.revision)
    case Running(x) => Some(x.revision)
    case Reporting(x, _) => Some(x.revision)
    case Ended(x) => Some(x.revision)
    case Sampling(x, _) => Some(x.revision)
    case Sampled(x, _) => Some(x.revision)
    case Released(x, _) => Some(x.revision)
    case Cleared(r, _) => Some(r)
    case After(r, _) => Some(r)
    case _ => None
  }

  function ReadConfig(loop: Loop): Option<Config> {
    match loop
    case Checking(c, _) => Some(c)
    case Starting(x) => Some(x.cfg)
    case Running(x) => Some(x.cfg)
    case Reporting(x, _) => Some(x.cfg)
    case _ => None
  }

  predicate NoLostWakeup(s: State) {
    ReadRevision(s.loop).Some? ==>
      Committing(s.section) || ReadRevision(s.loop).value == s.h.revision || s.h.restart
  }

  predicate Discipline(s: State) {
    && (s.section in {Install, InstallFresh, InstallSet} || s.section.InstallDone? ==> s.loop.Starting?)
    && (s.section in {InstallFresh, InstallSet} ==> s.loop.Starting? && s.loop.s.revision == s.h.revision)
    && (s.section in {PersistRead, PersistDone} || s.section.PersistSave? || s.section.PersistStore? ==>
        s.loop.Reporting?)
    && (s.section == InstallDone(false) ==> s.loop.Starting? && s.loop.s.revision == s.h.revision)
  }

  predicate SessionIsFresh(s: State) {
    s.h.session.Some? ==>
      var x := s.h.session.value;
      || x.id in s.h.cancelled
      || x.revision == s.h.revision
      || s.section in {WebClear, WebState, WebReadCancel} || s.section == WebCancel(Some(x.id))
  }

  predicate StatusIsFresh(s: State) {
    && (s.h.connected.Some? ==> s.h.connected.value == s.h.revision || s.section in {WebClear, WebState})
    && (s.h.assignments.Some? ==> s.h.assignments.value == s.h.revision || s.section == WebClear)
  }

  predicate LoopSettings(s: State) {
    ReadRevision(s.loop).Some? ==>
      && ReadRevision(s.loop).value <= s.h.revision
      && (ReadConfig(s.loop).Some? && ReadRevision(s.loop).value == s.h.revision ==>
            Settings(ReadConfig(s.loop).value) == Settings(s.h.cfg))
  }

  predicate SessionSettings(s: State) {
    s.h.session.Some? ==>
      && s.h.session.value.revision <= s.h.revision
      && (s.h.session.value.revision == s.h.revision ==> Settings(s.h.session.value.cfg) == Settings(s.h.cfg))
  }

  /** A configuration read at the current revision has the current settings. */
  predicate SettingsAreCurrent(s: State) {
    LoopSettings(s) && SessionSettings(s)
  }

  /** What a section read under the lock is still current when it stores its result. */
  ghost predicate SnapshotsAreCurrent(ops: Ops, s: State) {
    match s.section
    case PersistSave(updated) =>
      s.loop.Reporting? && updated == ops.issue(s.h.cfg, ops.trim(s.loop.issued)) && ops.applies(s.loop.s.cfg, s.h.cfg)
    case PersistStore(updated) =>
      s.loop.Reporting? && updated == ops.issue(s.h.cfg, ops.trim(s.loop.issued)) && ops.applies(s.loop.s.cfg, s.h.cfg)
    case ServersSave(edit, next) => ops.editServers(s.h.cfg, edit) == Some(next)
    case ServersStore(edit, next) => ops.editServers(s.h.cfg, edit) == Some(next)
    case WebSave(req, next) => ops.edit(s.h.cfg, req) == Some(next) && ops.valid(next)
    case WebLoad(next) => s.h.disk == ops.save(next) && ops.valid(next)
    case _ => true
  }

  predicate Backs(ops: Ops, g: Grant, c: Config) {
    ops.same(g.source, c) && g.token == ops.token(c)
  }

  ghost predicate Backed(ops: Ops, c: Config, grants: set<Grant>) {
    ops.token(c) == "" || exists g :: g in grants && Backs(ops, g, c)
  }

  /** The token stored, or about to be stored, belongs to the server and node stored with it. */
  ghost predicate Provenance(ops: Ops, s: State) {
    && ops.linked(s.h.cfg) && Backed(ops, s.h.cfg, s.grants)
    && (s.section.WebSave? || s.section.WebLoad? ==> ops.linked(s.section.next))
    && (s.section.WebLoad? || (s.section.WebSave? && !ops.entered(s.section.req)) ==>
          Backed(ops, s.section.next, s.grants))
    && (s.section.WebCommit? ==> ops.linked(s.section.loaded) && Backed(ops, s.section.loaded, s.grants))
    && (s.loop.Reporting? ==> Grant(s.loop.s.cfg, ops.trim(s.loop.issued)) in s.grants)
  }

  // ----- every step keeps the invariants -----

  /** The invariants about control: who may be where, and what is fresh. */
  predicate Control(s: State) {
    Discipline(s) && NoLostWakeup(s) && SessionIsFresh(s) && StatusIsFresh(s)
  }

  lemma LoopKeepsWakeup(ops: Ops, s: State, t: State)
    requires Control(s) && LoopStep(ops, s, t) && !InSection(s)
    ensures NoLostWakeup(t)
  {
  }

  lemma LoopKeepsFreshness(ops: Ops, s: State, t: State)
    requires Control(s) && LoopStep(ops, s, t) && !InSection(s)
    ensures SessionIsFresh(t)
  {
  }

  lemma LoopKeepsStatus(ops: Ops, s: State, t: State)
    requires StatusIsFresh(s) && LoopStep(ops, s, t) && !InSection(s)
    ensures StatusIsFresh(t)
  {
  }

  lemma LoopKeepsDiscipline(ops: Ops, s: State, t: State)
    requires Discipline(s) && LoopStep(ops, s, t) && !InSection(s)
    ensures Discipline(t)
  {
  }

  lemma InstallKeepsControl(s: State, t: State)
    requires Control(s) && InstallStep(s, t)
    ensures Control(t)
  {
  }

  lemma LockKeepsControl(s: State, t: State)
    requires Control(s) && LockStep(s, t)
    ensures Control(t)
  {
  }

  lemma PersistKeepsControl(ops: Ops, s: State, t: State)
    requires Control(s) && PersistStep(ops, s, t)
    ensures Control(t)
  {
  }

  lemma ServersKeepsControl(ops: Ops, s: State, t: State)
    requires Control(s) && ServersStep(ops, s, t)
    ensures Control(t)
  {
  }

  lemma WebKeepsControl(ops: Ops, s: State, t: State)
    requires Control(s) && WebStep(ops, s, t)
    ensures Control(t)
  {
  }

  lemma RequestKeepsControl(s: State, t: State, k: nat)
    requires Control(s) && RequestStep(s, t, k)
    ensures Control(t)
  {
  }

  /** The invariants about the data the sections read and store. */
  ghost predicate Data(ops: Ops, s: State) {
    SettingsAreCurrent(s) && SnapshotsAreCurrent(ops, s) && Provenance(ops, s)
  }

  lemma LoopKeepsLoopSettings(ops: Ops, s: State, t: State)
    requires SettingsAreCurrent(s) && LoopStep(ops, s, t) && !InSection(s)
    ensures LoopSettings(t)
  {
  }

  lemma LoopKeepsSessionSettings(ops: Ops, s: State, t: State)
    requires SettingsAreCurrent(s) && LoopStep(ops, s, t) && !InSection(s)
    ensures SessionSettings(t)
  {
  }

  lemma LoopKeepsSnapshots(ops: Ops, s: State, t: State)
    requires SnapshotsAreCurrent(ops, s) && LoopStep(ops, s, t) && !InSection(s)
    ensures SnapshotsAreCurrent(ops, t)
  {
  }

  lemma LoopKeepsProvenance(ops: Ops, s: State, t: State)
    requires Discipline(s) && Provenance(ops, s) && LoopStep(ops, s, t) && !InSection(s)
    ensures Provenance(ops, t)
  {
  }

  lemma InstallKeepsSettings(ops: Ops, s: State, t: State)
    requires Discipline(s) && SettingsAreCurrent(s) && (InstallStep(s, t) || LockStep(s, t))
    ensures SettingsAreCurrent(t)
  {
  }

  lemma InstallKeepsSnapshots(ops: Ops, s: State, t: State)
    requires SnapshotsAreCurrent(ops, s) && (InstallStep(s, t) || LockStep(s, t))
    ensures SnapshotsAreCurrent(ops, t)
  {
  }

  lemma InstallKeepsProvenance(ops: Ops, s: State, t: State)
    requires Lawful(ops) && SnapshotsAreCurrent(ops, s) && Provenance(ops, s) && (InstallStep(s, t) || LockStep(s, t))
    ensures Provenance(ops, t)
  {
  }

  lemma InstallKeepsData(ops: Ops, s: State, t: State)
    requires Lawful(ops) && Discipline(s) && Data(ops, s) && (InstallStep(s, t) || LockStep(s, t))
    ensures Data(ops, t)
  {
    InstallKeepsSettings(ops, s, t);
    InstallKeepsSnapshots(ops, s, t);
    InstallKeepsProvenance(ops, s, t);
  }

  lemma PersistKeepsData(ops: Ops, s: State, t: State)
    requires Lawful(ops) && Discipline(s) && Data(ops, s) && PersistStep(ops, s, t)
    ensures Data(ops, t)
  {
  }

  lemma WebKeepsSettings(ops: Ops, s: State, t: State)
    requires Discipline(s) && SettingsAreCurrent(s) && WebStep(ops, s, t)
    ensures SettingsAreCurrent(t)
  {
  }

  lemma WebKeepsSnapshots(ops: Ops, s: State, t: State)
    requires SnapshotsAreCurrent(ops, s) && WebStep(ops, s, t)
    ensures SnapshotsAreCurrent(ops, t)
  {
  }

  lemma WebKeepsProvenance(ops: Ops, s: State, t: State)
    requires Lawful(ops) && SnapshotsAreCurrent(ops, s) && Provenance(ops, s) && WebStep(ops, s, t)
    ensures Provenance(ops, t)
  {
  }

  lemma WebKeepsData(ops: Ops, s: State, t: State)
    requires Lawful(ops) && Discipline(s) && Data(ops, s) && WebStep(ops, s, t)
    ensures Data(ops, t)
  {
    WebKeepsSettings(ops, s, t);
    WebKeepsSnapshots(ops, s, t);
    WebKeepsProvenance(ops, s, t);
  }

  lemma ServersKeepsData(ops: Ops, s: State, t: State)
    requires Lawful(ops) && Discipline(s) && Data(ops, s) && ServersStep(ops, s, t)
    ensures Data(ops, t)
  {
  }

  lemma RequestKeepsData(ops: Ops, s: State, t: State, k: nat)
    requires Data(ops, s) && RequestStep(s, t, k)
    ensures Data(ops, t)
  {
  }

  ghost predicate Invariant(ops: Ops, s: State) {
    Control(s) && Data(ops, s)
  }

  lemma InitHolds(ops: Ops, s: State)
    requires Lawful(ops) && Init(ops, s)
    ensures Invariant(ops, s)
  {
    assert Grant(s.h.cfg, ops.token(s.h.cfg)) in s.grants;
  }

  lemma LoopKeeps(ops: Ops, s: State, t: State)
    requires Invariant(ops, s) && LoopStep(ops, s, t) && !InSection(s)
    ensures Invariant(ops, t)
  {
    LoopKeepsWakeup(ops, s, t);
    LoopKeepsFreshness(ops, s, t);
    LoopKeepsStatus(ops, s, t);
    LoopKeepsDiscipline(ops, s, t);
    LoopKeepsLoopSettings(ops, s, t);
    LoopKeepsSessionSettings(ops, s, t);
    LoopKeepsSnapshots(ops, s, t);
    LoopKeepsProvenance(ops, s, t);
  }

  lemma ShutdownKeeps(ops: Ops, s: State)
    requires Invariant(ops, s)
    ensures Invariant(ops, s.(h := s.h.(shutdown := true)))
  {
  }

  lemma NextKeeps(ops: Ops, s: State, t: State)
    requires Lawful(ops) && Invariant(ops, s) && Next(ops, s, t)
    ensures Invariant(ops, t)
  {
    if LoopStep(ops, s, t) && !InSection(s) {
      LoopKeeps(ops, s, t);
    } else if InstallStep(s, t) {
      InstallKeepsControl(s, t);
      InstallKeepsData(ops, s, t);
    } else if LockStep(s, t) {
      LockKeepsControl(s, t);
      InstallKeepsData(ops, s, t);
    } else if PersistStep(ops, s, t) {
      PersistKeepsControl(ops, s, t);
      PersistKeepsData(ops, s, t);
    } else if WebStep(ops, s, t) {
      WebKeepsControl(ops, s, t);
      WebKeepsData(ops, s, t);
    } else if ServersStep(ops, s, t) {
      ServersKeepsControl(ops, s, t);
      ServersKeepsData(ops, s, t);
    } else if k :| RequestStep(s, t, k) {
      RequestKeepsControl(s, t, k);
      RequestKeepsData(ops, s, t, k);
    } else {
      ShutdownKeeps(ops, s);
    }
  }

  // ----- runs -----

  ghost predicate Execution(ops: Ops, run: seq<State>) {
    && |run| > 0 && Init(ops, run[0])
    && forall i :: 0 <= i < |run| - 1 ==> Next(ops, run[i], run[i + 1])
  }

  lemma {:induction false} Reachable(ops: Ops, run: seq<State>, i: nat)
    requires Lawful(ops) && Execution(ops, run) && i < |run|
    ensures Invariant(ops, run[i])
  {
    if i == 0 {
      InitHolds(ops, run[0]);
    } else {
      Reachable(ops, run, i - 1);
      NextKeeps(ops, run[i - 1], run[i]);
    }
  }

  /** No wake-up is lost: with the update lock free, a loop that waits on an old revision has a signal waiting for it. */
  lemma WaitingLoopIsWoken(ops: Ops, run: seq<State>, i: nat)
    requires Lawful(ops) && Execution(ops, run) && i < |run|
    requires run[i].section == Free && run[i].loop.Waiting?
    ensures run[i].loop.revision == run[i].h.revision || run[i].h.restart
  {
    Reachable(ops, run, i);
  }

  /** With the update lock free, a live session has the current revision and works with the current settings. */
  lemma LiveSessionIsCurrent(ops: Ops, run: seq<State>, i: nat)
    requires Lawful(ops) && Execution(ops, run) && i < |run|
    requires run[i].section == Free && run[i].h.session.Some? && run[i].h.session.value.id !in run[i].h.cancelled
    ensures run[i].h.session.value.revision == run[i].h.revision
    ensures Settings(run[i].h.session.value.cfg) == Settings(run[i].h.cfg)
  {
    Reachable(ops, run, i);
  }

  /** With the update lock free, what is shown as connected or assigned was reported at the current revision. */
  lemma StatusIsCurrent(ops: Ops, run: seq<State>, i: nat)
    requires Lawful(ops) && Execution(ops, run) && i < |run|
    requires run[i].section == Free
    ensures run[i].h.connected.Some? ==> run[i].h.connected.value == run[i].h.revision
    ensures run[i].h.assignments.Some? ==> run[i].h.assignments.value == run[i].h.revision
  {
    Reachable(ops, run, i);
  }

  lemma InvariantBacks(ops: Ops, s: State)
    requires Invariant(ops, s)
    ensures Backed(ops, s.h.cfg, s.grants)
  {
    assert Data(ops, s) && Provenance(ops, s);
  }

  /** The token in use was entered for, or issued by, the server connection and node name it is stored with. */
  lemma TokenProvenance(ops: Ops, run: seq<State>, i: nat)
    requires Lawful(ops) && Execution(ops, run) && i < |run|
    ensures Backed(ops, run[i].h.cfg, run[i].grants)
  {
    Reachable(ops, run, i);
    InvariantBacks(ops, run[i]);
  }

  /** How a grant comes about: a credential entered in a settings request whose result is accepted and saved, or one
      issued to a running session. */
  ghost predicate GrantedBy(ops: Ops, s: State, t: State, g: Grant) {
    || (s.section.WebSave? && ops.entered(s.section.req) && ops.edit(s.h.cfg, s.section.req) == Some(g.source)
        && ops.valid(g.source) && t.h.disk == ops.save(g.source) && g.token == ops.token(g.source))
    || (s.loop.Running? && t.loop.Reporting? && t.loop.s == s.loop.s
        && g == Grant(s.loop.s.cfg, ops.trim(t.loop.issued)))
  }

  lemma IssuedGrant(ops: Ops, s: State, t: State, g: Grant)
    requires LoopStep(ops, s, t) && g in t.grants && g !in s.grants
    ensures GrantedBy(ops, s, t, g)
  {
  }

  lemma EnteredGrant(ops: Ops, s: State, t: State, g: Grant)
    requires SnapshotsAreCurrent(ops, s) && WebStep(ops, s, t) && g in t.grants && g !in s.grants
    ensures GrantedBy(ops, s, t, g)
  {
  }

  lemma NoOtherGrant(ops: Ops, s: State, t: State)
    requires Next(ops, s, t) && !LoopStep(ops, s, t) && !WebStep(ops, s, t)
    ensures t.grants == s.grants
  {
  }

  lemma NewGrant(ops: Ops, s: State, t: State, g: Grant)
    requires SnapshotsAreCurrent(ops, s) && Next(ops, s, t) && g in t.grants && g !in s.grants
    ensures GrantedBy(ops, s, t, g)
  {
    if LoopStep(ops, s, t) {
      IssuedGrant(ops, s, t, g);
    } else if WebStep(ops, s, t) {
      EnteredGrant(ops, s, t, g);
    } else {
      NoOtherGrant(ops, s, t);
    }
  }

  ghost predicate GrantedAt(ops: Ops, run: seq<State>, j: nat, g: Grant)
    requires j + 1 < |run|
  {
    GrantedBy(ops, run[j], run[j + 1], g)
  }

  ghost predicate HasOrigin(ops: Ops, run: seq<State>, i: nat, g: Grant)
    requires 0 < i <= |run|
  {
    || g == Grant(run[0].h.cfg, ops.token(run[0].h.cfg))
    || exists j: nat :: j + 1 < i && GrantedAt(ops, run, j, g)
  }

  /** Every grant is the initial one, was entered in a settings request whose result was accepted and saved, or was
      issued to a running session. */
  lemma {:induction false} GrantOrigin(ops: Ops, run: seq<State>, i: nat, g: Grant)
    requires 0 < i <= |run| && Lawful(ops) && Execution(ops, run) && g in run[i - 1].grants
    ensures HasOrigin(ops, run, i, g)
  {
    if i > 1 {
      if g in run[i - 2].grants {
        GrantOrigin(ops, run, i - 1, g);
        if j: nat :| j + 1 < i - 1 && GrantedAt(ops, run, j, g) {
          assert GrantedAt(ops, run, j, g);
        }
      } else {
        Reachable(ops, run, i - 2);
        assert Next(ops, run[i - 2], run[i - 1]);
        NewGrant(ops, run[i - 2], run[i - 1], g);
        assert GrantedAt(ops, run, i - 2, g);
      }
    }
  }

  // ----- what the file holds -----

  /** The file is what saving a configuration gives whose token belongs to its server and node. */
  ghost predicate FileBacked(ops: Ops, disk: Config, grants: set<Grant>) {
    exists c :: SavedFrom(ops, disk, c, grants)
  }

  ghost predicate SavedFrom(ops: Ops, disk: Config, c: Config, grants: set<Grant>) {
    disk == ops.save(c) && ops.linked(c) && Backed(ops, c, grants)
  }

  /** The file is written by three sections only. */
  predicate WritesFile(section: Section) {
    section.WebSave? || section.ServersSave? || section.PersistSave?
  }

  lemma LoopKeepsFile(ops: Ops, s: State, t: State)
    requires LoopStep(ops, s, t)
    ensures t.h.disk == s.h.disk
  {
  }

  lemma SectionKeepsFile(ops: Ops, s: State, t: State)
    requires InstallStep(s, t) || PersistStep(ops, s, t) || WebStep(ops, s, t) || ServersStep(ops, s, t) || LockStep(s, t)
    requires t.h.disk != s.h.disk
    ensures WritesFile(s.section)
    ensures s.section.WebSave? ==>
              t.h.disk == ops.save(s.section.next)
              && t.grants == WithEntered(ops, s.grants, s.section.req, s.section.next)
    ensures !s.section.WebSave? ==> t.grants == s.grants
    ensures s.section.ServersSave? ==> t.h.disk == ops.save(s.section.next)
    ensures s.section.PersistSave? ==> t.h.disk == ops.save(s.section.updated)
  {
  }

  lemma RequestKeepsFile(s: State, t: State, k: nat)
    requires RequestStep(s, t, k)
    ensures t.h.disk == s.h.disk
  {
  }

  lemma FileIsWrittenBySections(ops: Ops, s: State, t: State)
    requires Next(ops, s, t) && t.h.disk != s.h.disk
    ensures InstallStep(s, t) || PersistStep(ops, s, t) || WebStep(ops, s, t) || ServersStep(ops, s, t) || LockStep(s, t)
  {
    if LoopStep(ops, s, t) && !InSection(s) {
      LoopKeepsFile(ops, s, t);
    } else if k :| RequestStep(s, t, k) {
      RequestKeepsFile(s, t, k);
    }
  }

  /** A list edit keeps a configuration's token with its server and node. */
  lemma EditedIsBacked(ops: Ops, s: State)
    requires Lawful(ops) && Invariant(ops, s) && s.section.ServersSave?
    ensures ops.linked(s.section.next) && Backed(ops, s.section.next, s.grants)
  {
    var c, n := s.h.cfg, s.section.next;
    assert ops.editServers(c, s.section.edit) == Some(n);
    if ops.token(n) != "" {
      InvariantBacks(ops, s);
      var g :| g in s.grants && Backs(ops, g, c);
      assert Backs(ops, g, n);
    }
  }

  lemma IssuedIsBacked(ops: Ops, s: State)
    requires Lawful(ops) && Invariant(ops, s) && s.section.PersistSave?
    ensures ops.linked(s.section.updated) && Backed(ops, s.section.updated, s.grants)
  {
    assert Discipline(s) && SnapshotsAreCurrent(ops, s) && Provenance(ops, s);
    var g := Grant(s.loop.s.cfg, ops.trim(s.loop.issued));
    assert g in s.grants && Backs(ops, g, s.section.updated);
  }

  /** An edited configuration is backed by its entered credential, or by what backed the one before. */
  lemma RequestedIsBacked(ops: Ops, s: State)
    requires Lawful(ops) && Invariant(ops, s) && s.section.WebSave?
    ensures var req, next := s.section.req, s.section.next;
            ops.linked(next) && Backed(ops, next, WithEntered(ops, s.grants, req, next))
  {
    var next := s.section.next;
    assert Provenance(ops, s);
    if ops.entered(s.section.req) {
      var g := Grant(next, ops.token(next));
      assert g in WithEntered(ops, s.grants, s.section.req, next) && Backs(ops, g, next);
    }
  }

  lemma WrittenIsBacked(ops: Ops, s: State)
    requires Lawful(ops) && Invariant(ops, s) && WritesFile(s.section)
    ensures s.section.WebSave? ==>
              ops.linked(s.section.next)
              && Backed(ops, s.section.next, WithEntered(ops, s.grants, s.section.req, s.section.next))
    ensures s.section.ServersSave? ==> ops.linked(s.section.next) && Backed(ops, s.section.next, s.grants)
    ensures s.section.PersistSave? ==> ops.linked(s.section.updated) && Backed(ops, s.section.updated, s.grants)
  {
    if s.section.ServersSave? {
      EditedIsBacked(ops, s);
    } else if s.section.PersistSave? {
      IssuedIsBacked(ops, s);
    } else {
      RequestedIsBacked(ops, s);
    }
  }

  lemma FileStep(ops: Ops, s: State, t: State)
    requires Lawful(ops) && Invariant(ops, s) && Next(ops, s, t) && t.h.disk != s.h.disk
    ensures FileBacked(ops, t.h.disk, t.grants)
  {
    FileIsWrittenBySections(ops, s, t);
    SectionKeepsFile(ops, s, t);
    WrittenIsBacked(ops, s);
    var c := if s.section.PersistSave? then s.section.updated else s.section.next;
    assert SavedFrom(ops, t.h.disk, c, t.grants);
  }

  lemma GrantsGrow(ops: Ops, s: State, t: State)
    requires Next(ops, s, t)
    ensures s.grants <= t.grants
  {
  }

  lemma StillBacked(ops: Ops, disk: Config, a: set<Grant>, b: set<Grant>)
    requires FileBacked(ops, disk, a) && a <= b
    ensures FileBacked(ops, disk, b)
  {
    var c :| SavedFrom(ops, disk, c, a);
    if ops.token(c) != "" {
      var g :| g in a && Backs(ops, g, c);
      assert g in b && Backs(ops, g, c);
    }
    assert SavedFrom(ops, disk, c, b);
  }

  /** Whenever the client stops or fails, the file it leaves is the one it found, or the saved form of a configuration whose
      token was entered for, or issued by, the server connection and node name saved with it. */
  lemma {:induction false} FileProvenance(ops: Ops, run: seq<State>, i: nat)
    requires Lawful(ops) && Execution(ops, run) && i < |run|
    ensures run[i].h.disk == run[0].h.disk || FileBacked(ops, run[i].h.disk, run[i].grants)
  {
    if i > 0 {
      FileProvenance(ops, run, i - 1);
      Reachable(ops, run, i - 1);
      assert Next(ops, run[i - 1], run[i]);
      GrantsGrow(ops, run[i - 1], run[i]);
      if run[i].h.disk != run[i - 1].h.disk {
        FileStep(ops, run[i - 1], run[i]);
      } else if run[i].h.disk != run[0].h.disk {
        StillBacked(ops, run[i].h.disk, run[i - 1].grants, run[i].grants);
      }
    }
  }

  // ----- what changes the configuration -----

  /** The configuration is written by three sections only. */
  predicate WritesConfig(section: Section) {
    section.WebCommit? || section.ServersStore? || section.PersistStore?
  }

  lemma LoopKeepsConfig(ops: Ops, s: State, t: State)
    requires LoopStep(ops, s, t)
    ensures t.h.cfg == s.h.cfg
  {
  }

  lemma SectionKeepsConfig(ops: Ops, s: State, t: State)
    requires InstallStep(s, t) || PersistStep(ops, s, t) || WebStep(ops, s, t) || ServersStep(ops, s, t) || LockStep(s, t)
    requires !WritesConfig(s.section)
    ensures t.h.cfg == s.h.cfg
  {
  }

  lemma RequestKeepsConfig(s: State, t: State, k: nat)
    requires RequestStep(s, t, k)
    ensures t.h.cfg == s.h.cfg
  {
  }

  lemma ConfigIsWrittenBySections(ops: Ops, s: State, t: State)
    requires Next(ops, s, t) && t.h.cfg != s.h.cfg
    ensures WritesConfig(s.section)
  {
    if LoopStep(ops, s, t) && !InSection(s) {
      LoopKeepsConfig(ops, s, t);
    } else if k :| RequestStep(s, t, k) {
      RequestKeepsConfig(s, t, k);
    } else if !WritesConfig(s.section) {
      SectionKeepsConfig(ops, s, t);
    }
  }

  /** A section that holds the lock is the only one to write the configuration. */
  lemma StoredConfig(ops: Ops, s: State, t: State)
    requires Next(ops, s, t) && t.h.cfg != s.h.cfg
    ensures s.section.PersistStore? ==> t.h.cfg == s.section.updated
    ensures s.section.ServersStore? ==> t.h.cfg == s.section.next
  {
    if LoopStep(ops, s, t) && !InSection(s) {
      LoopKeepsConfig(ops, s, t);
    } else if k :| RequestStep(s, t, k) {
      RequestKeepsConfig(s, t, k);
    }
  }

  /** A credential reply replaces exactly the token its session was started with, and no setting, however late it is. */
  lemma ReplyKeepsEdits(ops: Ops, run: seq<State>, i: nat)
    requires Lawful(ops) && Execution(ops, run) && i + 1 < |run|
    requires run[i].section.PersistStore? && run[i + 1].h.cfg != run[i].h.cfg
    ensures var before, after := run[i].h.cfg, run[i + 1].h.cfg;
            && run[i].loop.Reporting?
            && ops.applies(run[i].loop.s.cfg, before)
            && after == ops.issue(before, ops.trim(run[i].loop.issued))
            && Settings(after) == Settings(before) && after.hostedServers == before.hostedServers
  {
    Reachable(ops, run, i);
    StoredConfig(ops, run[i], run[i + 1]);
    IssueKeepsSettings(ops, run[i].h.cfg, run[i].loop.issued);
  }

  lemma IssueKeepsSettings(ops: Ops, c: Config, issued: string)
    requires Lawful(ops)
    ensures var n := ops.issue(c, ops.trim(issued));
            Settings(n) == Settings(c) && n.hostedServers == c.hostedServers
  {
  }

  lemma ListEditKeepsSettings(ops: Ops, c: Config, edit: ServerRequest)
    requires Lawful(ops) && ops.editServers(c, edit).Some?
    ensures Settings(ops.editServers(c, edit).value) == Settings(c)
  {
    var n := ops.editServers(c, edit).value;
    assert n == c.(hostedServers := n.hostedServers);
  }

  /** Only the commit of a settings request changes the settings, and only it or a list edit the list of servers. */
  lemma SettingsChangeByCommit(ops: Ops, run: seq<State>, i: nat)
    requires Lawful(ops) && Execution(ops, run) && i + 1 < |run|
    ensures Settings(run[i + 1].h.cfg) != Settings(run[i].h.cfg) ==> run[i].section.WebCommit?
    ensures run[i + 1].h.cfg.hostedServers != run[i].h.cfg.hostedServers ==>
              run[i].section.WebCommit? || run[i].section.ServersStore?
  {
    var s, t := run[i], run[i + 1];
    if t.h.cfg != s.h.cfg {
      ConfigIsWrittenBySections(ops, s, t);
      if s.section.PersistStore? {
        ReplyKeepsEdits(ops, run, i);
      } else if s.section.ServersStore? {
        StoredConfig(ops, s, t);
        Reachable(ops, run, i);
        ListEditKeepsSettings(ops, s.h.cfg, s.section.edit);
      }
    }
  }
}
