/**
 Remote-support sessions: each Windows account (its SID) has at most one session, and a session has the key slot of
 its login name. Login names carry no domain, so two accounts can have one slot. A start, a connect and each half of a
 cleanup are one step under the lock; between the two halves a cleanup clears the slot without it. Session IDs are
 never used twice. A file operation may report an error after it has done its work, or before.
 */
module SupportSessions {
  import opened Basics

  datatype Phase = Waiting | Connected | Stopping | CleanupError
  datatype Session = Session(id: nat, slot: string, phase: Phase, process: nat)

  /** A cleanup between its two lock sections. */
  datatype Cleanup =
    | Clearing(sid: string, id: nat, slot: string)
    | Cleared(sid: string, id: nat, slot: string)
    | NotCleared(sid: string, id: nat, slot: string)

  /** `slots` are the existing slot files: the session each one authorizes, or None. `connects` are the sessions a shell
      has connected to. */
  datatype State = State(
    sessions: map<string, Session>, slots: map<string, Option<nat>>, cleanups: map<nat, Cleanup>,
    connects: set<nat>, nextId: nat)

  /** What a write that reports an error has done: the open, the write, or the sync or close after the write failed. A
      key that is cut off authorizes nothing. */
  datatype Left = Untouched | Emptied | Stored

  /** A clear that reports an error may have emptied the slot all the same. */
  datatype Clear = Clears | ClearFails(emptied: bool)

  /** How the file operations of a start end. */
  datatype Outcome = WriteFails(left: Left) | RestrictFails(clear: Clear) | Done

  datatype Event =
    | Start(sid: string, slot: string, outcome: Outcome)
    | Connect(sid: string, id: nat, process: nat)
    | BeginCleanup(task: nat, sid: string, id: nat)
    | ClearSlot(task: nat, clear: Clear)
    | EndCleanup(task: nat)
    | LoseSlot(slot: string)

  // ----- the sections -----

  predicate Empties(clear: Clear) {
    clear.Clears? || clear.emptied
  }

  /** What a start leaves in an existing slot that held `before`. */
  function LeftBy(outcome: Outcome, before: Option<nat>, id: nat): Option<nat> {
    match outcome
    case WriteFails(Untouched) => before
    case WriteFails(Emptied) => None
    case WriteFails(Stored) => Some(id)
    case RestrictFails(clear) => if Empties(clear) then None else Some(id)
    case Done => Some(id)
  }

  /** Without a session the slot is written; only if everything succeeds a session comes into being. */
  function Started(s: State, sid: string, slot: string, outcome: Outcome): State {
    if sid in s.sessions then s
    else
      var n := s.(nextId := s.nextId + 1);
      if slot !in s.slots then n
      else
        var m := n.(slots := s.slots[slot := LeftBy(outcome, s.slots[slot], s.nextId)]);
        if outcome.Done? then m.(sessions := s.sessions[sid := Session(s.nextId, slot, Waiting, 0)]) else m
  }

  predicate CanConnect(s: State, sid: string, id: nat) {
    sid in s.sessions && s.sessions[sid].id == id && s.sessions[sid].phase.Waiting? && s.sessions[sid].process == 0
  }

  function ConnectedBy(s: State, sid: string, id: nat, process: nat): State {
    if !CanConnect(s, sid, id) then s
    else s.(sessions := s.sessions[sid := s.sessions[sid].(phase := Connected, process := process)],
            connects := s.connects + {id})
  }

  predicate CanStop(s: State, sid: string, id: nat) {
    sid in s.sessions && s.sessions[sid].id == id && !s.sessions[sid].phase.Stopping?
  }

  function Stopped(s: State, sid: string): State
    requires sid in s.sessions
  {
    s.(sessions := s.sessions[sid := s.sessions[sid].(phase := Stopping)])
  }

  function SlotCleared(s: State, slot: string, clear: Clear): State {
    if slot in s.slots && Empties(clear) then s.(slots := s.slots[slot := None]) else s
  }

  /** A missing slot is an error too: the check for it does not look through the wrapped error. */
  predicate Succeeds(s: State, slot: string, clear: Clear) {
    slot in s.slots && clear.Clears?
  }

  function CleanupEnded(s: State, sid: string, id: nat, cleared: bool): State {
    if sid !in s.sessions || s.sessions[sid].id != id then s
    else if cleared then s.(sessions := s.sessions - {sid})
    else s.(sessions := s.sessions[sid := s.sessions[sid].(phase := CleanupError)])
  }

  predicate Enabled(s: State, e: Event) {
    match e
    case BeginCleanup(task, _, _) => task !in s.cleanups
    case ClearSlot(task, _) => task in s.cleanups && s.cleanups[task].Clearing?
    case EndCleanup(task) => task in s.cleanups && !s.cleanups[task].Clearing?
    case _ => true
  }

  function Apply(s: State, e: Event): State
    requires Enabled(s, e)
  {
    match e
    case Start(sid, slot, outcome) => Started(s, sid, slot, outcome)
    case Connect(sid, id, process) => ConnectedBy(s, sid, id, process)
    case BeginCleanup(task, sid, id) =>
      if CanStop(s, sid, id)
      then Stopped(s, sid).(cleanups := s.cleanups[task := Clearing(sid, id, s.sessions[sid].slot)])
      else s
    case ClearSlot(task, clear) =>
      var c := s.cleanups[task];
      SlotCleared(s, c.slot, clear).(cleanups := s.cleanups[task := if Succeeds(s, c.slot, clear)
                                                                    then Cleared(c.sid, c.id, c.slot)
                                                                    else NotCleared(c.sid, c.id, c.slot)])
    case EndCleanup(task) =>
      var c := s.cleanups[task];
      CleanupEnded(s, c.sid, c.id, c.Cleared?).(cleanups := s.cleanups - {task})
    case LoseSlot(slot) => s.(slots := s.slots - {slot})
  }

  // ----- messages for old sessions -----

  /** A connect, stop or finish that names another session than the current one changes nothing. */
  lemma OldSessionsAreIgnored(s: State, e: Event, sid: string, id: nat)
    requires Enabled(s, e)
    requires (e.Connect? && e.sid == sid && e.id == id) || (e.BeginCleanup? && e.sid == sid && e.id == id)
    requires sid !in s.sessions || s.sessions[sid].id != id
    ensures Apply(s, e) == s
  {
  }

  // ----- invariants of every run -----

  predicate IsFor(c: Cleanup, sessions: map<string, Session>) {
    && c.sid in sessions && sessions[c.sid].id == c.id && sessions[c.sid].slot == c.slot
    && sessions[c.sid].phase.Stopping?
  }

  /** Each cleanup under way belongs to the stopping session of its account. */
  predicate CleanupsAreStopping(s: State) {
    forall t :: t in s.cleanups ==> IsFor(s.cleanups[t], s.sessions)
  }

  /** No two cleanups are for the same account. */
  predicate CleanupsDiffer(cleanups: map<nat, Cleanup>) {
    forall t, u :: t in cleanups && u in cleanups && cleanups[t].sid == cleanups[u].sid ==> t == u
  }

  /** Every ID given out is old. */
  ghost predicate IdsAreOld(s: State) {
    && (forall sid :: sid in s.sessions ==> s.sessions[sid].id < s.nextId)
    && (forall id :: id in s.connects ==> id < s.nextId)
    && (forall slot :: slot in s.slots && s.slots[slot].Some? ==> s.slots[slot].value < s.nextId)
  }

  /** No two sessions share an ID. */
  predicate IdsDiffer(sessions: map<string, Session>) {
    forall a, b :: a in sessions && b in sessions && sessions[a].id == sessions[b].id ==> a == b
  }

  /** A shell has connected to a session only once it is past waiting. */
  predicate ConnectsAreOver(s: State) {
    forall sid :: sid in s.sessions && s.sessions[sid].phase.Waiting? ==> s.sessions[sid].id !in s.connects
  }

  ghost predicate Sound(s: State) {
    CleanupsAreStopping(s) && CleanupsDiffer(s.cleanups) && IdsAreOld(s) && IdsDiffer(s.sessions) && ConnectsAreOver(s)
  }

  lemma KeepsCleanups(s: State, e: Event)
    requires Enabled(s, e) && CleanupsAreStopping(s) && CleanupsDiffer(s.cleanups)
    ensures CleanupsAreStopping(Apply(s, e))
  {
  }

  lemma KeepsOneCleanup(s: State, e: Event)
    requires Enabled(s, e) && CleanupsAreStopping(s) && CleanupsDiffer(s.cleanups)
    ensures CleanupsDiffer(Apply(s, e).cleanups)
  {
  }

  lemma KeepsIds(s: State, e: Event)
    requires Enabled(s, e) && IdsAreOld(s)
    ensures IdsAreOld(Apply(s, e))
  {
  }

  /** A step gives no session the ID or the slot of another one. */
  lemma SessionsStay(s: State, e: Event, sid: string)
    requires Enabled(s, e) && sid in Apply(s, e).sessions
    ensures var x := Apply(s, e).sessions[sid];
            || (sid in s.sessions && s.sessions[sid].id == x.id && s.sessions[sid].slot == x.slot)
            || (e.Start? && e.sid == sid && x.id == s.nextId && x.slot == e.slot)
  {
  }

  lemma KeepsDifferent(s: State, e: Event)
    requires Enabled(s, e) && IdsAreOld(s) && IdsDiffer(s.sessions)
    ensures IdsDiffer(Apply(s, e).sessions)
  {
    var t := Apply(s, e).sessions;
    forall a, b | a in t && b in t && t[a].id == t[b].id ensures a == b {
      SessionsStay(s, e, a);
      SessionsStay(s, e, b);
    }
  }

  lemma KeepsConnects(s: State, e: Event)
    requires Enabled(s, e) && IdsAreOld(s) && IdsDiffer(s.sessions) && ConnectsAreOver(s)
    ensures ConnectsAreOver(Apply(s, e))
  {
  }

  /** A cleanup whose clear succeeded takes its session out of the table; one whose clear did not keeps it, to be tried
      again. */
  lemma CleanupEnds(s: State, task: nat)
    requires Enabled(s, EndCleanup(task)) && CleanupsAreStopping(s)
    ensures var c, t := s.cleanups[task], Apply(s, EndCleanup(task));
            && t.cleanups == s.cleanups - {task} && t.slots == s.slots && c.sid in s.sessions
            && t.sessions == (if c.Cleared? then s.sessions - {c.sid}
                              else s.sessions[c.sid := s.sessions[c.sid].(phase := CleanupError)])
  {
    assert IsFor(s.cleanups[task], s.sessions);
  }

  /** A cleanup that succeeds with its clear has emptied an existing slot. */
  lemma ClearEmpties(s: State, task: nat, clear: Clear)
    requires Enabled(s, ClearSlot(task, clear))
    ensures var c, t := s.cleanups[task], Apply(s, ClearSlot(task, clear));
            && t.sessions == s.sessions && task in t.cleanups
            && (t.cleanups[task].Cleared? <==> c.slot in s.slots && clear == Clears)
            && (t.cleanups[task].Cleared? ==> c.slot in t.slots && t.slots[c.slot] == None)
            && (forall slot :: slot in s.slots && slot != c.slot ==> slot in t.slots && t.slots[slot] == s.slots[slot])
  {
  }

  /** A start is the only way a session comes about, and a connect the only way it gets its shell. */
  lemma SessionsCome(s: State, e: Event, sid: string)
    requires Enabled(s, e) && sid in Apply(s, e).sessions
    ensures sid !in s.sessions ==> e == Start(sid, Apply(s, e).sessions[sid].slot, Done)
    ensures Apply(s, e).sessions[sid].phase == Connected && (sid !in s.sessions || s.sessions[sid].phase != Connected) ==>
              e.Connect? && e.sid == sid && sid in s.sessions && s.sessions[sid].phase == Waiting && e.id == s.sessions[sid].id
  {
  }

  /** A start without a session and with an existing slot, in which nothing fails, gives a waiting session, and its key is
      in the slot. */
  lemma StartGivesSession(s: State, sid: string, slot: string)
    requires sid !in s.sessions && slot in s.slots
    ensures var t := Apply(s, Start(sid, slot, Done));
            && t.sessions == s.sessions[sid := Session(s.nextId, slot, Waiting, 0)]
            && t.slots == s.slots[slot := Some(s.nextId)]
  {
  }

  /** A waiting session without a shell gets the one that connects. */
  lemma ConnectGivesShell(s: State, sid: string, process: nat)
    requires sid in s.sessions && s.sessions[sid].phase == Waiting && s.sessions[sid].process == 0
    ensures Apply(s, Connect(sid, s.sessions[sid].id, process)).sessions
            == s.sessions[sid := s.sessions[sid].(phase := Connected, process := process)]
  {
  }

  /** A start that fails adds no session; its slot keeps what it held, is emptied, or has the key, depending on what
      failed. */
  lemma FailedStartLeaves(s: State, sid: string, slot: string, outcome: Outcome)
    requires sid !in s.sessions && !outcome.Done?
    ensures Apply(s, Start(sid, slot, outcome)) ==
              s.(nextId := s.nextId + 1,
                 slots := if slot !in s.slots || outcome == WriteFails(Untouched) then s.slots
                          else if outcome == WriteFails(Stored) || outcome == RestrictFails(ClearFails(false))
                          then s.slots[slot := Some(s.nextId)]
                          else s.slots[slot := None])
  {
    if slot in s.slots && outcome == WriteFails(Untouched) {
      assert s.slots[slot := s.slots[slot]] == s.slots;
    }
  }

  ghost predicate Follows(run: seq<State>, events: seq<Event>) {
    && |run| == |events| + 1
    && forall i :: 0 <= i < |events| ==> Enabled(run[i], events[i]) && run[i + 1] == Apply(run[i], events[i])
  }

  /** A cleanup left alone stops its session first. If the clear works, the slot is empty and the session gone; if it does not,
      the session stays in cleanup error, and can be stopped again. */
  lemma CleanupRun(s: State, task: nat, sid: string, clear: Clear) returns (run: seq<State>)
    requires task !in s.cleanups && sid in s.sessions && s.sessions[sid].phase != Stopping
    ensures Follows(run, [BeginCleanup(task, sid, s.sessions[sid].id), ClearSlot(task, clear), EndCleanup(task)]) && run[0] == s
    ensures run[1].sessions == s.sessions[sid := s.sessions[sid].(phase := Stopping)] && run[1].slots == s.slots
    ensures var slot := s.sessions[sid].slot;
            && (slot in s.slots && clear == Clears ==>
                  run[3] == s.(sessions := s.sessions - {sid}, slots := s.slots[slot := None]))
            && (slot !in s.slots || clear != Clears ==>
                  && run[3].sessions == s.sessions[sid := s.sessions[sid].(phase := CleanupError)]
                  && run[3].cleanups == s.cleanups && run[3].slots.Keys == s.slots.Keys
                  && (slot !in s.slots || clear == ClearFails(false) ==> run[3].slots == s.slots)
                  && (slot in s.slots && clear == ClearFails(true) ==> run[3].slots == s.slots[slot := None]))
  {
    var x := s.sessions[sid];
    var a := Apply(s, BeginCleanup(task, sid, x.id));
    var b := Apply(a, ClearSlot(task, clear));
    run := [s, a, b, Apply(b, EndCleanup(task))];
    assert s.sessions[sid := x.(phase := Stopping)] - {sid} == s.sessions - {sid};
    assert run[3].cleanups == s.cleanups;
  }

  /** A slot that is lost is gone, and nothing else. */
  lemma SlotIsLost(s: State, slot: string)
    ensures Enabled(s, LoseSlot(slot)) && Apply(s, LoseSlot(slot)) == s.(slots := s.slots - {slot})
  {
  }

  // ----- who a slot authorizes -----

  predicate OwnedBy(sessions: map<string, Session>, slot: string, id: nat) {
    exists sid :: sid in sessions && sessions[sid].id == id && sessions[sid].slot == slot
  }

  /** A slot authorizes a session only while that session is in the table, with this slot. */
  predicate SlotsAreOwned(s: State) {
    forall slot :: slot in s.slots && s.slots[slot].Some? ==> OwnedBy(s.sessions, slot, s.slots[slot].value)
  }

  /** A cleanup that has cleared its slot has taken its session out of it. */
  predicate ClearedAreOut(s: State) {
    forall t :: t in s.cleanups && s.cleanups[t].Cleared? && s.cleanups[t].slot in s.slots ==>
      s.slots[s.cleanups[t].slot] != Some(s.cleanups[t].id)
  }

  /** A start that fails and leaves its key in the slot. */
  predicate Orphans(s: State, e: Event) {
    && e.Start? && e.sid !in s.sessions && e.slot in s.slots
    && (e.outcome == WriteFails(Stored) || e.outcome == RestrictFails(ClearFails(false)))
  }

  lemma SlotsStay(s: State, e: Event, slot: string)
    requires Enabled(s, e) && slot in Apply(s, e).slots && Apply(s, e).slots[slot].Some?
    ensures var id := Apply(s, e).slots[slot].value;
            || (slot in s.slots && s.slots[slot] == Some(id))
            || (e.Start? && e.slot == slot && id == s.nextId && e.sid !in s.sessions && slot in s.slots
                && (e.outcome.Done? || Orphans(s, e)))
  {
  }

  lemma OwnerStays(s: State, e: Event, slot: string, id: nat) returns (sid: string)
    requires Enabled(s, e) && Sound(s) && ClearedAreOut(s) && OwnedBy(s.sessions, slot, id)
    requires slot in s.slots && s.slots[slot] == Some(id)
    ensures sid in Apply(s, e).sessions && Apply(s, e).sessions[sid].id == id && Apply(s, e).sessions[sid].slot == slot
  {
    sid :| sid in s.sessions && s.sessions[sid].id == id && s.sessions[sid].slot == slot;
  }

  lemma KeepsOwned(s: State, e: Event)
    requires Enabled(s, e) && Sound(s) && SlotsAreOwned(s) && ClearedAreOut(s) && !Orphans(s, e)
    ensures SlotsAreOwned(Apply(s, e))
  {
    var t := Apply(s, e);
    forall slot | slot in t.slots && t.slots[slot].Some? ensures OwnedBy(t.sessions, slot, t.slots[slot].value) {
      var id := t.slots[slot].value;
      SlotsStay(s, e, slot);
      if slot in s.slots && s.slots[slot] == Some(id) {
        var sid := OwnerStays(s, e, slot, id);
        assert sid in t.sessions && t.sessions[sid].id == id && t.sessions[sid].slot == slot;
      } else {
        assert e.sid in t.sessions && t.sessions[e.sid].id == id && t.sessions[e.sid].slot == slot;
      }
    }
  }

  lemma KeepsCleared(s: State, e: Event)
    requires Enabled(s, e) && Sound(s) && ClearedAreOut(s)
    ensures ClearedAreOut(Apply(s, e))
  {
  }

  lemma OrphanIsNotOwned(s: State, e: Event)
    requires Enabled(s, e) && IdsAreOld(s) && Orphans(s, e)
    ensures !SlotsAreOwned(Apply(s, e))
  {
    var t := Apply(s, e);
    assert t.slots[e.slot] == Some(s.nextId) && t.sessions == s.sessions;
    assert !OwnedBy(t.sessions, e.slot, s.nextId);
  }

  // ----- runs -----

  /** At the start of the service no session exists and every slot is empty. */
  ghost predicate Init(s: State) {
    && s.sessions == map[] && s.cleanups == map[] && s.connects == {}
    && forall slot :: slot in s.slots ==> s.slots[slot] == None
  }

  ghost predicate Execution(run: seq<State>, events: seq<Event>) {
    && |run| == |events| + 1 && Init(run[0])
    && forall i :: 0 <= i < |events| ==> Enabled(run[i], events[i]) && run[i + 1] == Apply(run[i], events[i])
  }

  lemma StepAt(run: seq<State>, events: seq<Event>, i: nat)
    requires Execution(run, events) && i < |events|
    ensures Enabled(run[i], events[i]) && run[i + 1] == Apply(run[i], events[i])
  {
  }

  lemma {:induction false} Reachable(run: seq<State>, events: seq<Event>, i: nat)
    requires Execution(run, events) && i < |run|
    ensures Sound(run[i]) && ClearedAreOut(run[i])
  {
    if i > 0 {
      Reachable(run, events, i - 1);
      StepAt(run, events, i - 1);
      KeepsCleanups(run[i - 1], events[i - 1]);
      KeepsOneCleanup(run[i - 1], events[i - 1]);
      KeepsIds(run[i - 1], events[i - 1]);
      KeepsDifferent(run[i - 1], events[i - 1]);
      KeepsConnects(run[i - 1], events[i - 1]);
      KeepsCleared(run[i - 1], events[i - 1]);
    }
  }

  lemma {:induction false} OwnedWhile(run: seq<State>, events: seq<Event>, i: nat)
    requires Execution(run, events) && i < |run|
    requires forall j :: 0 <= j < i ==> !Orphans(run[j], events[j])
    ensures SlotsAreOwned(run[i])
  {
    if i > 0 {
      OwnedWhile(run, events, i - 1);
      Reachable(run, events, i - 1);
      StepAt(run, events, i - 1);
      KeepsOwned(run[i - 1], events[i - 1]);
    }
  }

  /** Throughout a run every slot authorizes only a session of the table, exactly if no failing start left its key in
      the slot. */
  lemma SlotsAreOwnedUnlessOrphaned(run: seq<State>, events: seq<Event>)
    requires Execution(run, events)
    ensures (forall i :: 0 <= i < |run| ==> SlotsAreOwned(run[i]))
            <==> (forall i :: 0 <= i < |events| ==> !Orphans(run[i], events[i]))
  {
    if forall i :: 0 <= i < |run| ==> SlotsAreOwned(run[i]) {
      forall i | 0 <= i < |events| ensures !Orphans(run[i], events[i]) {
        assert SlotsAreOwned(run[i + 1]);
        StepAt(run, events, i);
        Reachable(run, events, i);
        if Orphans(run[i], events[i]) {
          OrphanIsNotOwned(run[i], events[i]);
        }
      }
    }
    if forall i :: 0 <= i < |events| ==> !Orphans(run[i], events[i]) {
      forall i | 0 <= i < |run| ensures SlotsAreOwned(run[i]) {
        OwnedWhile(run, events, i);
      }
    }
  }

  /** The property fails in a run of one event: protecting the slot and clearing it again both fail. */
  lemma OrphanedKey(sid: string, slot: string) returns (run: seq<State>, events: seq<Event>)
    ensures Execution(run, events) && events == [Start(sid, slot, RestrictFails(ClearFails(false)))]
    ensures run[1].sessions == map[] && slot in run[1].slots && run[1].slots[slot].Some?
  {
    var s := State(map[], map[slot := None], map[], {}, 0);
    events := [Start(sid, slot, RestrictFails(ClearFails(false)))];
    run := [s, Apply(s, events[0])];
  }

  /** And in another: the key is written in full, and then the sync or the close of the file reports an error. */
  lemma StoredKey(sid: string, slot: string) returns (run: seq<State>, events: seq<Event>)
    ensures Execution(run, events) && events == [Start(sid, slot, WriteFails(Stored))]
    ensures run[1].sessions == map[] && slot in run[1].slots && run[1].slots[slot].Some?
  {
    var s := State(map[], map[slot := None], map[], {}, 0);
    events := [Start(sid, slot, WriteFails(Stored))];
    run := [s, Apply(s, events[0])];
  }

  // ----- live sessions keep their slot -----

  predicate IsLive(x: Session) {
    x.phase.Waiting? || x.phase.Connected?
  }

  /** A session that waits or is connected is authorized by its slot, if that exists. */
  predicate SessionsAreAuthorized(s: State) {
    forall sid :: sid in s.sessions && IsLive(s.sessions[sid]) && s.sessions[sid].slot in s.slots ==>
      s.slots[s.sessions[sid].slot] == Some(s.sessions[sid].id)
  }

  /** A live session of an account has this slot. */
  predicate InUse(s: State, slot: string) {
    exists sid :: sid in s.sessions && IsLive(s.sessions[sid]) && s.sessions[sid].slot == slot
  }

  /** A start, or the clearing of a stopping session, changes the slot of a live session of another account. */
  predicate Displaces(s: State, e: Event) {
    match e
    case Start(sid, slot, outcome) =>
      sid !in s.sessions && slot in s.slots && InUse(s, slot) && outcome != WriteFails(Untouched)
    case ClearSlot(task, clear) =>
      task in s.cleanups && s.cleanups[task].slot in s.slots && InUse(s, s.cleanups[task].slot) && Empties(clear)
    case _ => false
  }

  lemma KeepsAuthorized(s: State, e: Event)
    requires Enabled(s, e) && SessionsAreAuthorized(s) && !Displaces(s, e)
    ensures SessionsAreAuthorized(Apply(s, e))
  {
  }

  lemma DisplacedIsNotAuthorized(s: State, e: Event)
    requires Enabled(s, e) && Sound(s) && Displaces(s, e)
    ensures !SessionsAreAuthorized(Apply(s, e))
  {
    var slot := if e.Start? then e.slot else s.cleanups[e.task].slot;
    var sid :| sid in s.sessions && IsLive(s.sessions[sid]) && s.sessions[sid].slot == slot;
    var t := Apply(s, e);
    assert sid in t.sessions && t.sessions[sid] == s.sessions[sid];
    assert slot in t.slots && t.slots[slot] != Some(s.sessions[sid].id);
  }

  lemma {:induction false} AuthorizedWhile(run: seq<State>, events: seq<Event>, i: nat)
    requires Execution(run, events) && i < |run|
    requires forall j :: 0 <= j < i ==> !Displaces(run[j], events[j])
    ensures SessionsAreAuthorized(run[i])
  {
    if i > 0 {
      AuthorizedWhile(run, events, i - 1);
      StepAt(run, events, i - 1);
      KeepsAuthorized(run[i - 1], events[i - 1]);
    }
  }

  /** Throughout a run every live session keeps its authorization, exactly if no start and no clearing touched a slot
      that a live session of another account has. */
  lemma LiveSessionsAreAuthorized(run: seq<State>, events: seq<Event>)
    requires Execution(run, events)
    ensures (forall i :: 0 <= i < |run| ==> SessionsAreAuthorized(run[i]))
            <==> (forall i :: 0 <= i < |events| ==> !Displaces(run[i], events[i]))
  {
    if forall i :: 0 <= i < |run| ==> SessionsAreAuthorized(run[i]) {
      forall i | 0 <= i < |events| ensures !Displaces(run[i], events[i]) {
        assert SessionsAreAuthorized(run[i + 1]);
        StepAt(run, events, i);
        Reachable(run, events, i);
        if Displaces(run[i], events[i]) {
          DisplacedIsNotAuthorized(run[i], events[i]);
        }
      }
    }
    if forall i :: 0 <= i < |events| ==> !Displaces(run[i], events[i]) {
      forall i | 0 <= i < |run| ensures SessionsAreAuthorized(run[i]) {
        AuthorizedWhile(run, events, i);
      }
    }
  }

  /** The check before a start: no session of another account has the slot. */
  predicate Separate(s: State, e: Event) {
    e.Start? ==> forall sid :: sid in s.sessions && sid != e.sid ==> s.sessions[sid].slot != e.slot
  }

  predicate SlotsDiffer(sessions: map<string, Session>) {
    forall a, b :: a in sessions && b in sessions && sessions[a].slot == sessions[b].slot ==> a == b
  }

  lemma KeepsSlotsDifferent(s: State, e: Event)
    requires Enabled(s, e) && SlotsDiffer(s.sessions) && Separate(s, e)
    ensures SlotsDiffer(Apply(s, e).sessions)
  {
    var t := Apply(s, e).sessions;
    forall a, b | a in t && b in t && t[a].slot == t[b].slot ensures a == b {
      SessionsStay(s, e, a);
      SessionsStay(s, e, b);
    }
  }

  lemma {:induction false} SeparateRun(run: seq<State>, events: seq<Event>, i: nat)
    requires Execution(run, events) && i < |run|
    requires forall j :: 0 <= j < i ==> Separate(run[j], events[j])
    ensures SlotsDiffer(run[i].sessions)
  {
    if i > 0 {
      SeparateRun(run, events, i - 1);
      StepAt(run, events, i - 1);
      KeepsSlotsDifferent(run[i - 1], events[i - 1]);
    }
  }

  lemma SeparateDoesNotDisplace(s: State, e: Event)
    requires Enabled(s, e) && Sound(s) && SlotsDiffer(s.sessions) && Separate(s, e)
    ensures !Displaces(s, e)
  {
    if e.ClearSlot? {
      var c := s.cleanups[e.task];
      assert IsFor(c, s.sessions) && !IsLive(s.sessions[c.sid]);
    }
  }

  /** While accounts with a session have slots of their own, live sessions keep their authorization, whatever cleanups
      and failing starts there are. */
  lemma SeparateSessionsAreAuthorized(run: seq<State>, events: seq<Event>)
    requires Execution(run, events)
    requires forall i :: 0 <= i < |events| ==> Separate(run[i], events[i])
    ensures forall i :: 0 <= i < |run| ==> SessionsAreAuthorized(run[i])
  {
    forall i | 0 <= i < |events| ensures !Displaces(run[i], events[i]) {
      SeparateRun(run, events, i);
      Reachable(run, events, i);
      StepAt(run, events, i);
      SeparateDoesNotDisplace(run[i], events[i]);
    }
    LiveSessionsAreAuthorized(run, events);
  }

  /** Two accounts of one login name: the start of the second takes the slot from the waiting session of the first. */
  lemma SharedSlot(a: string, b: string, slot: string) returns (run: seq<State>, events: seq<Event>)
    requires a != b
    ensures Execution(run, events) && events == [Start(a, slot, Done), Start(b, slot, Done)]
    ensures a in run[2].sessions && run[2].sessions[a].phase.Waiting?
    ensures slot in run[2].slots && run[2].slots[slot] != Some(run[2].sessions[a].id)
  {
    var s := State(map[], map[slot := None], map[], {}, 0);
    var t := Apply(s, Start(a, slot, Done));
    events := [Start(a, slot, Done), Start(b, slot, Done)];
    run := [s, t, Apply(t, events[1])];
  }

  // ----- connects and cleanups -----

  predicate Connects(s: State, e: Event, id: nat) {
    e.Connect? && e.id == id && CanConnect(s, e.sid, id)
  }

  /** Once connected to, a session stays so recorded. */
  lemma {:induction false} ConnectIsRecorded(run: seq<State>, events: seq<Event>, i: nat, j: nat, id: nat)
    requires Execution(run, events) && i < j < |run| && Connects(run[i], events[i], id)
    ensures id in run[j].connects
    decreases j
  {
    StepAt(run, events, j - 1);
    if j > i + 1 {
      ConnectIsRecorded(run, events, i, j - 1, id);
    }
  }

  /** At most one shell ever takes a session from waiting to connected. */
  lemma OneShellPerSession(run: seq<State>, events: seq<Event>, i: nat, j: nat, id: nat)
    requires Execution(run, events) && i < j < |events| && Connects(run[i], events[i], id)
    ensures !Connects(run[j], events[j], id)
  {
    ConnectIsRecorded(run, events, i, j, id);
    Reachable(run, events, j);
  }

  /** A cleanup clears the slot of its own, stopping session only. */
  lemma CleanupIsForItsSession(run: seq<State>, events: seq<Event>, i: nat)
    requires Execution(run, events) && i < |events| && events[i].ClearSlot?
    ensures events[i].task in run[i].cleanups
    ensures IsFor(run[i].cleanups[events[i].task], run[i].sessions)
  {
    Reachable(run, events, i);
    StepAt(run, events, i);
  }

  // ----- the object -----

  /** A cleanup that runs without interference. */
  function CleanedUp(s: State, sid: string, id: nat, clear: Clear): State {
    if !CanStop(s, sid, id) then s
    else
      var slot := s.sessions[sid].slot;
      CleanupEnded(SlotCleared(Stopped(s, sid), slot, clear), sid, id, Succeeds(s, slot, clear))
  }

  class SupportController {
    var sessions: map<string, Session>
    var slots: map<string, Option<nat>>
    var nextId: nat
    ghost var connects: set<nat>

    ghost function View(): State
      reads this
    {
      State(sessions, slots, map[], connects, nextId)
    }

    constructor (slots: map<string, Option<nat>>)
      requires forall slot :: slot in slots ==> slots[slot] == None
      ensures Init(View()) && this.slots == slots
    {
      sessions, this.slots, nextId, connects := map[], slots, 0, {};
    }

    /** Writes the slot; `left` is what a write that reports an error has done. */
    method WriteSlot(slot: string, content: Option<nat>, fails: bool, left: Left) returns (ok: bool)
      modifies this`slots
      ensures ok <==> slot in old(slots) && !fails
      ensures slots == if slot !in old(slots) || (fails && left.Untouched?) then old(slots)
                       else old(slots)[slot := if fails && left.Emptied? then None else content]
    {
      if slot !in slots {
        return false;
      }
      if fails {
        slots := if left.Untouched? then slots else slots[slot := if left.Emptied? then None else content];
        return false;
      }
      slots := slots[slot := content];
      ok := true;
    }

    method ClearKey(slot: string, clear: Clear) returns (ok: bool)
      modifies this`slots
      ensures View() == SlotCleared(old(View()), slot, clear)
      ensures ok <==> slot in old(slots) && clear.Clears?
    {
      ok := WriteSlot(slot, None, clear.ClearFails?, if clear.ClearFails? && !clear.emptied then Untouched else Emptied);
    }

    /** A start that fails, at whatever operation, gives no session; what it leaves in the slot is `LeftBy`. */
    method Start(sid: string, slot: string, outcome: Outcome) returns (id: Option<nat>)
      modifies this
      ensures View() == Started(old(View()), sid, slot, outcome)
      ensures id.Some? <==> sid !in old(sessions) && slot in old(slots) && outcome == Done
      ensures id.Some? ==> id == Some(old(nextId)) && sessions == old(sessions)[sid := Session(old(nextId), slot, Waiting, 0)]
                           && slots == old(slots)[slot := id]
      ensures id.None? ==> sessions == old(sessions)
      ensures id.Some? <==> sid !in old(sessions) && sid in sessions
      ensures id.Some? ==> sessions[sid] == Session(id.value, slot, Waiting, 0) && slots[slot] == id
    {
      if sid in sessions {
        return None;
      }
      var given := nextId;
      nextId := nextId + 1;
      var written := WriteSlot(slot, Some(given), outcome.WriteFails?, if outcome.WriteFails? then outcome.left else Stored);
      if !written {
        return None;
      }
      if outcome.RestrictFails? {
        var _ := ClearKey(slot, outcome.clear);
        return None;
      }
      sessions := sessions[sid := Session(given, slot, Waiting, 0)];
      id := Some(given);
    }

    method Connect(sid: string, id: nat, process: nat) returns (ok: bool)
      modifies this
      ensures ok <==> CanConnect(old(View()), sid, id)
      ensures ok <==> sid in old(sessions) && old(sessions)[sid].id == id && old(sessions)[sid].phase == Waiting
                      && old(sessions)[sid].process == 0
      ensures ok ==> sessions == old(sessions)[sid := old(sessions)[sid].(phase := Connected, process := process)]
      ensures slots == old(slots) && (!ok ==> sessions == old(sessions))
      ensures View() == ConnectedBy(old(View()), sid, id, process)
    {
      ok := sid in sessions && sessions[sid].id == id && sessions[sid].phase.Waiting? && sessions[sid].process == 0;
      if ok {
        sessions := sessions[sid := sessions[sid].(phase := Connected, process := process)];
        connects := connects + {id};
      }
    }

    /** Cleaning up ends the session unless clearing its slot reports an error; then it stays, to be tried again, even
        if the slot is empty by now or missing. */
    method CleanupSession(sid: string, id: nat, clear: Clear) returns (ok: bool)
      modifies this
      ensures View() == CleanedUp(old(View()), sid, id, clear)
      ensures ok <==> !CanStop(old(View()), sid, id) || Succeeds(old(View()), old(sessions)[sid].slot, clear)
      ensures sid in old(sessions) && old(sessions)[sid].id == id && old(sessions)[sid].phase != Stopping ==>
                && sessions == (if ok then old(sessions) - {sid}
                                else old(sessions)[sid := old(sessions)[sid].(phase := CleanupError)])
                && (ok ==> old(sessions)[sid].slot in slots && slots[old(sessions)[sid].slot] == None)
      ensures sid !in old(sessions) || old(sessions)[sid].id != id || old(sessions)[sid].phase == Stopping ==>
                ok && sessions == old(sessions) && slots == old(slots)
    {
      if sid !in sessions || sessions[sid].id != id || sessions[sid].phase.Stopping? {
        return true;
      }
      sessions := sessions[sid := sessions[sid].(phase := Stopping)];
      var slot := sessions[sid].slot;
      ok := ClearKey(slot, clear);
      sessions := if ok then sessions - {sid} else sessions[sid := sessions[sid].(phase := CleanupError)];
    }

    /** A stop without an ID is for the current session; one with another ID is refused. */
    method Stop(sid: string, requested: Option<nat>, clear: Clear) returns (ok: bool)
      modifies this
      ensures ok ==> sid in old(sessions) && (requested.None? || requested.value == old(sessions)[sid].id)
      ensures View() == if sid in old(sessions) && (requested.None? || requested.value == old(sessions)[sid].id)
                        then CleanedUp(old(View()), sid, old(sessions)[sid].id, clear) else old(View())
    {
      if sid !in sessions || (requested.Some? && requested.value != sessions[sid].id) {
        return false;
      }
      ok := CleanupSession(sid, sessions[sid].id, clear);
    }
  }
}
