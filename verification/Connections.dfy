/**
 The life of the connections of one public tunnel: waiting TCP connections that an attach, a failure or the close of
 the tunnel takes, transfers, UDP sessions, and the connection counters. Each lock-protected section and each atomic
 counter operation is one step.
 */
module Connections {
  /** What became of an accepted connection. Connection IDs are never used twice. */
  datatype Fate = Rejected | Waiting | Attached | Failed | Drained

  /** The stages of a session's one-time close. */
  datatype Stage = Open | Marked | Removed | Finished
  datatype Session = Session(key: string, stage: Stage)

  /** The stages of the tunnel's one-time close. */
  datatype Closing = Serving | ClosedMarked | PendingDrained | SessionsTaken

  /** `uncounted` are the inserted connections not yet added to the total, `begun` the transfers ever begun, `live` the
      sessions that have not taken themselves off the active count, `clamping` the callers about to store zero. */
  datatype State = State(
    close: Closing, pending: set<nat>, fate: map<nat, Fate>, uncounted: set<nat>,
    begun: set<nat>, transferring: set<nat>,
    udp: map<string, nat>, sessions: map<nat, Session>, live: set<nat>, nextSession: nat,
    active: int, total: int, clamping: nat)

  datatype Event =
    | Insert(c: nat) | Count(c: nat) | Attach(c: nat) | Fail(c: nat) | Begin(c: nat) | End(c: nat)
    | MarkClosed | DrainPending | TakeSessions
    | Datagram(key: string) | MarkSession(id: nat) | RemoveSession(id: nat) | FinishSession(id: nat)
    | Clamp | RestoreTotal(saved: nat)

  // ----- the sections -----

  /** A connection is inserted under the lock, unless the tunnel is closed. */
  function Inserted(s: State, c: nat): State {
    if s.close.Serving? then s.(pending := s.pending + {c}, fate := s.fate[c := Waiting], uncounted := s.uncounted + {c})
    else s.(fate := s.fate[c := Rejected])
  }

  function Counted(s: State, c: nat): State {
    s.(uncounted := s.uncounted - {c}, total := s.total + 1)
  }

  /** Whoever takes a waiting connection decides its fate; a connection that is not waiting cannot be taken. */
  function Taken(s: State, c: nat, fate: Fate): State {
    if c in s.pending then s.(pending := s.pending - {c}, fate := s.fate[c := fate]) else s
  }

  function Begun(s: State, c: nat): State {
    s.(begun := s.begun + {c}, transferring := s.transferring + {c}, active := s.active + 1)
  }

  /** The count goes down by one; a caller that sees it negative will store zero. */
  function Decremented(s: State): State {
    s.(active := s.active - 1, clamping := if s.active - 1 < 0 then s.clamping + 1 else s.clamping)
  }

  function Ended(s: State, c: nat): State {
    Decremented(s.(transferring := s.transferring - {c}))
  }

  /** The fates of the connections when those of the table are drained. */
  function Drain(fate: map<nat, Fate>, pending: set<nat>): map<nat, Fate> {
    map c | c in fate :: if c in pending then Drained else fate[c]
  }

  function AllDrained(s: State): State {
    s.(close := PendingDrained, pending := {}, fate := Drain(s.fate, s.pending))
  }

  function SessionFor(s: State, key: string): State {
    if key in s.udp then s
    else
      s.(udp := s.udp[key := s.nextSession], sessions := s.sessions[s.nextSession := Session(key, Open)],
         live := s.live + {s.nextSession}, nextSession := s.nextSession + 1,
         active := s.active + 1, total := s.total + 1)
  }

  function AtStage(s: State, id: nat, stage: Stage): State
    requires id in s.sessions
  {
    s.(sessions := s.sessions[id := s.sessions[id].(stage := stage)])
  }

  /** The entry of the session's key is deleted, whichever session it belongs to by now. */
  function SessionRemoved(s: State, id: nat): State
    requires id in s.sessions
  {
    AtStage(s, id, Removed).(udp := s.udp - {s.sessions[id].key})
  }

  function SessionFinished(s: State, id: nat): State
    requires id in s.sessions
  {
    Decremented(AtStage(s, id, Finished).(live := s.live - {id}))
  }

  predicate Enabled(s: State, e: Event) {
    match e
    case Insert(c) => c !in s.fate
    case Count(c) => c in s.uncounted
    case Attach(_) => true
    case Fail(_) => true
    case Begin(c) => c in s.fate && s.fate[c] == Attached && c !in s.begun
    case End(c) => c in s.transferring
    case MarkClosed => s.close.Serving?
    case DrainPending => s.close.ClosedMarked?
    case TakeSessions => s.close.PendingDrained?
    case Datagram(_) => true
    case MarkSession(id) => id in s.sessions && s.sessions[id].stage.Open?
    case RemoveSession(id) => id in s.sessions && s.sessions[id].stage.Marked?
    case FinishSession(id) => id in s.sessions && s.sessions[id].stage.Removed?
    case Clamp => s.clamping > 0
    case RestoreTotal(_) => true
  }

  function Apply(s: State, e: Event): State
    requires Enabled(s, e)
  {
    match e
    case Insert(c) => Inserted(s, c)
    case Count(c) => Counted(s, c)
    case Attach(c) => Taken(s, c, Attached)
    case Fail(c) => Taken(s, c, Failed)
    case Begin(c) => Begun(s, c)
    case End(c) => Ended(s, c)
    case MarkClosed => s.(close := ClosedMarked)
    case DrainPending => AllDrained(s)
    case TakeSessions => s.(close := SessionsTaken, udp := map[])
    case Datagram(key) => SessionFor(s, key)
    case MarkSession(id) => AtStage(s, id, Marked)
    case RemoveSession(id) => SessionRemoved(s, id)
    case FinishSession(id) => SessionFinished(s, id)
    case Clamp => s.(active := 0, clamping := s.clamping - 1)
    case RestoreTotal(saved) => s.(total := saved)
  }

  // ----- invariants -----

  /** The table holds exactly the waiting connections, and none once the close has drained it. */
  ghost predicate TableIsWaiting(s: State) {
    && (forall c :: c in s.pending <==> c in s.fate && s.fate[c] == Waiting)
    && (s.close.PendingDrained? || s.close.SessionsTaken? ==> s.pending == {})
  }

  predicate Transfers(s: State) {
    && s.transferring <= s.begun
    && (forall c :: c in s.begun ==> c in s.fate && s.fate[c] == Attached)
  }

  ghost predicate Sessions(s: State) {
    && (forall id :: id in s.sessions ==> id < s.nextSession)
    && (forall id :: id in s.live <==> id in s.sessions && !s.sessions[id].stage.Finished?)
    && (forall k :: k in s.udp ==> s.udp[k] in s.sessions && s.sessions[s.udp[k]].key == k)
  }

  /** Transfers begun and not ended, and sessions that have not been taken off. */
  predicate ActiveIsExact(s: State) {
    s.active == |s.transferring| + |s.live| && s.clamping == 0
  }

  function Accepted(s: State): set<nat> {
    set c | c in s.fate && s.fate[c] != Rejected
  }

  /** The connections that wait to be counted were accepted. */
  predicate CountsAreAccepted(s: State) {
    s.uncounted <= Accepted(s)
  }

  /** What the total has been increased for: inserted connections that were counted, and sessions. */
  function CountedSoFar(s: State): int {
    |Accepted(s)| - |s.uncounted| + |s.sessions|
  }

  ghost predicate Conserved(s: State) {
    TableIsWaiting(s) && Transfers(s) && Sessions(s) && ActiveIsExact(s) && CountsAreAccepted(s)
  }

  lemma KeepsTable(s: State, e: Event)
    requires Enabled(s, e) && TableIsWaiting(s)
    ensures TableIsWaiting(Apply(s, e))
  {
  }

  lemma KeepsTransfers(s: State, e: Event)
    requires Enabled(s, e) && TableIsWaiting(s) && Transfers(s)
    ensures Transfers(Apply(s, e))
  {
  }

  lemma KeepsSessions(s: State, e: Event)
    requires Enabled(s, e) && Sessions(s)
    ensures Sessions(Apply(s, e))
  {
  }

  /** What each step does to the two sets that are counted as active. */
  lemma ActiveSets(s: State, e: Event)
    requires Enabled(s, e)
    ensures var t := Apply(s, e);
            && t.transferring == (match e case Begin(c) => s.transferring + {c} case End(c) => s.transferring - {c}
                                          case _ => s.transferring)
            && t.live == (match e case Datagram(key) => if key in s.udp then s.live else s.live + {s.nextSession}
                                  case FinishSession(id) => s.live - {id} case _ => s.live)
  {
  }

  /** What each step does to the count itself. */
  lemma ActiveCount(s: State, e: Event)
    requires Enabled(s, e) && s.clamping == 0
    ensures var t := Apply(s, e);
            && t.active == (match e
                            case Begin(_) => s.active + 1
                            case Datagram(key) => if key in s.udp then s.active else s.active + 1
                            case End(_) => s.active - 1
                            case FinishSession(_) => s.active - 1
                            case _ => s.active)
            && (t.active >= 0 ==> t.clamping == 0)
  {
  }

  lemma KeepsActive(s: State, e: Event)
    requires Enabled(s, e) && Transfers(s) && Sessions(s) && ActiveIsExact(s)
    ensures ActiveIsExact(Apply(s, e))
  {
    ActiveSets(s, e);
    ActiveCount(s, e);
    if e.FinishSession? {
      assert e.id in s.live;
    }
  }

  lemma AcceptedChange(s: State, e: Event)
    requires Enabled(s, e) && TableIsWaiting(s)
    ensures Accepted(Apply(s, e)) == match e
                                     case Insert(c) => if s.close.Serving? then Accepted(s) + {c} else Accepted(s)
                                     case _ => Accepted(s)
  {
  }

  lemma StageCount(sessions: map<nat, Session>, id: nat, v: Session)
    ensures |sessions[id := v]| == if id in sessions then |sessions| else |sessions| + 1
  {
    if id in sessions {
      assert sessions[id := v].Keys == sessions.Keys;
    } else {
      assert sessions[id := v].Keys == sessions.Keys + {id};
    }
  }

  /** Only a new datagram source adds a session. */
  lemma SessionChange(s: State, e: Event) returns (id: nat, v: Session)
    requires Enabled(s, e)
    ensures var t := Apply(s, e);
            if e.Datagram? && e.key !in s.udp then id == s.nextSession && t.sessions == s.sessions[id := v]
            else t.sessions == s.sessions || (id in s.sessions && t.sessions == s.sessions[id := v])
  {
    id, v := s.nextSession, Session("", Open);
    match e
    case MarkSession(k) => id, v := k, s.sessions[k].(stage := Marked);
    case RemoveSession(k) => id, v := k, s.sessions[k].(stage := Removed);
    case FinishSession(k) => id, v := k, s.sessions[k].(stage := Finished);
    case Datagram(key) => v := Session(key, Open);
    case _ =>
  }

  lemma SessionCount(s: State, e: Event)
    requires Enabled(s, e) && Sessions(s)
    ensures |Apply(s, e).sessions| == if e.Datagram? && e.key !in s.udp then |s.sessions| + 1 else |s.sessions|
  {
    var id, v := SessionChange(s, e);
    StageCount(s.sessions, id, v);
  }

  lemma TotalCount(s: State, e: Event)
    requires Enabled(s, e)
    ensures var t := Apply(s, e);
            && t.total == (match e
                           case Count(_) => s.total + 1
                           case Datagram(key) => if key in s.udp then s.total else s.total + 1
                           case RestoreTotal(saved) => saved
                           case _ => s.total)
            && t.uncounted == (match e
                               case Insert(c) => if s.close.Serving? then s.uncounted + {c} else s.uncounted
                               case Count(c) => s.uncounted - {c}
                               case _ => s.uncounted)
  {
  }

  lemma KeepsCounts(s: State, e: Event)
    requires Enabled(s, e) && TableIsWaiting(s) && CountsAreAccepted(s)
    ensures CountsAreAccepted(Apply(s, e))
  {
    AcceptedChange(s, e);
    TotalCount(s, e);
  }

  /** Every step but the restoring of saved counters increases the total exactly by what it counts. */
  lemma TotalFollows(s: State, e: Event)
    requires Enabled(s, e) && TableIsWaiting(s) && Sessions(s) && CountsAreAccepted(s)
    ensures var t := Apply(s, e);
            if e.RestoreTotal? then t.total == e.saved && CountedSoFar(t) == CountedSoFar(s)
            else t.total - s.total == CountedSoFar(t) - CountedSoFar(s)
  {
    AcceptedChange(s, e);
    SessionCount(s, e);
    TotalCount(s, e);
    if e.Insert? {
      assert e.c !in Accepted(s);
    }
  }

  lemma StepConserves(s: State, e: Event)
    requires Enabled(s, e) && Conserved(s)
    ensures Conserved(Apply(s, e))
  {
    KeepsTable(s, e);
    KeepsTransfers(s, e);
    KeepsSessions(s, e);
    KeepsActive(s, e);
    KeepsCounts(s, e);
  }

  // ----- runs -----

  predicate Init(s: State) {
    s == State(Serving, {}, map[], {}, {}, {}, map[], map[], {}, 0, 0, 0, 0)
  }

  ghost predicate Execution(run: seq<State>, events: seq<Event>) {
    && |run| == |events| + 1 && Init(run[0])
    && forall i :: 0 <= i < |events| ==> Enabled(run[i], events[i]) && run[i + 1] == Apply(run[i], events[i])
  }

  lemma StepAt(run: seq<State>, events: seq<Event>, i: nat)
    requires Execution(run, events) && i < |events|
    ensures Enabled(run[i], events[i]) && run[i + 1] == Apply(run[i], events[i])
  {
  }

  lemma {:induction false} Reachable(run: seq<State>, events: seq<Event>, i: nat)
    requires Execution(run, events) && i < |run|
    ensures Conserved(run[i])
  {
    if i > 0 {
      Reachable(run, events, i - 1);
      StepAt(run, events, i - 1);
      StepConserves(run[i - 1], events[i - 1]);
    }
  }

  /** In every run the active count is the transfers begun and not ended plus the sessions not yet taken off, so it is
      never negative and no caller ever stores zero over it. */
  lemma ActiveInEveryRun(run: seq<State>, events: seq<Event>, i: nat)
    requires Execution(run, events) && i < |run|
    ensures run[i].active == |run[i].transferring| + |run[i].live| >= 0
    ensures i < |events| ==> !events[i].Clamp?
  {
    Reachable(run, events, i);
    if i < |events| {
      StepAt(run, events, i);
    }
  }

  /** From any state of a run on, up to the next restoring of saved counters, the total grows by exactly the
      connections counted and the sessions created. */
  lemma TotalGrows(run: seq<State>, events: seq<Event>, k: nat, i: nat)
    requires Execution(run, events) && k <= i < |run|
    requires forall j :: k <= j < i ==> !events[j].RestoreTotal?
    ensures run[i].total - run[k].total == CountedSoFar(run[i]) - CountedSoFar(run[k])
  {
    forall j | k <= j < i ensures Excess(run[j + 1]) == Excess(run[j]) {
      Reachable(run, events, j);
      StepAt(run, events, j);
      TotalFollows(run[j], events[j]);
    }
    ExcessStays(run, k, i);
  }

  /** What the total holds beyond what was counted. */
  function Excess(s: State): int {
    s.total - CountedSoFar(s)
  }

  lemma {:induction false} ExcessStays(run: seq<State>, k: nat, i: nat)
    requires k <= i < |run| && forall j :: k <= j < i ==> Excess(run[j + 1]) == Excess(run[j])
    ensures Excess(run[i]) == Excess(run[k])
    decreases i
  {
    if k < i {
      ExcessStays(run, k, i - 1);
      assert Excess(run[i - 1 + 1]) == Excess(run[i - 1]);
    }
  }

  /** The total of a new tunnel is all connections inserted and sessions created, less those about to be counted. The
      total of a restored one is the saved total and what was counted after it was stored; what was counted before, while
      the tunnel was already open, is lost. */
  lemma TotalInEveryRun(run: seq<State>, events: seq<Event>, k: nat, i: nat)
    requires Execution(run, events) && k < i < |run|
    requires forall j :: k < j < i ==> !events[j].RestoreTotal?
    ensures events[k].RestoreTotal? ==>
              run[i].total == events[k].saved + CountedSoFar(run[i]) - CountedSoFar(run[k])
    ensures k == 0 && !events[k].RestoreTotal? ==> run[i].total == CountedSoFar(run[i])
  {
    TotalGrows(run, events, k + 1, i);
    Reachable(run, events, k);
    StepAt(run, events, k);
    TotalFollows(run[k], events[k]);
  }

  /** Once the close has drained the table it stays empty. */
  lemma NoneEntersAfterDrain(run: seq<State>, events: seq<Event>, i: nat)
    requires Execution(run, events) && i < |run|
    requires run[i].close.PendingDrained? || run[i].close.SessionsTaken?
    ensures run[i].pending == {} && forall c :: c in run[i].fate ==> run[i].fate[c] != Waiting
  {
    Reachable(run, events, i);
  }

  lemma FateStep(s: State, e: Event, c: nat)
    requires Enabled(s, e) && TableIsWaiting(s)
    ensures c in s.fate && s.fate[c] != Waiting ==> c in Apply(s, e).fate && Apply(s, e).fate[c] == s.fate[c]
  {
  }

  /** What has been decided for a connection stays decided. */
  predicate FatesKept(run: seq<State>, c: nat) {
    forall j :: 0 <= j < |run| - 1 && c in run[j].fate && run[j].fate[c] != Waiting ==>
      c in run[j + 1].fate && run[j + 1].fate[c] == run[j].fate[c]
  }

  lemma RunKeepsFates(run: seq<State>, events: seq<Event>, c: nat)
    requires Execution(run, events)
    ensures FatesKept(run, c)
  {
    forall j | 0 <= j < |run| - 1
      ensures c in run[j].fate && run[j].fate[c] != Waiting ==>
                c in run[j + 1].fate && run[j + 1].fate[c] == run[j].fate[c]
    {
      Reachable(run, events, j);
      StepAt(run, events, j);
      FateStep(run[j], events[j], c);
    }
  }

  lemma {:induction false} KeptFate(run: seq<State>, i: nat, j: nat, c: nat)
    requires FatesKept(run, c) && i <= j < |run| && c in run[i].fate && run[i].fate[c] != Waiting
    ensures c in run[j].fate && run[j].fate[c] == run[i].fate[c]
    decreases j
  {
    if i < j {
      KeptFate(run, i, j - 1, c);
    }
  }

  /** A connection leaves the table once: whoever took it first decided its fate for good. */
  lemma FateIsFinal(run: seq<State>, events: seq<Event>, i: nat, j: nat, c: nat)
    requires Execution(run, events) && i <= j < |run| && c in run[i].fate && run[i].fate[c] != Waiting
    ensures c in run[j].fate && run[j].fate[c] == run[i].fate[c] && c !in run[j].pending
  {
    RunKeepsFates(run, events, c);
    KeptFate(run, i, j, c);
    Reachable(run, events, j);
  }

  /** The step that takes a connection out of the table, and the party it belongs to. */
  predicate Takes(e: Event, c: nat, fate: Fate) {
    match fate
    case Attached => e == Attach(c)
    case Failed => e == Fail(c)
    case Drained => e.DrainPending?
    case _ => false
  }

  lemma LeavesByOneParty(s: State, e: Event, c: nat)
    requires Enabled(s, e) && TableIsWaiting(s) && c in s.pending && c !in Apply(s, e).pending
    ensures c in Apply(s, e).fate && Takes(e, c, Apply(s, e).fate[c])
  {
  }

  /** Step `k` takes the connection out of the table, and its party has decided the fate it has at `i`. */
  predicate LeavesAt(run: seq<State>, events: seq<Event>, i: nat, k: nat, c: nat)
    requires |run| == |events| + 1 && i < |run|
  {
    && k < i && c in run[k].pending && c !in run[k + 1].pending
    && c in run[i].fate && Takes(events[k], c, run[i].fate[c])
  }

  lemma LeaveStep(run: seq<State>, events: seq<Event>, k: nat, c: nat)
    requires Execution(run, events) && k < |events| && c in run[k].pending && c !in run[k + 1].pending
    ensures LeavesAt(run, events, k + 1, k, c)
  {
    Reachable(run, events, k);
    StepAt(run, events, k);
    LeavesByOneParty(run[k], events[k], c);
  }

  lemma AcceptedStep(run: seq<State>, events: seq<Event>, i: nat, c: nat)
    requires Execution(run, events) && i < |events| && c in Accepted(run[i + 1]) && c !in run[i + 1].pending
    ensures c in Accepted(run[i])
  {
    Reachable(run, events, i);
    Reachable(run, events, i + 1);
    StepAt(run, events, i);
    AcceptedChange(run[i], events[i]);
  }

  /** An inserted connection that is no longer waiting was taken by a step of exactly one party. */
  lemma {:induction false} TakenByOneParty(run: seq<State>, events: seq<Event>, i: nat, c: nat) returns (k: nat)
    requires Execution(run, events) && i < |run| && c in Accepted(run[i]) && c !in run[i].pending
    ensures LeavesAt(run, events, i, k, c)
  {
    AcceptedStep(run, events, i - 1, c);
    if c in run[i - 1].pending {
      k := i - 1;
      LeaveStep(run, events, k, c);
    } else {
      k := TakenByOneParty(run, events, i - 1, c);
      LeaveStep(run, events, k, c);
      FateIsFinal(run, events, k + 1, i, c);
    }
  }

  /** No connection leaves the table twice. */
  lemma LeavesOnce(run: seq<State>, events: seq<Event>, j: nat, k: nat, c: nat)
    requires Execution(run, events) && j < k < |events|
    requires c in run[j].pending && c !in run[j + 1].pending
    ensures c !in run[k].pending
  {
    LeaveStep(run, events, j, c);
    FateIsFinal(run, events, j + 1, k, c);
  }

  /** What each step does to the table of waiting connections. */
  lemma TableChange(s: State, e: Event)
    requires Enabled(s, e)
    ensures var t := Apply(s, e);
            && t.pending == (match e
                             case Insert(c) => if s.close == Serving then s.pending + {c} else s.pending
                             case Attach(c) => s.pending - {c}
                             case Fail(c) => s.pending - {c}
                             case DrainPending => {}
                             case _ => s.pending)
            && t.close == (match e
                           case MarkClosed => ClosedMarked
                           case DrainPending => PendingDrained
                           case TakeSessions => SessionsTaken
                           case _ => s.close)
  {
  }

  /** What each step decides. */
  lemma FateChange(s: State, e: Event, c: nat)
    requires Enabled(s, e)
    ensures e == Insert(c) ==> c in Apply(s, e).fate && Apply(s, e).fate[c] == if s.close == Serving then Waiting else Rejected
    ensures e == Attach(c) && c in s.pending ==> c in Apply(s, e).fate && Apply(s, e).fate[c] == Attached
    ensures e == Fail(c) && c in s.pending ==> c in Apply(s, e).fate && Apply(s, e).fate[c] == Failed
    ensures e == DrainPending && c in s.pending && c in s.fate ==> c in Apply(s, e).fate && Apply(s, e).fate[c] == Drained
  {
  }

  /** A connection that comes in while the tunnel serves waits in the table; one that comes later is turned away. */
  lemma InsertWaits(run: seq<State>, events: seq<Event>, k: nat, c: nat)
    requires Execution(run, events) && k < |events| && events[k] == Insert(c)
    ensures c in run[k + 1].fate
    ensures run[k].close == Serving ==> c in run[k + 1].pending && run[k + 1].fate[c] == Waiting
    ensures run[k].close != Serving ==> c !in run[k + 1].pending && run[k + 1].fate[c] == Rejected
  {
    Reachable(run, events, k);
    StepAt(run, events, k);
    TableChange(run[k], events[k]);
    FateChange(run[k], events[k], c);
  }

  /** An attach or a failure that finds a connection in the table takes it out and decides its fate; so does the drain. */
  lemma TakingRemoves(run: seq<State>, events: seq<Event>, k: nat, c: nat)
    requires Execution(run, events) && k < |events| && c in run[k].pending
    requires events[k] in {Attach(c), Fail(c), DrainPending}
    ensures c !in run[k + 1].pending && c in run[k + 1].fate
    ensures run[k + 1].fate[c] ==
            if events[k] == Attach(c) then Attached else if events[k] == Fail(c) then Failed else Drained
  {
    Reachable(run, events, k);
    StepAt(run, events, k);
    TableChange(run[k], events[k]);
    FateChange(run[k], events[k], c);
  }

  /** Of all steps that try to take a connection, in every run at most one finds it in the table. */
  lemma FoundOnce(run: seq<State>, events: seq<Event>, j: nat, k: nat, c: nat)
    requires Execution(run, events) && j < k < |events| && c in run[j].pending
    requires events[j] in {Attach(c), Fail(c), DrainPending} && events[k] in {Attach(c), Fail(c), DrainPending}
    ensures c !in run[k].pending
  {
    TakingRemoves(run, events, j, c);
    FateIsFinal(run, events, j + 1, k, c);
  }

  // ----- the object -----

  /** A session closed by one caller without interference. */
  function SessionClosed(s: State, id: nat): State
    requires id in s.sessions
  {
    SessionFinished(SessionRemoved(AtStage(s, id, Marked), id), id)
  }

  /** What a close does before it closes the sessions it took. */
  function TablesTaken(s: State): State {
    AllDrained(s.(close := ClosedMarked)).(close := SessionsTaken, udp := map[])
  }

  lemma TablesTakenConserves(s: State)
    requires Conserved(s) && s.close.Serving?
    ensures Conserved(TablesTaken(s)) && s.udp.Values <= s.sessions.Keys
  {
    StepConserves(s, MarkClosed);
    var a := Apply(s, MarkClosed);
    StepConserves(a, DrainPending);
    var b := Apply(a, DrainPending);
    StepConserves(b, TakeSessions);
  }

  lemma LiveIsActive(s: State, id: nat)
    requires Conserved(s) && id in s.sessions && s.sessions[id].stage.Open?
    ensures s.active > 0
  {
    assert id in s.live;
  }

  lemma ClosingConserves(s: State, id: nat)
    requires Conserved(s) && id in s.sessions && s.sessions[id].stage.Open?
    ensures Conserved(SessionClosed(s, id))
  {
    StepConserves(s, MarkSession(id));
    var a := Apply(s, MarkSession(id));
    StepConserves(a, RemoveSession(id));
    var b := Apply(a, RemoveSession(id));
    StepConserves(b, FinishSession(id));
  }

  lemma ClosingKeepsOthers(s: State, id: nat)
    requires id in s.sessions
    ensures var t := SessionClosed(s, id);
            && t.sessions == s.sessions[id := s.sessions[id].(stage := Finished)] && t.active == s.active - 1
  {
  }

  lemma SessionClosedConserves(s: State, id: nat)
    requires Conserved(s) && id in s.sessions && s.sessions[id].stage.Open?
    ensures Conserved(SessionClosed(s, id))
    ensures SessionClosed(s, id).sessions == s.sessions[id := s.sessions[id].(stage := Finished)]
    ensures SessionClosed(s, id).active == s.active - 1 >= 0
  {
    ClosingConserves(s, id);
    ClosingKeepsOthers(s, id);
    LiveIsActive(s, id);
  }

  /** The connection state of a tunnel. The ghost fields record what the running handlers will still do. */
  class Tunnel {
    var close: Closing
    var pending: set<nat>
    var udp: map<string, nat>
    var sessions: map<nat, Session>
    var nextSession: nat
    var active: int
    var total: int
    ghost var fate: map<nat, Fate>
    ghost var uncounted: set<nat>
    ghost var begun: set<nat>
    ghost var transferring: set<nat>
    ghost var live: set<nat>

    ghost function View(): State
      reads this
    {
      State(close, pending, fate, uncounted, begun, transferring, udp, sessions, live, nextSession, active, total, 0)
    }

    constructor ()
      ensures Init(View()) && Conserved(View())
    {
      close, pending, udp, sessions, nextSession, active, total := Serving, {}, map[], map[], 0, 0, 0;
      fate, uncounted, begun, transferring, live := map[], {}, {}, {}, {};
    }

    /** An accepted connection waits to be attached, unless the tunnel is closed. */
    method HandlePublicConn(c: nat) returns (waits: bool)
      requires c !in fate && c !in uncounted
      modifies this
      ensures waits <==> old(close).Serving?
      ensures waits ==> pending == old(pending) + {c} && total == old(total) + 1 && fate == old(fate)[c := Waiting]
      ensures !waits ==> pending == old(pending) && total == old(total) && fate == old(fate)[c := Rejected]
      ensures View() == if waits then Counted(Inserted(old(View()), c), c) else Inserted(old(View()), c)
    {
      if !close.Serving? {
        fate := fate[c := Rejected];
        return false;
      }
      pending := pending + {c};
      fate := fate[c := Waiting];
      total := total + 1;
      assert uncounted + {c} - {c} == uncounted;
      waits := true;
    }

    /** Exactly one caller gets a waiting connection. */
    method TakePending(c: nat, ghost taken: Fate) returns (ok: bool)
      modifies this
      ensures ok <==> c in old(pending)
      ensures ok ==> pending == old(pending) - {c} && fate == old(fate)[c := taken]
      ensures !ok ==> pending == old(pending) && fate == old(fate)
      ensures View() == Taken(old(View()), c, taken)
    {
      if c !in pending {
        return false;
      }
      pending := pending - {c};
      fate := fate[c := taken];
      ok := true;
    }

    method BeginTransfer(c: nat)
      modifies this
      ensures View() == Begun(old(View()), c)
      ensures active == old(active) + 1 && transferring == old(transferring) + {c} && pending == old(pending)
    {
      active := active + 1;
      begun, transferring := begun + {c}, transferring + {c};
    }

    /** The guard against a negative count is there but has no effect. */
    method EndTransfer(c: nat)
      requires Conserved(View()) && c in transferring
      modifies this
      ensures View() == Ended(old(View()), c)
      ensures active == old(active) - 1 >= 0 && transferring == old(transferring) - {c} && pending == old(pending)
    {
      var current := active - 1;
      active := if current < 0 then 0 else current;
      transferring := transferring - {c};
    }

    /** The session of a source, created and counted if there is none. */
    method GetOrCreateUDPSession(key: string) returns (id: nat, created: bool)
      modifies this
      ensures View() == SessionFor(old(View()), key)
      ensures created <==> key !in old(udp)
      ensures key in udp && udp[key] == id
      ensures created ==>
                && id == old(nextSession) && sessions == old(sessions)[id := Session(key, Open)]
                && udp == old(udp)[key := id]
                && active == old(active) + 1 && total == old(total) + 1
      ensures !created ==> sessions == old(sessions) && udp == old(udp) && active == old(active) && total == old(total)
    {
      if key in udp {
        return udp[key], false;
      }
      id, created := nextSession, true;
      sessions := sessions[id := Session(key, Open)];
      udp := udp[key := id];
      nextSession := nextSession + 1;
      live := live + {id};
      total, active := total + 1, active + 1;
    }

    /** Only the first close of a session has an effect. */
    method CloseSession(id: nat)
      requires Conserved(View()) && id in sessions
      modifies this
      ensures View() == if old(sessions)[id].stage.Open? then SessionClosed(old(View()), id) else old(View())
      ensures old(sessions)[id].stage == Open ==>
                && sessions == old(sessions)[id := Session(old(sessions)[id].key, Finished)]
                && udp == old(udp) - {old(sessions)[id].key}
                && active == old(active) - 1 >= 0 && live == old(live) - {id}
    {
      if !sessions[id].stage.Open? {
        return;
      }
      LiveIsActive(View(), id);
      var key := sessions[id].key;
      sessions := sessions[id := Session(key, Finished)];
      udp := udp - {key};
      var current := active - 1;
      active := if current < 0 then 0 else current;
      live := live - {id};
    }

    /** Closing empties both tables and closes every session that was in one; only the first close has an effect. */
    method Close()
      requires Conserved(View())
      modifies this
      ensures Conserved(View())
      ensures old(close).Serving? ==>
                && close.SessionsTaken? && pending == {} && total == old(total) && transferring == old(transferring)
                && fate == Drain(old(fate), old(pending))
                && (forall k :: k in old(udp) ==> old(udp)[k] in sessions && !sessions[old(udp)[k]].stage.Open?)
      ensures !old(close).Serving? ==> View() == old(View())
    {
      if !close.Serving? {
        return;
      }
      var taken := TakeTables();
      CloseSessions(taken);
    }

    /** Marks the tunnel closed, drains the waiting connections and takes the sessions out of their table. */
    method TakeTables() returns (taken: set<nat>)
      requires Conserved(View()) && close.Serving?
      modifies this
      ensures View() == TablesTaken(old(View())) && Conserved(View())
      ensures taken == old(udp).Values && taken <= sessions.Keys
    {
      TablesTakenConserves(View());
      taken := udp.Values;
      fate := Drain(fate, pending);
      close, pending, udp := SessionsTaken, {}, map[];
    }

    method CloseSessions(taken: set<nat>)
      requires Conserved(View()) && taken <= sessions.Keys
      modifies this
      ensures Conserved(View()) && close == old(close) && pending == old(pending) && fate == old(fate)
      ensures total == old(total) && transferring == old(transferring) && sessions.Keys == old(sessions.Keys)
      ensures forall id :: id in taken ==> !sessions[id].stage.Open?
    {
      var rest := taken;
      while rest != {}
        invariant Conserved(View()) && close == old(close) && pending == old(pending) && fate == old(fate)
        invariant total == old(total) && transferring == old(transferring) && sessions.Keys == old(sessions.Keys)
        invariant rest <= taken
        invariant forall id :: id in taken && id !in rest ==> !sessions[id].stage.Open?
        decreases |rest|
      {
        var id :| id in rest;
        rest := rest - {id};
        if sessions[id].stage.Open? {
          SessionClosedConserves(View(), id);
        }
        CloseSession(id);
      }
    }
  }
}
