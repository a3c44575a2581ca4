/**
 The server's registry of public tunnels and its port allocator as a step machine. `tunnels` and `ports` change
 under one lock; creation is serialised by a second lock that it holds over many steps, while closes and reassignments
 run freely between them.
 */
module Registry {
  import opened Basics

  datatype Tunnel = Tunnel(node: string, preset: string, protocol: string, port: int)

  /** Tunnel IDs are never used twice. */
  datatype Maps = Maps(tunnels: map<nat, Tunnel>, ports: map<int, nat>, nextId: nat)

  datatype Range = Range(first: int, last: int)

  function Registered(m: Maps, t: Tunnel): Maps {
    Maps(m.tunnels[m.nextId := t], m.ports[t.port := m.nextId], m.nextId + 1)
  }

  /** A tunnel leaves the ports only if the port is still its own. */
  function Unregistered(m: Maps, id: nat): Maps
    requires id in m.tunnels
  {
    var port := m.tunnels[id].port;
    m.(tunnels := m.tunnels - {id},
       ports := if port in m.ports && m.ports[port] == id then m.ports - {port} else m.ports)
  }

  function FreePorts(range: Range, ports: map<int, nat>): (r: set<int>)
    ensures forall p :: p in r <==> range.first <= p <= range.last && p !in ports
  {
    set p | range.first <= p <= range.last && p !in ports
  }

  predicate SamePair(a: Tunnel, b: Tunnel) {
    a.node == b.node && a.preset == b.preset
  }

  /** A tunnel of the pair is registered, other than the one allowed, so the pair cannot be created. */
  predicate IsMapped(m: Maps, node: string, preset: string, allowed: Option<nat>) {
    exists id :: id in m.tunnels && m.tunnels[id].node == node && m.tunnels[id].preset == preset && Some(id) != allowed
  }

  /** The two maps say the same: which tunnel has which port. */
  predicate Inverse(m: Maps) {
    && (forall id :: id in m.tunnels ==> m.tunnels[id].port in m.ports && m.ports[m.tunnels[id].port] == id)
    && (forall p :: p in m.ports ==> m.ports[p] in m.tunnels && m.tunnels[m.ports[p]].port == p)
  }

  predicate FreshIds(m: Maps) {
    forall id :: id in m.tunnels ==> id < m.nextId
  }

  // ----- what one registration and one close do to the maps -----

  /** Registering keeps the maps inverse exactly when the port has no tunnel yet. */
  lemma RegisteredInverse(m: Maps, t: Tunnel)
    requires Inverse(m) && FreshIds(m)
    ensures Inverse(Registered(m, t)) <==> t.port !in m.ports
  {
    var n := Registered(m, t);
    if t.port in m.ports {
      var other := m.ports[t.port];
      assert other in n.tunnels && other != m.nextId && n.tunnels[other].port == t.port;
    }
  }

  lemma UnregisteredInverse(m: Maps, id: nat)
    requires Inverse(m) && id in m.tunnels
    ensures Inverse(Unregistered(m, id))
  {
  }

  // ----- the step machine -----

  /** Where the holder of the creation lock is. `free` are the candidates as they were listed. */
  datatype Phase =
    | Looking
    | Scanning(protocol: string)
    | Listing(protocol: string)
    | Trying(protocol: string, free: set<int>, rest: set<int>, refused: set<int>)
    | Binding(protocol: string, free: set<int>, rest: set<int>, refused: set<int>, port: int)
    | Bound(protocol: string, port: int)

  datatype Creator = Creator(
    node: string, preset: string, requested: int, allowed: Option<nat>, owner: Option<nat>, phase: Phase)

  /** A reassignment: it has the current tunnel, waits for the replacement, or waits for the current one to be closed. */
  datatype Move = Fetched(current: nat, tunnel: Tunnel) | Creating(current: nat) | Closing(current: nat, replacement: nat)

  /** `closing` are the tunnels whose one-time close has started and that are still registered. */
  datatype State = State(m: Maps, closing: set<nat>, creator: Option<Creator>, moves: map<nat, Move>)

  datatype Event =
    | StartCreate(node: string, preset: string, requested: int)
    | StartReassign(k: nat, id: nat)
    | CreateReplacement(k: nat)
    | Lookup(protocol: Option<string>)
    | Scan
    | List
    | Check(port: int)
    | Bind(ok: bool)
    | GiveUp
    | Insert
    | StartClose(id: nat)
    | Unregister(id: nat)
    | FinishReassign(k: nat)

  function Released(s: State): State {
    match s.creator
    case None => s
    case Some(c) => s.(creator := None, moves := if c.owner.Some? then s.moves - {c.owner.value} else s.moves)
  }

  function AtPhase(s: State, c: Creator, phase: Phase): State {
    s.(creator := Some(c.(phase := phase)))
  }

  function Candidates(range: Range, m: Maps, requested: int): set<int> {
    if requested != 0 then {requested} else FreePorts(range, m.ports)
  }

  /** The steps of the holder of the creation lock. */
  function CreatorStep(range: Range, s: State, c: Creator, e: Event): Option<State> {
    match (e, c.phase)
    case (Lookup(protocol), Looking) =>
      Some(if protocol.None? then Released(s) else AtPhase(s, c, Scanning(protocol.value)))
    case (Scan, Scanning(protocol)) =>
      Some(if IsMapped(s.m, c.node, c.preset, c.allowed) then Released(s) else AtPhase(s, c, Listing(protocol)))
    case (List, Listing(protocol)) =>
      var free := Candidates(range, s.m, c.requested);
      Some(AtPhase(s, c, Trying(protocol, free, free, {})))
    case (Check(port), Trying(protocol, free, rest, refused)) =>
      if port !in rest then None
      else if c.requested == 0 && port in s.m.ports then Some(AtPhase(s, c, Trying(protocol, free, rest - {port}, refused)))
      else Some(AtPhase(s, c, Binding(protocol, free, rest - {port}, refused, port)))
    case (Bind(ok), Binding(protocol, free, rest, refused, port)) =>
      Some(if ok then AtPhase(s, c, Bound(protocol, port))
           else if c.requested != 0 then Released(s)
           else AtPhase(s, c, Trying(protocol, free, rest, refused + {port})))
    case (GiveUp, Trying(_, _, rest, _)) =>
      if rest != {} then None else Some(Released(s))
    case (Insert, Bound(protocol, port)) =>
      var n := s.(m := Registered(s.m, Tunnel(c.node, c.preset, protocol, port)), creator := None);
      Some(if c.owner.None? || c.allowed.None? then n
           else n.(moves := n.moves[c.owner.value := Closing(c.allowed.value, s.m.nextId)]))
    case _ => None
  }

  function Step(range: Range, s: State, e: Event): Option<State> {
    match e
    case StartCreate(node, preset, requested) =>
      if s.creator.Some? then None
      else Some(s.(creator := Some(Creator(node, preset, requested, None, None, Looking))))
    case StartReassign(k, id) =>
      if k in s.moves || id !in s.m.tunnels then None
      else Some(s.(moves := s.moves[k := Fetched(id, s.m.tunnels[id])]))
    case CreateReplacement(k) =>
      if s.creator.Some? || k !in s.moves || !s.moves[k].Fetched? then None
      else
        var f := s.moves[k];
        Some(s.(creator := Some(Creator(f.tunnel.node, f.tunnel.preset, 0, Some(f.current), Some(k), Looking)),
                moves := s.moves[k := Creating(f.current)]))
    case StartClose(id) =>
      if id !in s.m.tunnels || id in s.closing then None else Some(s.(closing := s.closing + {id}))
    case Unregister(id) =>
      if id !in s.closing || id !in s.m.tunnels then None
      else Some(s.(m := Unregistered(s.m, id), closing := s.closing - {id}))
    case FinishReassign(k) =>
      if k !in s.moves || !s.moves[k].Closing? || s.moves[k].current in s.m.tunnels then None
      else Some(s.(moves := s.moves - {k}))
    case _ =>
      if s.creator.None? then None else CreatorStep(range, s, s.creator.value, e)
  }

  // ----- invariants -----

  predicate Ids(s: State) {
    FreshIds(s.m) && s.closing <= s.m.tunnels.Keys
  }

  predicate MoveIds(m: Maps, move: Move) {
    && move.current < m.nextId
    && (move.Closing? ==> move.current < move.replacement < m.nextId)
    && (move.Fetched? && move.current in m.tunnels ==> m.tunnels[move.current] == move.tunnel)
  }

  predicate Pointers(s: State) {
    && (s.creator.Some? && s.creator.value.allowed.Some? ==> s.creator.value.allowed.value < s.m.nextId)
    && (forall k :: k in s.moves ==> MoveIds(s.m, s.moves[k]))
  }

  /** The holder of the creation lock works for one reassignment or for none. */
  predicate Owner(s: State) {
    && (forall k :: k in s.moves && s.moves[k].Creating? ==> s.creator.Some? && s.creator.value.owner == Some(k))
    && (s.creator.Some? ==>
          var c := s.creator.value;
          && (c.owner.Some? <==> c.allowed.Some?)
          && (c.owner.Some? ==>
                && c.requested == 0
                && c.owner.value in s.moves && s.moves[c.owner.value] == Creating(c.allowed.value)
                && (c.allowed.value in s.m.tunnels ==>
                      var t := s.m.tunnels[c.allowed.value]; t.node == c.node && t.preset == c.preset)))
  }

  /** After its scan the holder of the creation lock knows that its pair is not registered, except by the tunnel it replaces. */
  predicate Exclusive(s: State) {
    s.creator.Some? && !s.creator.value.phase.Looking? && !s.creator.value.phase.Scanning? ==>
      var c := s.creator.value; !IsMapped(s.m, c.node, c.preset, c.allowed)
  }

  /** A port chosen automatically is in the range and has no tunnel. */
  predicate Allocation(range: Range, s: State) {
    s.creator.Some? && s.creator.value.requested == 0 ==>
      match s.creator.value.phase
      case Trying(_, free, rest, refused) =>
        free <= FreePorts(range, s.m.ports) && free == rest + refused
      case Binding(_, free, rest, refused, port) =>
        free <= FreePorts(range, s.m.ports) && free == rest + refused + {port}
      case Bound(_, port) => port in FreePorts(range, s.m.ports)
      case _ => true
  }

  predicate AtMostTwo(m: Maps) {
    forall a, b, c :: a in m.tunnels && b in m.tunnels && c in m.tunnels && a < b < c ==>
      !(SamePair(m.tunnels[a], m.tunnels[b]) && SamePair(m.tunnels[b], m.tunnels[c]))
  }

  /** A reassignment has registered `b` and now closes `a`. */
  predicate Replacing(s: State, a: nat, b: nat) {
    exists k :: k in s.moves && s.moves[k] == Closing(a, b)
  }

  predicate PairsAreMoves(s: State) {
    forall a, b :: a in s.m.tunnels && b in s.m.tunnels && a < b && SamePair(s.m.tunnels[a], s.m.tunnels[b]) ==>
      Replacing(s, a, b)
  }

  predicate Safe(range: Range, s: State) {
    Ids(s) && Pointers(s) && Owner(s) && Exclusive(s) && Allocation(range, s) && AtMostTwo(s.m) && PairsAreMoves(s)
  }

  // ----- every step keeps them -----

  /** Only an insert and an unregister change the maps. */
  lemma MapsChange(range: Range, s: State, e: Event)
    requires Step(range, s, e).Some?
    ensures var t := Step(range, s, e).value;
            && (e.Insert? ==>
                  && s.creator.Some? && s.creator.value.phase.Bound?
                  && var c := s.creator.value;
                     t.m == Registered(s.m, Tunnel(c.node, c.preset, c.phase.protocol, c.phase.port)))
            && (e.Unregister? ==> e.id in s.m.tunnels && t.m == Unregistered(s.m, e.id))
            && (!e.Insert? && !e.Unregister? ==> t.m == s.m)
  {
  }

  lemma KeepsIds(range: Range, s: State, e: Event)
    requires Ids(s) && Step(range, s, e).Some?
    ensures Ids(Step(range, s, e).value)
  {
    MapsChange(range, s, e);
  }

  lemma MoveIdsKept(m: Maps, n: Maps, move: Move)
    requires MoveIds(m, move) && m.nextId <= n.nextId
    requires forall id :: id in n.tunnels && id < m.nextId ==> id in m.tunnels && n.tunnels[id] == m.tunnels[id]
    ensures MoveIds(n, move)
  {
  }

  lemma MapsGrow(range: Range, s: State, e: Event)
    requires Step(range, s, e).Some?
    ensures var n := Step(range, s, e).value.m;
            && s.m.nextId <= n.nextId
            && forall id :: id in n.tunnels && id < s.m.nextId ==> id in s.m.tunnels && n.tunnels[id] == s.m.tunnels[id]
  {
    MapsChange(range, s, e);
  }

  lemma KeepsPointers(range: Range, s: State, e: Event)
    requires Ids(s) && Owner(s) && Pointers(s) && Step(range, s, e).Some?
    ensures Pointers(Step(range, s, e).value)
  {
    var t := Step(range, s, e).value;
    MapsGrow(range, s, e);
    forall k | k in t.moves ensures MoveIds(t.m, t.moves[k]) {
      if k in s.moves {
        MoveIdsKept(s.m, t.m, s.moves[k]);
      }
    }
  }

  lemma KeepsOwner(range: Range, s: State, e: Event)
    requires Ids(s) && Pointers(s) && Owner(s) && Step(range, s, e).Some?
    ensures Owner(Step(range, s, e).value)
  {
  }

  lemma KeepsExclusive(range: Range, s: State, e: Event)
    requires Exclusive(s) && Step(range, s, e).Some?
    ensures Exclusive(Step(range, s, e).value)
  {
  }

  lemma KeepsAllocation(range: Range, s: State, e: Event)
    requires Allocation(range, s) && Step(range, s, e).Some?
    ensures Allocation(range, Step(range, s, e).value)
  {
  }

  /** A new tunnel joins at most one other of its pair. */
  lemma RegisteredAtMostTwo(m: Maps, t: Tunnel)
    requires FreshIds(m) && AtMostTwo(m)
    requires forall a, b :: a in m.tunnels && b in m.tunnels && SamePair(m.tunnels[a], t) && SamePair(m.tunnels[b], t) ==>
               a == b
    ensures AtMostTwo(Registered(m, t))
  {
  }

  lemma KeepsAtMostTwo(range: Range, s: State, e: Event)
    requires Ids(s) && Exclusive(s) && AtMostTwo(s.m) && Step(range, s, e).Some?
    ensures AtMostTwo(Step(range, s, e).value.m)
  {
    MapsChange(range, s, e);
    if e.Insert? {
      var c := s.creator.value;
      var t := Tunnel(c.node, c.preset, c.phase.protocol, c.phase.port);
      assert forall a :: a in s.m.tunnels && SamePair(s.m.tunnels[a], t) ==> Some(a) == c.allowed;
      RegisteredAtMostTwo(s.m, t);
    }
  }

  lemma ReplacingKept(range: Range, s: State, e: Event, a: nat, b: nat)
    requires Owner(s) && Step(range, s, e).Some? && Replacing(s, a, b)
    requires a in Step(range, s, e).value.m.tunnels
    ensures Replacing(Step(range, s, e).value, a, b)
  {
    var k :| k in s.moves && s.moves[k] == Closing(a, b);
    var t := Step(range, s, e).value;
    MapsChange(range, s, e);
    assert k in t.moves && t.moves[k] == Closing(a, b);
  }

  lemma KeepsPairs(range: Range, s: State, e: Event)
    requires Ids(s) && Pointers(s) && Owner(s) && Exclusive(s) && PairsAreMoves(s) && Step(range, s, e).Some?
    ensures PairsAreMoves(Step(range, s, e).value)
  {
    var t := Step(range, s, e).value;
    MapsChange(range, s, e);
    forall a, b | a in t.m.tunnels && b in t.m.tunnels && a < b && SamePair(t.m.tunnels[a], t.m.tunnels[b])
      ensures Replacing(t, a, b)
    {
      if b in s.m.tunnels {
        assert a in s.m.tunnels;
        ReplacingKept(range, s, e, a, b);
      } else {
        var c := s.creator.value;
        assert b == s.m.nextId && Some(a) == c.allowed;
        assert t.moves[c.owner.value] == Closing(a, b);
      }
    }
  }

  lemma StepIsSafe(range: Range, s: State, e: Event)
    requires Safe(range, s) && Step(range, s, e).Some?
    ensures Safe(range, Step(range, s, e).value)
  {
    KeepsIds(range, s, e);
    KeepsPointers(range, s, e);
    KeepsOwner(range, s, e);
    KeepsExclusive(range, s, e);
    KeepsAllocation(range, s, e);
    KeepsAtMostTwo(range, s, e);
    KeepsPairs(range, s, e);
  }

  // ----- runs from the empty registry -----

  predicate Init(s: State) {
    s == State(Maps(map[], map[], 0), {}, None, map[])
  }

  /** A run with its events; restoring saved tunnels is a run of creations that request a port. */
  ghost predicate Execution(range: Range, run: seq<State>, events: seq<Event>) {
    && |run| == |events| + 1 && Init(run[0])
    && forall i :: 0 <= i < |events| ==> Step(range, run[i], events[i]) == Some(run[i + 1])
  }

  lemma StepAt(range: Range, run: seq<State>, events: seq<Event>, i: nat)
    requires Execution(range, run, events) && i < |events|
    ensures Step(range, run[i], events[i]) == Some(run[i + 1])
  {
  }

  lemma {:induction false} Reachable(range: Range, run: seq<State>, events: seq<Event>, i: nat)
    requires Execution(range, run, events) && i < |run|
    ensures Safe(range, run[i])
  {
    if i > 0 {
      Reachable(range, run, events, i - 1);
      StepAt(range, run, events, i - 1);
      StepIsSafe(range, run[i - 1], events[i - 1]);
    }
  }

  /** Of each node and preset at most two tunnels are registered, and two only while one reassignment has registered
      the newer one and is waiting for the older one to be closed. */
  lemma ReassignmentSafety(range: Range, run: seq<State>, events: seq<Event>, i: nat)
    requires Execution(range, run, events) && i < |run|
    ensures AtMostTwo(run[i].m) && PairsAreMoves(run[i])
  {
    Reachable(range, run, events, i);
  }

  /** With no reassignment waiting for a close, every node and preset has at most one tunnel. */
  lemma QuietPairsAreSingle(range: Range, run: seq<State>, events: seq<Event>, i: nat, a: nat, b: nat)
    requires Execution(range, run, events) && i < |run|
    requires forall k :: k in run[i].moves ==> !run[i].moves[k].Closing?
    requires a in run[i].m.tunnels && b in run[i].m.tunnels && SamePair(run[i].m.tunnels[a], run[i].m.tunnels[b])
    ensures a == b
  {
    Reachable(range, run, events, i);
    assert !Replacing(run[i], a, b) && !Replacing(run[i], b, a);
  }

  // ----- the maps are inverse -----

  /** A tunnel is registered on a port that another one has. */
  predicate Overwrites(s: State, e: Event) {
    e.Insert? && s.creator.Some? && s.creator.value.phase.Bound? && s.creator.value.phase.port in s.m.ports
  }

  lemma StepInverse(range: Range, s: State, e: Event)
    requires Ids(s) && Inverse(s.m) && Step(range, s, e).Some?
    ensures Inverse(Step(range, s, e).value.m) <==> !Overwrites(s, e)
  {
    MapsChange(range, s, e);
    if e.Insert? {
      var c := s.creator.value;
      RegisteredInverse(s.m, Tunnel(c.node, c.preset, c.phase.protocol, c.phase.port));
    } else if e.Unregister? {
      UnregisteredInverse(s.m, e.id);
    }
  }

  lemma {:induction false} InverseWhile(range: Range, run: seq<State>, events: seq<Event>, i: nat)
    requires Execution(range, run, events) && i < |run|
    requires forall j :: 0 <= j < i ==> !Overwrites(run[j], events[j])
    ensures Inverse(run[i].m)
  {
    if i > 0 {
      InverseWhile(range, run, events, i - 1);
      Reachable(range, run, events, i - 1);
      StepAt(range, run, events, i - 1);
      StepInverse(range, run[i - 1], events[i - 1]);
    }
  }

  /** The maps are inverse throughout a run exactly when no tunnel was ever registered on the port of another. */
  lemma MapsAreInverse(range: Range, run: seq<State>, events: seq<Event>)
    requires Execution(range, run, events)
    ensures (forall i :: 0 <= i < |run| ==> Inverse(run[i].m))
            <==> (forall i :: 0 <= i < |events| ==> !Overwrites(run[i], events[i]))
  {
    if forall i :: 0 <= i < |run| ==> Inverse(run[i].m) {
      forall i | 0 <= i < |events| ensures !Overwrites(run[i], events[i]) {
        assert Inverse(run[i + 1].m);
        Reachable(range, run, events, i);
        StepAt(range, run, events, i);
        StepInverse(range, run[i], events[i]);
      }
    }
    if forall i :: 0 <= i < |events| ==> !Overwrites(run[i], events[i]) {
      forall i | 0 <= i < |run| ensures Inverse(run[i].m) {
        InverseWhile(range, run, events, i);
      }
    }
  }

  /** The check a caller can make: the requested port has no tunnel when the creation starts. */
  predicate Careful(s: State, e: Event) {
    e.StartCreate? && e.requested != 0 ==> e.requested !in s.m.ports
  }

  predicate RequestedIsFree(s: State) {
    s.creator.Some? && s.creator.value.requested != 0 ==>
      var c := s.creator.value;
      && c.requested !in s.m.ports
      && (c.phase.Trying? ==> c.phase.rest <= {c.requested})
      && (c.phase.Binding? || c.phase.Bound? ==> c.phase.port == c.requested)
  }

  lemma KeepsRequestedFree(range: Range, s: State, e: Event)
    requires Owner(s) && RequestedIsFree(s) && Careful(s, e) && Step(range, s, e).Some?
    ensures RequestedIsFree(Step(range, s, e).value)
  {
    MapsChange(range, s, e);
  }

  lemma {:induction false} CarefulRun(range: Range, run: seq<State>, events: seq<Event>, i: nat)
    requires Execution(range, run, events) && i < |run|
    requires forall j :: 0 <= j < i ==> Careful(run[j], events[j])
    ensures RequestedIsFree(run[i])
  {
    if i > 0 {
      CarefulRun(range, run, events, i - 1);
      Reachable(range, run, events, i - 1);
      StepAt(range, run, events, i - 1);
      KeepsRequestedFree(range, run[i - 1], events[i - 1]);
    }
  }

  /** Automatic ports, and requested ports that are free when the creation starts, keep the maps inverse in every
      interleaving. */
  lemma CarefulRunsAreInverse(range: Range, run: seq<State>, events: seq<Event>)
    requires Execution(range, run, events)
    requires forall i :: 0 <= i < |events| ==> Careful(run[i], events[i])
    ensures forall i :: 0 <= i < |run| ==> Inverse(run[i].m)
  {
    forall i | 0 <= i < |events| ensures !Overwrites(run[i], events[i]) {
      CarefulRun(range, run, events, i);
      Reachable(range, run, events, i);
    }
    MapsAreInverse(range, run, events);
  }

  /** Without that check the maps can come apart: a TCP and a UDP tunnel are restored on one port number. */
  lemma RestoredTwiceOnOnePort(range: Range) returns (run: seq<State>, events: seq<Event>)
    ensures Execution(range, run, events)
    ensures !Inverse(run[|run| - 1].m)
    ensures events == [
              StartCreate("n", "a", 7), Lookup(Some("tcp")), Scan, List, Check(7), Bind(true), Insert,
              StartCreate("n", "b", 7), Lookup(Some("udp")), Scan, List, Check(7), Bind(true), Insert]
  {
    var e := Maps(map[], map[], 0);
    var s0 := State(e, {}, None, map[]);
    var one, run1 := RestoreOne(range, s0, "a", "tcp");
    var two, run2 := RestoreOne(range, one, "b", "udp");
    run := run1 + run2[1..];
    events := RestoreEvents("a", "tcp") + RestoreEvents("b", "udp");
    forall i | 0 <= i < |events| ensures Step(range, run[i], events[i]) == Some(run[i + 1]) {
      if i < 7 {
        assert run[i] == run1[i] && run[i + 1] == run1[i + 1];
      } else {
        assert run[i] == run2[i - 7] && run[i + 1] == run2[i - 6];
      }
    }
    var t0, t1 := Tunnel("n", "a", "tcp", 7), Tunnel("n", "b", "udp", 7);
    assert run[|run| - 1].m == Registered(Registered(e, t0), t1);
    assert Inverse(Registered(e, t0)) by { RegisteredInverse(e, t0); }
    RegisteredInverse(Registered(e, t0), t1);
  }

  function RestoreEvents(preset: string, protocol: string): seq<Event> {
    [StartCreate("n", preset, 7), Lookup(Some(protocol)), Scan, List, Check(7), Bind(true), Insert]
  }

  lemma RestoreOne(range: Range, s: State, preset: string, protocol: string) returns (t: State, run: seq<State>)
    requires s.creator == None && s.moves == map[]
    requires forall id :: id in s.m.tunnels ==> s.m.tunnels[id].preset != preset
    ensures |run| == 8 && run[0] == s && run[7] == t
    ensures forall i :: 0 <= i < 7 ==> Step(range, run[i], RestoreEvents(preset, protocol)[i]) == Some(run[i + 1])
    ensures t == s.(m := Registered(s.m, Tunnel("n", preset, protocol, 7)))
  {
    var c := Creator("n", preset, 7, None, None, Looking);
    t := s.(m := Registered(s.m, Tunnel("n", preset, protocol, 7)));
    run := [s, s.(creator := Some(c)), AtPhase(s, c, Scanning(protocol)), AtPhase(s, c, Listing(protocol)),
            AtPhase(s, c, Trying(protocol, {7}, {7}, {})), AtPhase(s, c, Binding(protocol, {7}, {}, {}, 7)),
            AtPhase(s, c, Bound(protocol, 7)), t];
    assert {7} - {7} == {};
  }

  // ----- what a creation and a reassignment come to -----

  /** The scan of a creation ends it exactly if a tunnel with the same node and the same preset is registered, other than
      the one that is to be replaced; otherwise the creation goes on, and the maps stay as they are either way. */
  lemma ScanDecides(range: Range, s: State, c: Creator, protocol: string)
    requires s.creator == Some(c) && c.phase == Scanning(protocol)
    ensures Step(range, s, Scan).Some? && Step(range, s, Scan).value.m == s.m
    ensures var blocked := exists id :: id in s.m.tunnels && s.m.tunnels[id].node == c.node
                                        && s.m.tunnels[id].preset == c.preset && c.allowed != Some(id);
            Step(range, s, Scan).value.creator == if blocked then None else Some(c.(phase := Listing(protocol)))
  {
  }

  /** The steps of one creation behind its start, and all of them. */
  function CreatorEvents(protocol: string, port: int): seq<Event> {
    [Lookup(Some(protocol)), Scan, List, Check(port), Bind(true), Insert]
  }

  ghost predicate Follows(range: Range, run: seq<State>, events: seq<Event>) {
    |run| == |events| + 1 && forall i :: 0 <= i < |events| ==> Step(range, run[i], events[i]) == Some(run[i + 1])
  }

  lemma FollowsOn(range: Range, run: seq<State>, events: seq<Event>, more: seq<State>, later: seq<Event>)
    requires Follows(range, run, events) && Follows(range, more, later) && more[0] == run[|events|]
    ensures Follows(range, run + more[1..], events + later)
  {
    var all := run + more[1..];
    forall i | 0 <= i < |events + later| ensures Step(range, all[i], (events + later)[i]) == Some(all[i + 1]) {
      if i >= |events| {
        assert all[i] == more[i - |events|] && all[i + 1] == more[i - |events| + 1];
      }
    }
  }

  /** A port that may be bound: the requested one, or one of the range without a tunnel. */
  predicate MayBind(range: Range, m: Maps, requested: int, port: int) {
    if requested != 0 then port == requested else range.first <= port <= range.last && port !in m.ports
  }

  /** A creation that nothing blocks goes on to register its tunnel, on any port that may be bound. */
  lemma CreatorSteps(range: Range, s: State, c: Creator, protocol: string, port: int) returns (run: seq<State>)
    requires s.creator == Some(c) && c.phase == Looking && MayBind(range, s.m, c.requested, port)
    requires forall id :: id in s.m.tunnels && s.m.tunnels[id].node == c.node && s.m.tunnels[id].preset == c.preset ==>
               c.allowed == Some(id)
    ensures Follows(range, run, CreatorEvents(protocol, port)) && run[0] == s
    ensures run[6].m == Maps(s.m.tunnels[s.m.nextId := Tunnel(c.node, c.preset, protocol, port)],
                             s.m.ports[port := s.m.nextId], s.m.nextId + 1)
    ensures run[6].creator == None && run[6].closing == s.closing
    ensures run[6].moves == if c.owner.None? || c.allowed.None? then s.moves
                            else s.moves[c.owner.value := Closing(c.allowed.value, s.m.nextId)]
  {
    var free := Candidates(range, s.m, c.requested);
    var last := s.(m := Registered(s.m, Tunnel(c.node, c.preset, protocol, port)), creator := None,
                   moves := if c.owner.None? || c.allowed.None? then s.moves
                            else s.moves[c.owner.value := Closing(c.allowed.value, s.m.nextId)]);
    run := [s, AtPhase(s, c, Scanning(protocol)), AtPhase(s, c, Listing(protocol)),
            AtPhase(s, c, Trying(protocol, free, free, {})), AtPhase(s, c, Binding(protocol, free, free - {port}, {}, port)),
            AtPhase(s, c, Bound(protocol, port)), last];
  }

  /** Without interference a creation registers a tunnel of its node and preset if no tunnel of both is registered, on
      any port that may be bound. */
  lemma CreationRegisters(range: Range, s: State, node: string, preset: string, requested: int, protocol: string, port: int)
    returns (run: seq<State>)
    requires s.creator == None && MayBind(range, s.m, requested, port)
    requires forall id :: id in s.m.tunnels && s.m.tunnels[id].node == node ==> s.m.tunnels[id].preset != preset
    ensures Follows(range, run, [StartCreate(node, preset, requested)] + CreatorEvents(protocol, port)) && run[0] == s
    ensures run[7] == s.(m := Maps(s.m.tunnels[s.m.nextId := Tunnel(node, preset, protocol, port)],
                                   s.m.ports[port := s.m.nextId], s.m.nextId + 1))
  {
    var c := Creator(node, preset, requested, None, None, Looking);
    var a := s.(creator := Some(c));
    var rest := CreatorSteps(range, a, c, protocol, port);
    run := [s] + rest;
    FollowsOn(range, [s, a], [StartCreate(node, preset, requested)], rest, CreatorEvents(protocol, port));
    assert run == [s, a] + rest[1..];
  }

  /** The last steps of a reassignment: the tunnel it replaces is closed. */
  lemma ReplacedIsClosed(range: Range, s: State, k: nat, id: nat, replacement: nat) returns (run: seq<State>)
    requires k in s.moves && s.moves[k] == Closing(id, replacement)
    requires id in s.m.tunnels && id !in s.closing && Inverse(s.m)
    ensures Follows(range, run, [StartClose(id), Unregister(id), FinishReassign(k)]) && run[0] == s
    ensures run[3] == s.(m := s.m.(tunnels := s.m.tunnels - {id}, ports := s.m.ports - {s.m.tunnels[id].port}),
                         moves := s.moves - {k})
  {
    var a := s.(closing := s.closing + {id});
    var b := s.(m := s.m.(tunnels := s.m.tunnels - {id}, ports := s.m.ports - {s.m.tunnels[id].port}));
    assert a.closing - {id} == s.closing;
    run := [s, a, b, b.(moves := s.moves - {k})];
  }

  /** A reassignment has its replacement registered while the tunnel it replaces is still there. */
  lemma ReplacementIsRegistered(range: Range, s: State, k: nat, id: nat, protocol: string, port: int)
    returns (run: seq<State>)
    requires s.creator == None && k !in s.moves && id in s.m.tunnels && MayBind(range, s.m, 0, port)
    requires forall other :: other in s.m.tunnels && other != id ==>
               s.m.tunnels[other].node != s.m.tunnels[id].node || s.m.tunnels[other].preset != s.m.tunnels[id].preset
    ensures Follows(range, run, [StartReassign(k, id), CreateReplacement(k)] + CreatorEvents(protocol, port)) && run[0] == s
    ensures var t := Tunnel(s.m.tunnels[id].node, s.m.tunnels[id].preset, protocol, port);
            run[8] == s.(m := Maps(s.m.tunnels[s.m.nextId := t], s.m.ports[port := s.m.nextId], s.m.nextId + 1),
                         moves := s.moves[k := Closing(id, s.m.nextId)])
  {
    var t := s.m.tunnels[id];
    var a := s.(moves := s.moves[k := Fetched(id, t)]);
    var c := Creator(t.node, t.preset, 0, Some(id), Some(k), Looking);
    var b := s.(creator := Some(c), moves := s.moves[k := Creating(id)]);
    assert a.moves[k := Creating(id)] == b.moves;
    var rest := CreatorSteps(range, b, c, protocol, port);
    assert b.moves[k := Closing(id, s.m.nextId)] == s.moves[k := Closing(id, s.m.nextId)];
    FollowsOn(range, [s, a, b], [StartReassign(k, id), CreateReplacement(k)], rest, CreatorEvents(protocol, port));
    run := [s, a, b] + rest[1..];
  }

  /** Without interference a reassignment replaces a tunnel by one of the same node and preset on another port, if no
      other tunnel has both. Tunnels of other nodes or other presets do not matter. */
  lemma ReassignmentReplaces(range: Range, s: State, k: nat, id: nat, protocol: string, port: int)
    returns (run: seq<State>, events: seq<Event>)
    requires s.creator == None && k !in s.moves && id in s.m.tunnels && id !in s.closing && MayBind(range, s.m, 0, port)
    requires Inverse(s.m) && FreshIds(s.m)
    requires forall other :: other in s.m.tunnels && other != id ==>
               s.m.tunnels[other].node != s.m.tunnels[id].node || s.m.tunnels[other].preset != s.m.tunnels[id].preset
    ensures events == [StartReassign(k, id), CreateReplacement(k)] + CreatorEvents(protocol, port)
                      + [StartClose(id), Unregister(id), FinishReassign(k)]
    ensures Follows(range, run, events) && run[0] == s
    ensures var t := s.m.tunnels[id];
            run[11] ==
              s.(m := Maps(s.m.tunnels[s.m.nextId := Tunnel(t.node, t.preset, protocol, port)] - {id},
                           s.m.ports[port := s.m.nextId] - {t.port}, s.m.nextId + 1))
  {
    var t := s.m.tunnels[id];
    run := ReplacementIsRegistered(range, s, k, id, protocol, port);
    events := [StartReassign(k, id), CreateReplacement(k)] + CreatorEvents(protocol, port);
    RegisteredInverse(s.m, Tunnel(t.node, t.preset, protocol, port));
    var last := ReplacedIsClosed(range, run[8], k, id, s.m.nextId);
    assert s.moves[k := Closing(id, s.m.nextId)] - {k} == s.moves;
    var later := [StartClose(id), Unregister(id), FinishReassign(k)];
    FollowsOn(range, run, events, last, later);
    assert (run + last[1..])[11] == last[3];
    run, events := run + last[1..], events + later;
  }

  // ----- automatic allocation -----

  /** An automatically chosen port is in the range and has no tunnel at the moment it is registered. */
  lemma AllocatedPortIsFree(range: Range, run: seq<State>, events: seq<Event>, i: nat)
    requires Execution(range, run, events) && i < |events|
    requires events[i].Insert? && run[i].creator.Some? && run[i].creator.value.requested == 0
    ensures run[i].creator.value.phase.Bound?
    ensures run[i].creator.value.phase.port in FreePorts(range, run[i].m.ports)
  {
    Reachable(range, run, events, i);
    StepAt(range, run, events, i);
    MapsChange(range, run[i], events[i]);
  }

  /** Of the current creation: step `j` listed the candidates, and each refused one failed to bind since. */
  ghost predicate Tried(range: Range, run: seq<State>, events: seq<Event>, i: nat, j: nat, free: set<int>,
          refused: set<int>)
    requires |run| == |events| + 1 && i < |run|
  {
    && j < i && events[j].List? && free == FreePorts(range, run[j].m.ports)
    && forall p :: p in refused ==> FailedSince(run, events, i, j, p)
  }

  ghost predicate FailedSince(run: seq<State>, events: seq<Event>, i: nat, j: nat, port: int)
    requires |run| == |events| + 1 && i < |run|
  {
    exists n: nat :: j < n < i && FailsToBind(run[n], events[n], port)
  }

  predicate FailsToBind(s: State, e: Event, port: int) {
    s.creator.Some? && s.creator.value.phase.Binding? && s.creator.value.phase.port == port && e == Bind(false)
  }

  predicate Trial(s: State) {
    s.creator.Some? && s.creator.value.requested == 0 && (s.creator.value.phase.Trying? || s.creator.value.phase.Binding?)
  }

  lemma FailedLater(run: seq<State>, events: seq<Event>, i: nat, j: nat, port: int)
    requires |run| == |events| + 1 && i + 1 < |run| && FailedSince(run, events, i, j, port)
    ensures FailedSince(run, events, i + 1, j, port)
  {
    var n: nat :| j < n < i && FailsToBind(run[n], events[n], port);
    assert FailsToBind(run[n], events[n], port);
  }

  /** What one step does to the record of a trial. */
  lemma TrialStep(range: Range, s: State, e: Event)
    requires Step(range, s, e).Some? && Trial(Step(range, s, e).value)
    ensures var d := Step(range, s, e).value.creator.value.phase;
            if Trial(s) then
              var c := s.creator.value.phase;
              && d.free == c.free
              && forall p :: p in d.refused ==> p in c.refused || FailsToBind(s, e, p)
            else e.List? && d.free == FreePorts(range, s.m.ports) && d.refused == {}
  {
  }

  lemma {:induction false} TrialRecord(range: Range, run: seq<State>, events: seq<Event>, i: nat) returns (j: nat)
    requires Execution(range, run, events) && i < |run| && Trial(run[i])
    ensures Tried(range, run, events, i, j, run[i].creator.value.phase.free, run[i].creator.value.phase.refused)
  {
    var d := run[i].creator.value.phase;
    StepAt(range, run, events, i - 1);
    TrialStep(range, run[i - 1], events[i - 1]);
    if Trial(run[i - 1]) {
      j := TrialRecord(range, run, events, i - 1);
      forall p | p in d.refused ensures FailedSince(run, events, i, j, p) {
        if FailsToBind(run[i - 1], events[i - 1], p) {
          assert j < i - 1;
        } else {
          FailedLater(run, events, i - 1, j, p);
        }
      }
    } else {
      j := i - 1;
    }
  }

  /** Automatic allocation gives up only after every port that was free when the candidates were listed refused to bind. */
  lemma ExhaustedOnlyIfAllRefused(range: Range, run: seq<State>, events: seq<Event>, i: nat) returns (j: nat)
    requires Execution(range, run, events) && i < |events|
    requires events[i].GiveUp? && run[i].creator.Some? && run[i].creator.value.requested == 0
    ensures j < i && events[j].List?
    ensures forall p :: p in FreePorts(range, run[j].m.ports) ==> FailedSince(run, events, i, j, p)
  {
    Reachable(range, run, events, i);
    StepAt(range, run, events, i);
    j := TrialRecord(range, run, events, i);
  }
}
