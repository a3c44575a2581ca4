/** What connections, datagram sources and the close of a tunnel come to when nothing interferes. */
module ConnectionRuns {
  import opened Connections

  ghost predicate Follows(run: seq<State>, events: seq<Event>) {
    && |run| == |events| + 1
    && forall i :: 0 <= i < |events| ==> Enabled(run[i], events[i]) && run[i + 1] == Apply(run[i], events[i])
  }

  /** A connection the tunnel has not seen. */
  ghost predicate IsNew(s: State, c: nat) {
    c !in s.fate && c !in s.pending && c !in s.uncounted && c !in s.begun && c !in s.transferring
  }

  /** A connection of a serving tunnel is counted, attached and transferred; afterwards only the total has grown. */
  lemma AttachedConnection(s: State, c: nat) returns (run: seq<State>)
    requires s.close == Serving && IsNew(s, c) && s.active >= 0
    ensures Follows(run, [Insert(c), Count(c), Attach(c), Begin(c), End(c)]) && run[0] == s
    ensures run[2].pending == s.pending + {c} && run[4].active == s.active + 1 && run[4].transferring == s.transferring + {c}
    ensures run[5] == s.(fate := s.fate[c := Attached], begun := s.begun + {c}, total := s.total + 1)
  {
    var a := s.(pending := s.pending + {c}, fate := s.fate[c := Waiting], uncounted := s.uncounted + {c});
    var b := s.(pending := s.pending + {c}, fate := s.fate[c := Waiting], total := s.total + 1);
    assert s.uncounted + {c} - {c} == s.uncounted;
    var d := s.(fate := s.fate[c := Attached], total := s.total + 1);
    assert s.pending + {c} - {c} == s.pending && s.fate[c := Waiting][c := Attached] == s.fate[c := Attached];
    var e := d.(begun := s.begun + {c}, transferring := s.transferring + {c}, active := s.active + 1);
    assert s.transferring + {c} - {c} == s.transferring;
    run := [s, a, b, d, e, e.(transferring := s.transferring, active := s.active)];
  }

  /** One that is not attached in time fails, and is counted all the same. */
  lemma FailedConnection(s: State, c: nat) returns (run: seq<State>)
    requires s.close == Serving && IsNew(s, c)
    ensures Follows(run, [Insert(c), Fail(c), Count(c)]) && run[0] == s
    ensures run[3] == s.(fate := s.fate[c := Failed], total := s.total + 1)
  {
    var a := s.(pending := s.pending + {c}, fate := s.fate[c := Waiting], uncounted := s.uncounted + {c});
    var b := s.(fate := s.fate[c := Failed], uncounted := s.uncounted + {c});
    assert s.pending + {c} - {c} == s.pending && s.fate[c := Waiting][c := Failed] == s.fate[c := Failed];
    assert s.uncounted + {c} - {c} == s.uncounted;
    run := [s, a, b, s.(fate := s.fate[c := Failed], total := s.total + 1)];
  }

  /** A connection of a closed tunnel is turned away and not counted. */
  lemma RejectedConnection(s: State, c: nat)
    requires s.close != Serving && c !in s.fate
    ensures Follows([s, s.(fate := s.fate[c := Rejected])], [Insert(c)])
  {
  }

  /** The first datagram of a source opens a session, which counts as active. */
  lemma NewSource(s: State, key: string)
    requires key !in s.udp
    ensures var id := s.nextSession;
            Follows([s, s.(udp := s.udp[key := id], sessions := s.sessions[id := Session(key, Open)], live := s.live + {id},
                           nextSession := id + 1, active := s.active + 1, total := s.total + 1)],
                    [Datagram(key)])
  {
  }

  /** A session that is closed leaves the table and is no longer counted as active. */
  lemma ClosedSession(s: State, id: nat) returns (run: seq<State>)
    requires id in s.sessions && s.sessions[id].stage == Open && s.active > 0
    ensures Follows(run, [MarkSession(id), RemoveSession(id), FinishSession(id)]) && run[0] == s
    ensures run[3] == s.(sessions := s.sessions[id := Session(s.sessions[id].key, Finished)],
                         udp := s.udp - {s.sessions[id].key}, live := s.live - {id}, active := s.active - 1)
  {
    var key := s.sessions[id].key;
    var a := s.(sessions := s.sessions[id := Session(key, Marked)]);
    var b := s.(sessions := s.sessions[id := Session(key, Removed)], udp := s.udp - {key});
    assert a.sessions[id := Session(key, Removed)] == b.sessions;
    assert b.sessions[id := Session(key, Finished)] == s.sessions[id := Session(key, Finished)];
    run := [s, a, b, b.(sessions := s.sessions[id := Session(key, Finished)], live := s.live - {id}, active := s.active - 1)];
  }

  /** A later one uses the session there is. */
  lemma KnownSource(s: State, key: string)
    requires key in s.udp
    ensures Follows([s, s], [Datagram(key)])
  {
  }

  /** A close drains the waiting connections and then takes the sessions out of their table. */
  lemma ClosedTunnel(s: State) returns (run: seq<State>)
    requires s.close == Serving && s.pending <= s.fate.Keys
    ensures Follows(run, [MarkClosed, DrainPending, TakeSessions]) && run[0] == s
    ensures run[3] == s.(close := SessionsTaken, pending := {}, udp := map[], fate := run[3].fate)
    ensures run[3].fate.Keys == s.fate.Keys
    ensures forall c :: c in s.fate ==> run[3].fate[c] == if c in s.pending then Drained else s.fate[c]
  {
    var a := s.(close := ClosedMarked);
    var b := s.(close := PendingDrained, pending := {}, fate := Drain(s.fate, s.pending));
    run := [s, a, b, b.(close := SessionsTaken, udp := map[])];
  }

  /** Stored counters replace the total and nothing else. */
  lemma TotalIsRestored(s: State, saved: nat)
    ensures Follows([s, s.(total := saved)], [RestoreTotal(saved)])
  {
  }

  /** A count that was not positive would be noticed when it goes down, and set to zero. */
  lemma NegativeCountIsReset(s: State, c: nat)
    requires c in s.transferring && s.active <= 0 && s.clamping >= 0
    ensures var a := s.(transferring := s.transferring - {c}, active := s.active - 1, clamping := s.clamping + 1);
            Follows([s, a, a.(active := 0, clamping := s.clamping)], [End(c), Clamp])
  {
  }
}
