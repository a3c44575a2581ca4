/**
 What the client's run loop comes to: which sessions it works with, and where it gets from the places it can be in when
 nothing interferes. Together with the invariants of the protocol: a valid configuration gets a session, an invalid one
 waits, a cancelled session makes way for the next one at once, and a shutdown ends the loop.
 */
module ClientLoop {
  import opened Basics
  import opened ClientConfig
  import opened ManagedEdits
  import opened ClientProtocol

  // ----- the configurations of sessions -----

  function SessionOf(loop: Loop): Option<Session> {
    match loop
    case Starting(x) => Some(x)
    case Running(x) => Some(x)
    case Reporting(x, _) => Some(x)
    case Ended(x) => Some(x)
    case Sampling(x, _) => Some(x)
    case Sampled(x, _) => Some(x)
    case Released(x, _) => Some(x)
    case _ => None
  }

  predicate LoopIsValid(ops: Ops, s: State) {
    SessionOf(s.loop).Some? ==> ops.valid(SessionOf(s.loop).value.cfg)
  }

  predicate SessionIsValid(ops: Ops, s: State) {
    s.h.session.Some? ==> ops.valid(s.h.session.value.cfg)
  }

  lemma LoopKeepsLoopValid(ops: Ops, s: State, t: State)
    requires LoopIsValid(ops, s) && LoopStep(ops, s, t)
    ensures LoopIsValid(ops, t)
  {
  }

  lemma LoopKeepsSessionValid(ops: Ops, s: State, t: State)
    requires SessionIsValid(ops, s) && LoopStep(ops, s, t)
    ensures SessionIsValid(ops, t)
  {
  }

  lemma InstallKeepsValid(ops: Ops, s: State, t: State)
    requires LoopIsValid(ops, s) && SessionIsValid(ops, s) && InstallStep(s, t)
    ensures LoopIsValid(ops, t) && SessionIsValid(ops, t)
  {
  }

  lemma PersistKeepsValid(ops: Ops, s: State, t: State)
    requires LoopIsValid(ops, s) && SessionIsValid(ops, s) && PersistStep(ops, s, t)
    ensures LoopIsValid(ops, t) && SessionIsValid(ops, t)
  {
  }

  lemma SectionKeepsValid(ops: Ops, s: State, t: State)
    requires LoopIsValid(ops, s) && SessionIsValid(ops, s) && (WebStep(ops, s, t) || ServersStep(ops, s, t) || LockStep(s, t))
    ensures LoopIsValid(ops, t) && SessionIsValid(ops, t)
  {
  }

  lemma RequestKeepsValid(ops: Ops, s: State, t: State, k: nat)
    requires LoopIsValid(ops, s) && SessionIsValid(ops, s) && RequestStep(s, t, k)
    ensures LoopIsValid(ops, t) && SessionIsValid(ops, t)
  {
  }

  lemma StepKeepsValid(ops: Ops, s: State, t: State)
    requires LoopIsValid(ops, s) && SessionIsValid(ops, s) && Next(ops, s, t)
    ensures LoopIsValid(ops, t) && SessionIsValid(ops, t)
  {
    if LoopStep(ops, s, t) {
      LoopKeepsLoopValid(ops, s, t);
      LoopKeepsSessionValid(ops, s, t);
    } else if InstallStep(s, t) {
      InstallKeepsValid(ops, s, t);
    } else if PersistStep(ops, s, t) {
      PersistKeepsValid(ops, s, t);
    } else if WebStep(ops, s, t) || ServersStep(ops, s, t) || LockStep(s, t) {
      SectionKeepsValid(ops, s, t);
    } else if k :| RequestStep(s, t, k) {
      RequestKeepsValid(ops, s, t, k);
    }
  }

  /** In every run, the session the loop starts, runs or ends, and the installed one, work with an accepted
      configuration. */
  lemma {:induction false} SessionsAreValid(ops: Ops, run: seq<State>, i: nat)
    requires Execution(ops, run) && i < |run|
    ensures LoopIsValid(ops, run[i]) && SessionIsValid(ops, run[i])
  {
    if i > 0 {
      SessionsAreValid(ops, run, i - 1);
      assert Next(ops, run[i - 1], run[i]);
      StepKeepsValid(ops, run[i - 1], run[i]);
    }
  }

  // ----- runs without interference -----

  ghost predicate Path(ops: Ops, run: seq<State>) {
    |run| > 0 && forall i :: 0 <= i < |run| - 1 ==> Next(ops, run[i], run[i + 1])
  }

  /** A path from one state to another. */
  ghost predicate Leads(ops: Ops, run: seq<State>, s: State, t: State) {
    Path(ops, run) && run[0] == s && run[|run| - 1] == t
  }

  lemma Joined(ops: Ops, a: seq<State>, b: seq<State>, s: State, t: State, u: State)
    requires Leads(ops, a, s, t) && Leads(ops, b, t, u)
    ensures Leads(ops, a + b[1..], s, u)
  {
    var run := a + b[1..];
    forall i | 0 <= i < |run| - 1 ensures Next(ops, run[i], run[i + 1]) {
      if i < |a| - 1 {
        assert run[i] == a[i] && run[i + 1] == a[i + 1];
      } else {
        assert run[i] == b[i - (|a| - 1)] && run[i + 1] == b[i - (|a| - 1) + 1];
      }
    }
  }

  lemma OneStep(ops: Ops, s: State, t: State)
    requires Next(ops, s, t)
    ensures Leads(ops, [s, t], s, t)
  {
  }

  lemma OneLoopStep(ops: Ops, s: State, t: State)
    requires s.section == Free && LoopStep(ops, s, t)
    ensures Leads(ops, [s, t], s, t)
  {
    OneStep(ops, s, t);
  }

  /** The loop takes the pending signal and reads the configuration with its revision. */
  lemma ReadsConfiguration(ops: Ops, s: State) returns (run: seq<State>)
    requires s.loop == Top && s.section == Free && !s.h.shutdown
    ensures Leads(ops, run, s, s.(h := s.h.(restart := false), loop := Checking(s.h.cfg, s.h.revision)))
  {
    var a := s.(loop := Draining);
    var b := a.(h := a.h.(restart := false), loop := Reading);
    var c := b.(loop := Checking(s.h.cfg, s.h.revision));
    OneLoopStep(ops, s, a);
    OneLoopStep(ops, a, b);
    OneLoopStep(ops, b, c);
    Joined(ops, [s, a], [a, b], s, a, b);
    run := [s, a] + [a, b][1..];
    Joined(ops, run, [b, c], s, b, c);
    run := run + [b, c][1..];
  }

  /** A session of the current revision is installed. */
  lemma Installs(ops: Ops, s: State, x: Session) returns (run: seq<State>)
    requires s.loop == Starting(x) && s.section == Free && x.revision == s.h.revision
    ensures Leads(ops, run, s, s.(h := s.h.(connected := None, session := Some(x)), loop := Running(x)))
  {
    var a := s.(section := Install);
    var b := s.(section := InstallFresh);
    var c := s.(h := s.h.(connected := None), section := InstallSet);
    var d := c.(h := c.h.(session := Some(x)), section := InstallDone(false));
    var e := d.(section := Free, loop := Running(x));
    OneLoopStep(ops, s, a);
    OneStep(ops, a, b);
    OneStep(ops, b, c);
    OneStep(ops, c, d);
    OneStep(ops, d, e);
    Joined(ops, [s, a], [a, b], s, a, b);
    run := [s, a] + [a, b][1..];
    Joined(ops, run, [b, c], s, b, c);
    run := run + [b, c][1..];
    Joined(ops, run, [c, d], s, c, d);
    run := run + [c, d][1..];
    Joined(ops, run, [d, e], s, d, e);
    run := run + [d, e][1..];
  }

  /** With a valid configuration the loop, left alone, gets to run a session of that configuration and revision, which is
      installed then. */
  lemma ValidConfigGetsSession(ops: Ops, s: State) returns (run: seq<State>, x: Session)
    requires s.loop == Top && s.section == Free && !s.h.shutdown && ops.valid(s.h.cfg)
    ensures x.cfg == s.h.cfg && x.revision == s.h.revision
    ensures Leads(ops, run, s,
                  s.(h := s.h.(restart := false, connected := None, session := Some(x)), loop := Running(x), nextId := s.nextId + 1))
  {
    x := Session(s.nextId, s.h.cfg, s.h.revision);
    run := ReadsConfiguration(ops, s);
    var a := run[|run| - 1];
    var b := a.(loop := Starting(x), nextId := s.nextId + 1);
    OneLoopStep(ops, a, b);
    Joined(ops, run, [a, b], s, a, b);
    run := run + [a, b][1..];
    var install := Installs(ops, b, x);
    Joined(ops, run, install, s, b, install[|install| - 1]);
    run := run + install[1..];
  }

  /** With an invalid one it waits for another configuration, and no session is installed. */
  lemma InvalidConfigWaits(ops: Ops, s: State) returns (run: seq<State>)
    requires s.loop == Top && s.section == Free && !s.h.shutdown && !ops.valid(s.h.cfg)
    ensures Leads(ops, run, s, s.(h := s.h.(restart := false, connected := None), loop := Waiting(s.h.revision)))
  {
    run := ReadsConfiguration(ops, s);
    var a := run[|run| - 1];
    var b := a.(loop := Idling(s.h.revision));
    var c := b.(h := b.h.(connected := None), loop := Waiting(s.h.revision));
    OneLoopStep(ops, a, b);
    OneLoopStep(ops, b, c);
    Joined(ops, run, [a, b], s, a, b);
    run := run + [a, b][1..];
    Joined(ops, run, [b, c], s, b, c);
    run := run + [b, c][1..];
  }

  /** Where the loop goes when a session has ended: after a shutdown it stops, after a change it starts over at once, and
      otherwise it waits to try again. */
  function NextAfter(h: Shared, x: Session): Loop {
    if h.shutdown then Stopped else if x.id in h.cancelled then Top else Waiting(x.revision)
  }

  /** The installed session is removed only if it is this one. */
  function Without(h: Shared, x: Session): Option<Session> {
    if h.session.Some? && h.session.value.id == x.id then None else h.session
  }

  /** An ended session is cancelled and no longer installed; another one stays. */
  function WithoutSession(h: Shared, x: Session): Shared {
    h.(cancelled := h.cancelled + {x.id}, session := Without(h, x),
       connected := if h.shutdown then h.connected else None)
  }

  lemma Uninstalls(ops: Ops, s: State, x: Session, changed: bool) returns (run: seq<State>)
    requires s.loop == Sampled(x, changed) && s.section == Free
    ensures Leads(ops, run, s,
                  s.(h := s.h.(cancelled := s.h.cancelled + {x.id}, session := Without(s.h, x)), loop := Cleared(x.revision, changed)))
  {
    var a := s.(h := s.h.(cancelled := s.h.cancelled + {x.id}), loop := Released(x, changed));
    var b := a.(h := a.h.(session := Without(s.h, x)), loop := Cleared(x.revision, changed));
    OneLoopStep(ops, s, a);
    OneLoopStep(ops, a, b);
    Joined(ops, [s, a], [a, b], s, a, b);
    run := [s, a] + [a, b][1..];
  }

  lemma GoesOn(ops: Ops, s: State, revision: nat, changed: bool) returns (run: seq<State>)
    requires s.loop == Cleared(revision, changed) && s.section == Free && (changed ==> !s.h.shutdown)
    ensures Leads(ops, run, s,
                  s.(h := s.h.(connected := if s.h.shutdown then s.h.connected else None),
                     loop := if s.h.shutdown then Stopped else if changed then Top else Waiting(revision)))
  {
    var a := s.(h := s.h.(connected := if s.h.shutdown then s.h.connected else None), loop := After(revision, changed));
    var b := a.(loop := if s.h.shutdown then Stopped else if changed then Top else Waiting(revision));
    OneLoopStep(ops, s, a);
    OneLoopStep(ops, a, b);
    Joined(ops, [s, a], [a, b], s, a, b);
    run := [s, a] + [a, b][1..];
  }

  /** When a running session ends, the loop takes it out and goes on as it should. */
  lemma SessionMakesWay(ops: Ops, s: State, x: Session) returns (run: seq<State>)
    requires s.loop == Running(x) && s.section == Free
    ensures Leads(ops, run, s, s.(h := WithoutSession(s.h, x), loop := NextAfter(s.h, x)))
  {
    var a := s.(loop := Ended(x));
    var b := s.(loop := Sampling(x, x.id in s.h.cancelled || s.h.shutdown));
    var changed := x.id in s.h.cancelled && !s.h.shutdown;
    var c := s.(loop := Sampled(x, changed));
    OneLoopStep(ops, s, a);
    OneLoopStep(ops, a, b);
    OneLoopStep(ops, b, c);
    Joined(ops, [s, a], [a, b], s, a, b);
    run := [s, a] + [a, b][1..];
    Joined(ops, run, [b, c], s, b, c);
    run := run + [b, c][1..];
    var out := Uninstalls(ops, c, x, changed);
    var d := out[|out| - 1];
    Joined(ops, run, out, s, c, d);
    run := run + out[1..];
    var on := GoesOn(ops, d, x.revision, changed);
    Joined(ops, run, on, s, d, on[|on| - 1]);
    run := run + on[1..];
  }

  /** A signal ends a wait; it is taken, and the loop starts over. */
  lemma SignalEndsWait(ops: Ops, s: State)
    requires s.loop.Waiting? && s.section == Free && s.h.restart
    ensures var t := s.(h := s.h.(restart := false), loop := Top); Leads(ops, [s, t], s, t)
  {
    OneLoopStep(ops, s, s.(h := s.h.(restart := false), loop := Top));
  }

  /** A shutdown may come at any time, and changes nothing else. */
  lemma ShutdownMayCome(ops: Ops, s: State)
    ensures var t := s.(h := s.h.(shutdown := true)); Leads(ops, [s, t], s, t)
  {
    OneStep(ops, s, s.(h := s.h.(shutdown := true)));
  }

  /** After a shutdown a loop that waits or starts over has stopped with its next step. */
  lemma ShutdownStops(ops: Ops, s: State)
    requires (s.loop.Waiting? || s.loop == Top) && s.section == Free && s.h.shutdown
    ensures Leads(ops, [s, s.(loop := Stopped)], s, s.(loop := Stopped))
  {
    OneLoopStep(ops, s, s.(loop := Stopped));
  }

  /** A wait ends by itself too. */
  lemma TimeEndsWait(ops: Ops, s: State)
    requires s.loop.Waiting? && s.section == Free
    ensures Leads(ops, [s, s.(loop := Top)], s, s.(loop := Top))
  {
    OneLoopStep(ops, s, s.(loop := Top));
  }

  /** What a running session reports is shown while its revision is the current one, and dropped afterwards; the time of the
      first connection is kept. */
  lemma SessionReports(ops: Ops, s: State, x: Session)
    requires s.loop == Running(x) && s.section == Free
    ensures var t := s.(h := s.h.(connected := if x.revision == s.h.revision && s.h.connected == None then Some(x.revision)
                                               else s.h.connected));
            Leads(ops, [s, t], s, t)
    ensures var t := s.(h := s.h.(assignments := if x.revision == s.h.revision then Some(x.revision) else s.h.assignments));
            Leads(ops, [s, t], s, t)
  {
    OneLoopStep(ops, s, s.(h := MarkConnected(s.h, x.revision)));
    OneLoopStep(ops, s, s.(h := UpdateAssignments(s.h, x.revision)));
  }

  /** A running session may be issued a credential; an empty one is dropped. */
  lemma SessionIsIssued(ops: Ops, s: State, x: Session, issued: string)
    requires s.loop == Running(x) && s.section == Free
    ensures var t := s.(loop := Reporting(x, issued), grants := s.grants + {Grant(x.cfg, ops.trim(issued))});
            && Leads(ops, [s, t], s, t)
            && (ops.trim(issued) == "" ==> Leads(ops, [t, t.(loop := Running(x))], t, t.(loop := Running(x))))
  {
    var t := s.(loop := Reporting(x, issued), grants := s.grants + {Grant(x.cfg, ops.trim(issued))});
    OneLoopStep(ops, s, t);
    if ops.trim(issued) == "" {
      OneLoopStep(ops, t, t.(loop := Running(x)));
    }
  }
}
