/**
 What the sections under the client's update lock come to when nothing interferes: a settings request, a credential
 reply, an edit of the server list; and a reconnect request, which takes no lock. Each is a path of the protocol whose
 last state is given field by field.
 */
module ClientSections {
  import opened Basics
  import opened ClientConfig
  import opened ManagedEdits
  import opened ClientProtocol
  import opened ClientLoop

  /** The IDs of sessions that are cancelled once the installed one is. */
  function CancelledWith(h: Shared): set<nat> {
    if h.session.Some? then h.cancelled + {h.session.value.id} else h.cancelled
  }

  lemma OneWebStep(ops: Ops, s: State, t: State)
    requires WebStep(ops, s, t)
    ensures Leads(ops, [s, t], s, t)
  {
    OneStep(ops, s, t);
  }

  lemma OneListStep(ops: Ops, s: State, t: State)
    requires ServersStep(ops, s, t)
    ensures Leads(ops, [s, t], s, t)
  {
    OneStep(ops, s, t);
  }

  lemma OneReplyStep(ops: Ops, s: State, t: State)
    requires PersistStep(ops, s, t)
    ensures Leads(ops, [s, t], s, t)
  {
    OneStep(ops, s, t);
  }

  // ----- a settings request -----

  /** The reloaded configuration is put in force, and the loop is told. */
  lemma Publishes(ops: Ops, s: State, loaded: Config) returns (run: seq<State>)
    requires s.section == WebCommit(loaded)
    ensures Leads(ops, run, s,
                  s.(h := s.h.(cfg := loaded, revision := s.h.revision + 1, assignments := None, connected := None),
                     section := WebReadCancel))
  {
    var a := s.(h := s.h.(cfg := loaded, revision := s.h.revision + 1), section := WebClear);
    var b := a.(h := a.h.(assignments := None), section := WebState);
    var c := b.(h := b.h.(connected := None), section := WebReadCancel);
    OneWebStep(ops, s, a);
    OneWebStep(ops, a, b);
    OneWebStep(ops, b, c);
    Joined(ops, [s, a], [a, b], s, a, b);
    run := [s, a] + [a, b][1..];
    Joined(ops, run, [b, c], s, b, c);
    run := run + [b, c][1..];
  }

  lemma CancelsInstalled(ops: Ops, s: State) returns (run: seq<State>)
    requires s.section == WebReadCancel
    ensures Leads(ops, run, s, s.(h := s.h.(cancelled := CancelledWith(s.h)), section := WebSignal))
  {
    var a := s.(section := WebCancel(CancelOf(s.h)));
    var b := s.(h := s.h.(cancelled := CancelledWith(s.h)), section := WebSignal);
    OneWebStep(ops, s, a);
    OneWebStep(ops, a, b);
    Joined(ops, [s, a], [a, b], s, a, b);
    run := [s, a] + [a, b][1..];
  }

  lemma Signals(ops: Ops, s: State) returns (run: seq<State>)
    requires s.section == WebSignal
    ensures Leads(ops, run, s, s.(h := s.h.(restart := true), section := Free))
  {
    var a := s.(h := s.h.(restart := true), section := WebDone);
    var b := a.(section := Free);
    OneWebStep(ops, s, a);
    OneWebStep(ops, a, b);
    Joined(ops, [s, a], [a, b], s, a, b);
    run := [s, a] + [a, b][1..];
  }

  /** An acceptable edit of a current request is saved and reloaded. */
  lemma Saves(ops: Ops, s: State, req: ConfigRequest, next: Config, loaded: Config) returns (run: seq<State>)
    requires s.section == WebCheck(req) && (req.revision.None? || req.revision.value == s.h.revision)
    requires ops.edit(s.h.cfg, req) == Some(next) && ops.valid(next) && ops.trim(next.configPath) != ""
    requires ops.load(next.configPath, ops.save(next)) == Some(loaded)
    ensures Leads(ops, run, s,
                  s.(h := s.h.(disk := ops.save(next)), section := WebCommit(loaded),
                     grants := if ops.entered(req) then s.grants + {Grant(next, ops.token(next))} else s.grants))
  {
    var a := s.(section := WebRead(req));
    var b := a.(section := WebSave(req, next));
    var c := b.(h := b.h.(disk := ops.save(next)), section := WebLoad(next),
                grants := if ops.entered(req) then s.grants + {Grant(next, ops.token(next))} else s.grants);
    var d := c.(section := WebCommit(loaded));
    OneWebStep(ops, s, a);
    OneWebStep(ops, a, b);
    OneWebStep(ops, b, c);
    OneWebStep(ops, c, d);
    Joined(ops, [s, a], [a, b], s, a, b);
    run := [s, a] + [a, b][1..];
    Joined(ops, run, [b, c], s, b, c);
    run := run + [b, c][1..];
    Joined(ops, run, [c, d], s, c, d);
    run := run + [c, d][1..];
  }

  /** What a commit does for the clients of the old configuration. */
  lemma TakesOver(ops: Ops, s: State, loaded: Config) returns (run: seq<State>)
    requires s.section == WebCommit(loaded)
    ensures Leads(ops, run, s,
                  s.(h := s.h.(cfg := loaded, revision := s.h.revision + 1, assignments := None, connected := None,
                               cancelled := CancelledWith(s.h), restart := true),
                     section := Free))
  {
    run := Publishes(ops, s, loaded);
    var b := run[|run| - 1];
    var cancel := CancelsInstalled(ops, b);
    var c := cancel[|cancel| - 1];
    Joined(ops, run, cancel, s, b, c);
    run := run + cancel[1..];
    var signal := Signals(ops, c);
    Joined(ops, run, signal, s, c, signal[|signal| - 1]);
    run := run + signal[1..];
  }

  /** A settings request against the current revision whose edit is acceptable puts it in force: a new revision, nothing
      reported, the installed session cancelled, and a signal for the loop. */
  lemma RequestTakesEffect(ops: Ops, s: State, req: ConfigRequest, next: Config, loaded: Config) returns (run: seq<State>)
    requires s.section == WebCheck(req) && (req.revision.None? || req.revision.value == s.h.revision)
    requires ops.edit(s.h.cfg, req) == Some(next) && ops.valid(next) && ops.trim(next.configPath) != ""
    requires ops.load(next.configPath, ops.save(next)) == Some(loaded)
    ensures Leads(ops, run, s,
                  s.(h := s.h.(disk := ops.save(next), cfg := loaded, revision := s.h.revision + 1, assignments := None,
                               connected := None, cancelled := CancelledWith(s.h), restart := true),
                     section := Free,
                     grants := if ops.entered(req) then s.grants + {Grant(next, ops.token(next))} else s.grants))
  {
    run := Saves(ops, s, req, next, loaded);
    var a := run[|run| - 1];
    var over := TakesOver(ops, a, loaded);
    Joined(ops, run, over, s, a, over[|over| - 1]);
    run := run + over[1..];
  }

  /** A request that is past the check of its revision has none or the current one. */
  predicate RequestIsCurrent(s: State) {
    s.section.WebRead? || s.section.WebSave? ==>
      s.section.req.revision.None? || s.section.req.revision.value == s.h.revision
  }

  lemma LoopKeepsRequest(ops: Ops, s: State, t: State)
    requires RequestIsCurrent(s) && LoopStep(ops, s, t)
    ensures RequestIsCurrent(t)
  {
  }

  lemma SectionKeepsRequest(ops: Ops, s: State, t: State)
    requires RequestIsCurrent(s)
    requires InstallStep(s, t) || PersistStep(ops, s, t) || WebStep(ops, s, t) || ServersStep(ops, s, t) || LockStep(s, t)
    ensures RequestIsCurrent(t)
  {
  }

  lemma RequesterKeepsRequest(s: State, t: State, k: nat)
    requires RequestIsCurrent(s) && RequestStep(s, t, k)
    ensures RequestIsCurrent(t)
  {
  }

  lemma StepKeepsRequest(ops: Ops, s: State, t: State)
    requires RequestIsCurrent(s) && Next(ops, s, t)
    ensures RequestIsCurrent(t)
  {
    if LoopStep(ops, s, t) {
      LoopKeepsRequest(ops, s, t);
    } else if InstallStep(s, t) || PersistStep(ops, s, t) || WebStep(ops, s, t) || ServersStep(ops, s, t) || LockStep(s, t) {
      SectionKeepsRequest(ops, s, t);
    } else if k :| RequestStep(s, t, k) {
      RequesterKeepsRequest(s, t, k);
    }
  }

  /** In every run a settings request is carried out only against the revision it names. */
  lemma {:induction false} StaleRequestsAreRefused(ops: Ops, run: seq<State>, i: nat)
    requires Execution(ops, run) && i < |run|
    ensures RequestIsCurrent(run[i])
  {
    if i > 0 {
      StaleRequestsAreRefused(ops, run, i - 1);
      assert Next(ops, run[i - 1], run[i]);
      StepKeepsRequest(ops, run[i - 1], run[i]);
    }
  }

  // ----- a credential reply -----

  /** A reply that fits the stored configuration is stored, and the session goes on. */
  lemma ReplyTakesEffect(ops: Ops, s: State, x: Session, issued: string) returns (run: seq<State>)
    requires s.loop == Reporting(x, issued) && s.section == Free && ops.trim(issued) != ""
    requires ops.applies(x.cfg, s.h.cfg) && ops.trim(s.h.cfg.configPath) != ""
    ensures var updated := ops.issue(s.h.cfg, ops.trim(issued));
            Leads(ops, run, s, s.(h := s.h.(disk := ops.save(updated), cfg := updated), loop := Running(x)))
  {
    var updated := ops.issue(s.h.cfg, ops.trim(issued));
    var a := s.(section := PersistRead);
    var b := s.(section := PersistSave(updated));
    var c := s.(h := s.h.(disk := ops.save(updated)), section := PersistStore(updated));
    var d := c.(h := c.h.(cfg := updated), section := PersistDone);
    var e := d.(section := Free, loop := Running(x));
    OneLoopStep(ops, s, a);
    OneReplyStep(ops, a, b);
    OneReplyStep(ops, b, c);
    OneReplyStep(ops, c, d);
    OneReplyStep(ops, d, e);
    Joined(ops, [s, a], [a, b], s, a, b);
    run := [s, a] + [a, b][1..];
    Joined(ops, run, [b, c], s, b, c);
    run := run + [b, c][1..];
    Joined(ops, run, [c, d], s, c, d);
    run := run + [c, d][1..];
    Joined(ops, run, [d, e], s, d, e);
    run := run + [d, e][1..];
  }

  // ----- the server list -----

  lemma ListIsStored(ops: Ops, s: State, edit: ServerRequest, next: Config) returns (run: seq<State>)
    requires s.section == ServersStore(edit, next)
    ensures Leads(ops, run, s, s.(h := s.h.(cfg := next), section := Free))
  {
    var a := s.(h := s.h.(cfg := next), section := ServersDone);
    var b := a.(section := Free);
    OneListStep(ops, s, a);
    OneListStep(ops, a, b);
    Joined(ops, [s, a], [a, b], s, a, b);
    run := [s, a] + [a, b][1..];
  }

  lemma ListEditTakesEffect(ops: Ops, s: State, edit: ServerRequest, next: Config) returns (run: seq<State>)
    requires s.section == ServersRead(edit) && ops.editServers(s.h.cfg, edit) == Some(next) && s.h.cfg.configPath != ""
    ensures Leads(ops, run, s, s.(h := s.h.(disk := ops.save(next), cfg := next), section := Free))
  {
    var a := s.(section := ServersSave(edit, next));
    var b := s.(h := s.h.(disk := ops.save(next)), section := ServersStore(edit, next));
    OneListStep(ops, s, a);
    OneListStep(ops, a, b);
    Joined(ops, [s, a], [a, b], s, a, b);
    run := [s, a] + [a, b][1..];
    var store := ListIsStored(ops, b, edit, next);
    Joined(ops, run, store, s, b, store[|store| - 1]);
    run := run + store[1..];
  }

  // ----- a reconnect request -----

  lemma OneRequestStep(ops: Ops, s: State, t: State, k: nat)
    requires RequestStep(s, t, k)
    ensures Leads(ops, [s, t], s, t)
  {
    OneStep(ops, s, t);
  }

  lemma AsksToClear(ops: Ops, s: State, k: nat) returns (run: seq<State>)
    requires k !in s.requesters
    ensures Leads(ops, run, s,
                  s.(h := s.h.(assignments := None, connected := None), requesters := s.requesters[k := ReqReadCancel]))
  {
    var a := s.(requesters := s.requesters[k := ReqClear]);
    var b := a.(h := s.h.(assignments := None), requesters := a.requesters[k := ReqState]);
    var c := b.(h := b.h.(connected := None), requesters := b.requesters[k := ReqReadCancel]);
    OneRequestStep(ops, s, a, k);
    OneRequestStep(ops, a, b, k);
    OneRequestStep(ops, b, c, k);
    Joined(ops, [s, a], [a, b], s, a, b);
    run := [s, a] + [a, b][1..];
    Joined(ops, run, [b, c], s, b, c);
    run := run + [b, c][1..];
    assert c.requesters == s.requesters[k := ReqReadCancel];
  }

  lemma AsksToSignal(ops: Ops, s: State, k: nat) returns (run: seq<State>)
    requires k in s.requesters && s.requesters[k] == ReqReadCancel
    ensures Leads(ops, run, s,
                  s.(h := s.h.(cancelled := CancelledWith(s.h), restart := true), requesters := s.requesters - {k}))
  {
    var id := if s.h.session.Some? then Some(s.h.session.value.id) else None;
    var a := s.(requesters := s.requesters[k := ReqCancel(id)]);
    var b := a.(h := s.h.(cancelled := CancelledWith(s.h)), requesters := a.requesters[k := ReqSignal]);
    var c := b.(h := b.h.(restart := true), requesters := b.requesters - {k});
    OneRequestStep(ops, s, a, k);
    OneRequestStep(ops, a, b, k);
    OneRequestStep(ops, b, c, k);
    Joined(ops, [s, a], [a, b], s, a, b);
    run := [s, a] + [a, b][1..];
    Joined(ops, run, [b, c], s, b, c);
    run := run + [b, c][1..];
    assert c.requesters == s.requesters - {k};
  }

  /** A reconnect request clears what was reported, cancels the installed session and leaves a signal. */
  lemma ReconnectTakesEffect(ops: Ops, s: State, k: nat) returns (run: seq<State>)
    requires k !in s.requesters
    ensures Leads(ops, run, s,
                  s.(h := s.h.(assignments := None, connected := None, cancelled := CancelledWith(s.h), restart := true)))
  {
    run := AsksToClear(ops, s, k);
    var a := run[|run| - 1];
    var signal := AsksToSignal(ops, a, k);
    var b := signal[|signal| - 1];
    Joined(ops, run, signal, s, a, b);
    run := run + signal[1..];
    assert s.requesters[k := ReqReadCancel] - {k} == s.requesters;
  }

  // ----- what is refused or fails gives the lock back -----

  lemma TwoSteps(ops: Ops, s: State, t: State, u: State) returns (run: seq<State>)
    requires Leads(ops, [s, t], s, t) && Leads(ops, [t, u], t, u)
    ensures Leads(ops, run, s, u)
  {
    Joined(ops, [s, t], [t, u], s, t, u);
    run := [s, t] + [t, u][1..];
  }

  /** A session whose configuration was replaced before it could be installed is cancelled, and the loop starts over. */
  lemma StaleSessionGivesWay(ops: Ops, s: State, x: Session) returns (run: seq<State>)
    requires s.loop == Starting(x) && s.section == Free && x.revision != s.h.revision
    ensures Leads(ops, run, s, s.(h := s.h.(cancelled := s.h.cancelled + {x.id}), loop := Top))
  {
    var a, b := s.(section := Install), s.(section := InstallDone(true));
    var c := s.(h := s.h.(cancelled := s.h.cancelled + {x.id}), loop := Top);
    OneLoopStep(ops, s, a);
    OneStep(ops, a, b);
    OneStep(ops, b, c);
    run := TwoSteps(ops, s, a, b);
    Joined(ops, run, [b, c], s, b, c);
    run := run + [b, c][1..];
  }

  lemma SectionEnds(ops: Ops, s: State)
    ensures s.section == WebDone ==> Leads(ops, [s, s.(section := Free)], s, s.(section := Free))
    ensures s.section == ServersDone ==> Leads(ops, [s, s.(section := Free)], s, s.(section := Free))
  {
    if s.section == WebDone {
      OneWebStep(ops, s, s.(section := Free));
    } else if s.section == ServersDone {
      OneListStep(ops, s, s.(section := Free));
    }
  }

  /** A request against an old revision changes nothing. */
  lemma StaleRequestEnds(ops: Ops, s: State, req: ConfigRequest) returns (run: seq<State>)
    requires s.section == WebCheck(req) && req.revision.Some? && req.revision.value != s.h.revision
    ensures Leads(ops, run, s, s.(section := Free))
  {
    var a := s.(section := WebDone);
    OneWebStep(ops, s, a);
    SectionEnds(ops, a);
    run := TwoSteps(ops, s, a, s.(section := Free));
  }

  /** Nor does one whose edit is refused or not acceptable. */
  lemma RefusedRequestEnds(ops: Ops, s: State, req: ConfigRequest) returns (run: seq<State>)
    requires s.section == WebRead(req)
    requires match ops.edit(s.h.cfg, req)
             case None => true
             case Some(next) => !ops.valid(next) || ops.trim(next.configPath) == ""
    ensures Leads(ops, run, s, s.(section := Free))
  {
    var a := s.(section := WebDone);
    OneWebStep(ops, s, a);
    SectionEnds(ops, a);
    run := TwoSteps(ops, s, a, s.(section := Free));
  }

  /** Nor one that cannot be saved, or reloaded after it was. */
  lemma FailedRequestEnds(ops: Ops, s: State) returns (run: seq<State>)
    requires s.section.WebSave? || s.section.WebLoad?
    ensures Leads(ops, run, s, s.(section := Free))
  {
    var a := s.(section := WebDone);
    OneWebStep(ops, s, a);
    SectionEnds(ops, a);
    run := TwoSteps(ops, s, a, s.(section := Free));
  }

  /** A list edit that is refused or cannot be saved changes nothing. */
  lemma RefusedListEditEnds(ops: Ops, s: State, edit: ServerRequest) returns (run: seq<State>)
    requires (s.section == ServersRead(edit) && (ops.editServers(s.h.cfg, edit) == None || s.h.cfg.configPath == ""))
             || s.section.ServersSave?
    ensures Leads(ops, run, s, s.(section := Free))
  {
    var a := s.(section := ServersDone);
    OneListStep(ops, s, a);
    SectionEnds(ops, a);
    run := TwoSteps(ops, s, a, s.(section := Free));
  }

  lemma ReplyEnds(ops: Ops, s: State, x: Session, issued: string)
    requires s.loop == Reporting(x, issued) && s.section == PersistDone
    ensures var t := s.(section := Free, loop := Running(x)); Leads(ops, [s, t], s, t)
  {
    OneReplyStep(ops, s, s.(section := Free, loop := Running(x)));
  }

  /** A reply that does not fit, or finds no path to save to, is dropped, and the session goes on. */
  lemma UnfitReplyEnds(ops: Ops, s: State, x: Session, issued: string) returns (run: seq<State>)
    requires s.loop == Reporting(x, issued) && s.section == PersistRead
    requires !ops.applies(x.cfg, s.h.cfg) || ops.trim(s.h.cfg.configPath) == ""
    ensures Leads(ops, run, s, s.(section := Free, loop := Running(x)))
  {
    var a := s.(section := PersistDone);
    OneReplyStep(ops, s, a);
    ReplyEnds(ops, a, x, issued);
    run := TwoSteps(ops, s, a, s.(section := Free, loop := Running(x)));
  }

  /** So is one that cannot be saved. */
  lemma FailedReplyEnds(ops: Ops, s: State, x: Session, issued: string) returns (run: seq<State>)
    requires s.loop == Reporting(x, issued) && s.section.PersistSave?
    ensures Leads(ops, run, s, s.(section := Free, loop := Running(x)))
  {
    var a := s.(section := PersistDone);
    OneReplyStep(ops, s, a);
    ReplyEnds(ops, a, x, issued);
    run := TwoSteps(ops, s, a, s.(section := Free, loop := Running(x)));
  }
}
