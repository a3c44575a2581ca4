/**
 Reading the history of the log and then following it: the follower is placed at the end of the log first, so what is
 appended while the history is read is read twice, and a line may be cut at either end of that stretch.
 */
module LogHistory {
  import opened Basics
  import opened Text
  import opened LogReaders
  import opened LogMonitor

  // ----- what lines say in the end -----

  function Status(active: map<string, string>, id: string): Option<string> {
    if id in active then Some(active[id]) else None
  }

  function Told(w: Word, before: Option<string>): Option<string> {
    match w
    case IsOpen(event) => Some(event)
    case IsClosed => None
    case Nothing => before
  }

  lemma LinesTell(r: Reader, v: View, lines: seq<string>, id: string)
    ensures Status(ConsumedAll(r, v, lines).active, id) == Told(LastWord(r, lines, id), Status(v.active, id))
  {
    LinesShow(r, v, lines, id);
  }

  function LaterWord(early: Word, late: Word): Word {
    if late == Nothing then early else late
  }

  function LaterText(early: string, late: string): string {
    if late == "" then early else late
  }

  lemma {:induction false} LastWordConcat(r: Reader, a: seq<string>, b: seq<string>, id: string)
    ensures LastWord(r, a + b, id) == LaterWord(LastWord(r, a, id), LastWord(r, b, id))
  {
    if |a| == 0 {
      assert a + b == b;
    } else {
      assert (a + b)[1..] == a[1..] + b;
      LastWordConcat(r, a[1..], b, id);
    }
  }

  lemma {:induction false} LastAssignmentConcat(r: Reader, a: seq<string>, b: seq<string>)
    ensures LastAssignment(r, a + b) == LaterText(LastAssignment(r, a), LastAssignment(r, b))
  {
    if |a| == 0 {
      assert a + b == b;
    } else {
      assert (a + b)[1..] == a[1..] + b;
      LastAssignmentConcat(r, a[1..], b);
    }
  }

  lemma SameStatus(v: View, w: View)
    requires forall id :: Status(v.active, id) == Status(w.active, id)
    requires v.assignment == w.assignment
    ensures v == w
  {
    forall id ensures id in v.active <==> id in w.active {
      assert Status(v.active, id) == Status(w.active, id);
    }
    forall id | id in v.active ensures v.active[id] == w.active[id] {
      assert Status(v.active, id) == Status(w.active, id);
    }
  }

  /** Lines with the same last words leave the monitor in the same state. */
  lemma SameWords(r: Reader, v: View, a: seq<string>, b: seq<string>)
    requires forall id :: LastWord(r, a, id) == LastWord(r, b, id)
    requires LastAssignment(r, a) == LastAssignment(r, b)
    ensures ConsumedAll(r, v, a) == ConsumedAll(r, v, b)
  {
    forall id ensures Status(ConsumedAll(r, v, a).active, id) == Status(ConsumedAll(r, v, b).active, id) {
      LinesTell(r, v, a, id);
      LinesTell(r, v, b, id);
    }
    LinesAssign(r, v, a);
    LinesAssign(r, v, b);
    SameStatus(ConsumedAll(r, v, a), ConsumedAll(r, v, b));
  }

  /** From every view, the lines of `a` and those of `b` lead to the same one. */
  ghost predicate SameEffect(r: Reader, a: seq<string>, b: seq<string>) {
    forall v :: ConsumedAll(r, v, a) == ConsumedAll(r, v, b)
  }

  ghost predicate SameLastWords(r: Reader, a: seq<string>, b: seq<string>) {
    && (forall id :: LastWord(r, a, id) == LastWord(r, b, id))
    && LastAssignment(r, a) == LastAssignment(r, b)
  }

  lemma SameEffectSameWord(r: Reader, a: seq<string>, b: seq<string>, id: string)
    requires SameEffect(r, a, b)
    ensures LastWord(r, a, id) == LastWord(r, b, id)
  {
    var absent, present := View(map[], ""), View(map[id := ""], "");
    assert ConsumedAll(r, absent, a) == ConsumedAll(r, absent, b);
    assert ConsumedAll(r, present, a) == ConsumedAll(r, present, b);
    LinesTell(r, absent, a, id);
    LinesTell(r, absent, b, id);
    LinesTell(r, present, a, id);
    LinesTell(r, present, b, id);
  }

  lemma SameEffectSameAssignment(r: Reader, a: seq<string>, b: seq<string>)
    requires SameEffect(r, a, b)
    ensures LastAssignment(r, a) == LastAssignment(r, b)
  {
    var v := View(map[], "");
    assert ConsumedAll(r, v, a) == ConsumedAll(r, v, b);
    LinesAssign(r, v, a);
    LinesAssign(r, v, b);
  }

  /** Of what lines say, exactly the last words count. */
  lemma EffectIsLastWords(r: Reader, a: seq<string>, b: seq<string>)
    ensures SameEffect(r, a, b) <==> SameLastWords(r, a, b)
  {
    if SameLastWords(r, a, b) {
      forall v ensures ConsumedAll(r, v, a) == ConsumedAll(r, v, b) {
        SameWords(r, v, a, b);
      }
    }
    if SameEffect(r, a, b) {
      forall id ensures LastWord(r, a, id) == LastWord(r, b, id) {
        SameEffectSameWord(r, a, b, id);
      }
      SameEffectSameAssignment(r, a, b);
    }
  }

  // ----- other lines in the same place -----

  /** Between `before` and `after` the lines of `pieces` say what those of `whole` say, wherever `after` does not have
      the last word anyway. */
  ghost predicate SayAlike(r: Reader, before: seq<string>, pieces: seq<string>, whole: seq<string>, after: seq<string>) {
    && (forall id :: LastWord(r, after, id) == Nothing ==>
          LaterWord(LastWord(r, before, id), LastWord(r, pieces, id))
          == LaterWord(LastWord(r, before, id), LastWord(r, whole, id)))
    && (LastAssignment(r, after) == "" ==>
          LaterText(LastAssignment(r, before), LastAssignment(r, pieces))
          == LaterText(LastAssignment(r, before), LastAssignment(r, whole)))
  }

  lemma WordInPlace(r: Reader, before: seq<string>, mid: seq<string>, after: seq<string>, id: string)
    ensures LastWord(r, before + mid + after, id)
            == LaterWord(LaterWord(LastWord(r, before, id), LastWord(r, mid, id)), LastWord(r, after, id))
  {
    LastWordConcat(r, before + mid, after, id);
    LastWordConcat(r, before, mid, id);
  }

  lemma AssignmentInPlace(r: Reader, before: seq<string>, mid: seq<string>, after: seq<string>)
    ensures LastAssignment(r, before + mid + after)
            == LaterText(LaterText(LastAssignment(r, before), LastAssignment(r, mid)), LastAssignment(r, after))
  {
    LastAssignmentConcat(r, before + mid, after);
    LastAssignmentConcat(r, before, mid);
  }

  lemma WordsInPlace(r: Reader, before: seq<string>, pieces: seq<string>, whole: seq<string>, after: seq<string>)
    ensures SameLastWords(r, before + pieces + after, before + whole + after)
            <==> SayAlike(r, before, pieces, whole, after)
  {
    forall id
      ensures LastWord(r, before + pieces + after, id) == LastWord(r, before + whole + after, id) <==>
              (LastWord(r, after, id) == Nothing ==>
                 LaterWord(LastWord(r, before, id), LastWord(r, pieces, id))
                 == LaterWord(LastWord(r, before, id), LastWord(r, whole, id)))
    {
      WordInPlace(r, before, pieces, after, id);
      WordInPlace(r, before, whole, after, id);
    }
    AssignmentInPlace(r, before, pieces, after);
    AssignmentInPlace(r, before, whole, after);
  }

  lemma EffectInPlace(r: Reader, before: seq<string>, pieces: seq<string>, whole: seq<string>, after: seq<string>)
    ensures SameEffect(r, before + pieces + after, before + whole + after) <==> SayAlike(r, before, pieces, whole, after)
  {
    EffectIsLastWords(r, before + pieces + after, before + whole + after);
    WordsInPlace(r, before, pieces, whole, after);
  }

  // ----- the lines of a scanned file -----

  function TrimAll(raw: seq<string>): seq<string> {
    if |raw| == 0 then [] else [TrimReturn(raw[0])] + TrimAll(raw[1..])
  }

  /** The lines a scan of a whole file gives, an unfinished last one included. */
  function ScannedLines(s: string): seq<string> {
    var p := Split(s, '\n');
    TrimAll(p[..|p| - 1]) + if RestIn(p) == "" then [] else [TrimReturn(RestIn(p))]
  }

  /** The unfinished last line, if it says anything. */
  function Unfinished(s: string): seq<string> {
    KeptLines([Rest(s)])
  }

  lemma {:induction false} EmptyLinesDoNothing(r: Reader, v: View, raw: seq<string>)
    requires IgnoresEmpty(r)
    ensures ConsumedAll(r, v, TrimAll(raw)) == ConsumedAll(r, v, KeptLines(raw))
    decreases |raw|
  {
    if |raw| > 0 {
      var line := TrimReturn(raw[0]);
      EmptyLinesDoNothing(r, Consumed(r, v, line), raw[1..]);
      assert TrimAll(raw)[1..] == TrimAll(raw[1..]);
      if line == "" {
        assert Consumed(r, v, line) == v;
        assert KeptLines(raw) == KeptLines(raw[1..]);
      } else {
        assert KeptLines(raw)[1..] == KeptLines(raw[1..]);
      }
    }
  }

  lemma {:induction false} TrimAllConcat(a: seq<string>, b: seq<string>)
    ensures TrimAll(a + b) == TrimAll(a) + TrimAll(b)
  {
    if |a| == 0 {
      assert a + b == b;
    } else {
      assert (a + b)[1..] == a[1..] + b;
      TrimAllConcat(a[1..], b);
    }
  }

  lemma TrimAllOne(line: string)
    ensures TrimAll([line]) == [TrimReturn(line)]
  {
  }

  /** For the monitor a scan is the complete lines and the unfinished one. */
  lemma ScannedPieces(r: Reader, v: View, p: seq<string>)
    requires IgnoresEmpty(r) && |p| > 0
    ensures ConsumedAll(r, v, TrimAll(p)) == ConsumedAll(r, v, LinesIn(p) + KeptLines([RestIn(p)]))
  {
    EmptyLinesDoNothing(r, v, p);
    assert p[..|p| - 1] + [RestIn(p)] == p;
    NormalizedConcat(TrimReturn, NotEmpty, p[..|p| - 1], [RestIn(p)]);
  }

  lemma ScannedTail(r: Reader, v: View, init: seq<string>, last: string)
    requires IgnoresEmpty(r)
    ensures ConsumedAll(r, v, TrimAll(init) + if last == "" then [] else [TrimReturn(last)])
            == ConsumedAll(r, v, TrimAll(init + [last]))
  {
    TrimAllConcat(init, [last]);
    TrimAllOne(last);
    ConsumedConcat(r, v, TrimAll(init), [TrimReturn(last)]);
    if last == "" {
      var w := ConsumedAll(r, v, TrimAll(init));
      assert ConsumedAll(r, w, [""]) == Consumed(r, w, "") == w;
      assert TrimAll(init) + [] == TrimAll(init);
    }
  }

  lemma ScannedIsComplete(r: Reader, v: View, s: string)
    requires IgnoresEmpty(r)
    ensures ConsumedAll(r, v, ScannedLines(s)) == ConsumedAll(r, v, CompleteLines(s) + Unfinished(s))
  {
    var p := Split(s, '\n');
    ScannedTail(r, v, p[..|p| - 1], RestIn(p));
    assert p[..|p| - 1] + [RestIn(p)] == p;
    ScannedPieces(r, v, p);
  }

  // ----- history, then following -----

  lemma {:induction false} LastNewlineOf(s: string) returns (k: nat)
    requires '\n' in s
    ensures k < |s| && s[k] == '\n' && '\n' !in s[k + 1..]
  {
    if '\n' in s[1..] {
      k := LastNewlineOf(s[1..]);
      assert s[1..][k + 1..] == s[k + 2..];
      k := k + 1;
    } else {
      assert s == [s[0]] + s[1..];
      k := 0;
    }
  }

  lemma TailOfConcat(x: string, b: string, k: nat)
    requires k <= |b|
    ensures (x + b)[|x| + k..] == b[k..]
  {
  }

  /** Behind a newline it does not matter what was in front of it. */
  lemma RestBehindNewline(x: string, b: string)
    requires x == "" || '\n' in b
    ensures Rest(x + b) == Rest(b)
  {
    if x == "" {
      assert x + b == b;
    } else {
      var k := LastNewlineOf(b);
      CutAtLastNewline(b, k);
      TailOfConcat(x, b, k + 1);
      assert (x + b)[|x| + k] == b[k];
      CutAtLastNewline(x + b, |x| + k);
    }
  }

  lemma OverlapLines(a: string, b: string, c: string)
    requires Rest(a) == "" || '\n' in b
    ensures CompleteLines(a + b) == CompleteLines(a) + CompleteLines(Rest(a) + b)
    ensures CompleteLines(b + c) == CompleteLines(b) + CompleteLines(Rest(a + b) + c)
    ensures CompleteLines(a + b + c) == CompleteLines(a) + CompleteLines(Rest(a) + b) + CompleteLines(Rest(a + b) + c)
  {
    LinesOfConcat(a, b);
    LinesOfConcat(b, c);
    LinesOfConcat(a + b, c);
    RestBehindNewline(Rest(a), b);
  }

  lemma PolledLines(f: Follower, identity: nat, contents: seq<string>, final: string, appended: string)
    requires f.identity == Some(identity) && f.partial == "" && f.offset <= |final| && final[f.offset..] == appended
    requires Grows(f.offset, contents, final)
    ensures PollAll(f, identity, contents).1 == CompleteLines(appended)
  {
    PollingIsIndependent(f, identity, contents, final);
    assert f.partial + final[f.offset..] == appended;
  }

  lemma FollowedLines(a: string, b: string, c: string, identity: nat, contents: seq<string>)
    requires Grows(|a|, contents, a + b + c)
    ensures PollAll(Follower(Some(identity), |a|, ""), identity, contents).1 == CompleteLines(b + c)
  {
    assert (a + b + c)[|a|..] == b + c;
    PolledLines(Follower(Some(identity), |a|, ""), identity, contents, a + b + c, b + c);
  }

  /** Whatever the monitor knew before, the history and then the lines of the polls leave it as if it had read every line
      of the final log once. */
  ghost predicate ReadsOnce(r: Reader, history: string, polled: seq<string>, final: string) {
    forall v :: ConsumedAll(r, ConsumedAll(r, v, ScannedLines(history)), polled) == ConsumedAll(r, v, CompleteLines(final))
  }

  lemma HistoryAndPolls(r: Reader, v: View, history: string, polled: seq<string>)
    requires IgnoresEmpty(r)
    ensures ConsumedAll(r, ConsumedAll(r, v, ScannedLines(history)), polled)
            == ConsumedAll(r, v, CompleteLines(history) + Unfinished(history) + polled)
  {
    ScannedIsComplete(r, v, history);
    ConsumedConcat(r, v, CompleteLines(history) + Unfinished(history), polled);
  }

  lemma ReadsOnceIsEffect(r: Reader, history: string, polled: seq<string>, final: string)
    requires IgnoresEmpty(r)
    ensures ReadsOnce(r, history, polled, final)
            <==> SameEffect(r, CompleteLines(history) + Unfinished(history) + polled, CompleteLines(final))
  {
    forall v
      ensures ConsumedAll(r, ConsumedAll(r, v, ScannedLines(history)), polled)
              == ConsumedAll(r, v, CompleteLines(history) + Unfinished(history) + polled)
    {
      HistoryAndPolls(r, v, history, polled);
    }
  }

  lemma Associate(x: seq<string>, y: seq<string>, z: seq<string>)
    ensures x + (y + z) == x + y + z
  {
  }

  /** The polled lines are `more` and `after`, the final log has `whole` and `after` behind the complete history. */
  lemma ReadsOnceExactly(r: Reader, history: string, more: seq<string>, whole: seq<string>, after: seq<string>,
                         polled: seq<string>, final: string)
    requires IgnoresEmpty(r) && polled == more + after
    requires CompleteLines(final) == CompleteLines(history) + whole + after
    ensures ReadsOnce(r, history, polled, final)
            <==> SayAlike(r, CompleteLines(history), Unfinished(history) + more, whole, after)
  {
    var x, p := CompleteLines(history), Unfinished(history);
    ReadsOnceIsEffect(r, history, polled, final);
    Associate(x + p, more, after);
    Associate(x, p, more);
    EffectInPlace(r, x, p + more, whole, after);
  }

  /** The follower is placed at the end of `a`, the history read is `a` and what was appended meanwhile, and the polls
      read from `a` on to the final content. If a line cut by the place of the follower is finished in the history, every
      line counts once exactly if what is read too much, the unfinished end of the history and then the lines of `b`
      again, says nothing or what the history has said last, wherever the lines finished later do not decide. */
  lemma HistoryThenFollow(r: Reader, a: string, b: string, c: string, identity: nat, contents: seq<string>)
    requires IgnoresEmpty(r) && Grows(|a|, contents, a + b + c)
    requires Rest(a) == "" || '\n' in b
    ensures ReadsOnce(r, a + b, PollAll(Follower(Some(identity), |a|, ""), identity, contents).1, a + b + c)
            <==> SayAlike(r, CompleteLines(a + b), Unfinished(a + b) + CompleteLines(b), [],
                          CompleteLines(Rest(a + b) + c))
  {
    FollowedLines(a, b, c, identity, contents);
    OverlapLines(a, b, c);
    var x := CompleteLines(a + b);
    assert x + [] == x;
    ReadsOnceExactly(r, a + b, CompleteLines(b), [], CompleteLines(Rest(a + b) + c), CompleteLines(b + c), a + b + c);
  }

  lemma {:induction false} NewlineSplits(s: string)
    requires '\n' in s
    ensures |Split(s, '\n')| > 1
  {
    if s[0] != '\n' {
      assert s == [s[0]] + s[1..];
      NewlineSplits(s[1..]);
    }
  }

  /** The line that `front` begins and `c` finishes. */
  function FinishedLine(front: string, c: string): seq<string> {
    if '\n' in c then KeptLines([front + Split(c, '\n')[0]]) else []
  }

  /** The complete lines behind the one that is finished first. */
  function LaterLines(c: string): seq<string> {
    var p := Split(c, '\n');
    if |p| > 1 then KeptLines(p[1..|p| - 1]) else []
  }

  lemma {:induction false} FrontOfFirst(front: string, c: string)
    requires '\n' !in front
    ensures Split(front + c, '\n') == [front + Split(c, '\n')[0]] + Split(c, '\n')[1..]
  {
    SplitConcat(front, c, '\n');
    SplitSingle(front, '\n');
    if front == "" {
      assert front + c == c;
      assert front + Split(c, '\n')[0] == Split(c, '\n')[0];
    } else {
      assert front == [front[0]] + front[1..];
      FrontOfFirst(front[1..], c);
      assert (front + c)[1..] == front[1..] + c;
      assert [front[0]] + (front[1..] + Split(c, '\n')[0]) == front + Split(c, '\n')[0];
    }
  }

  lemma FinishedAndLater(front: string, c: string)
    requires '\n' !in front
    ensures CompleteLines(front + c) == FinishedLine(front, c) + LaterLines(c)
  {
    var p := Split(c, '\n');
    FrontOfFirst(front, c);
    if '\n' in c {
      NewlineSplits(c);
      assert ([front + p[0]] + p[1..])[..|p| - 1] == [front + p[0]] + p[1..|p| - 1];
      NormalizedConcat(TrimReturn, NotEmpty, [front + p[0]], p[1..|p| - 1]);
    } else {
      SplitSingle(c, '\n');
    }
  }

  lemma HistoryInLine(a: string, b: string)
    requires '\n' !in b
    ensures '\n' !in Rest(a) + b
    ensures CompleteLines(a + b) == CompleteLines(a) && Rest(a + b) == Rest(a) + b
  {
    RestHasNoNewline(a);
    LinesOfConcat(a, b);
    NoNewline(Rest(a) + b);
    assert CompleteLines(a) + [] == CompleteLines(a);
  }

  lemma LogInLine(a: string, b: string, c: string)
    requires '\n' !in b
    ensures CompleteLines(a + b + c) == CompleteLines(a) + FinishedLine(Rest(a) + b, c) + LaterLines(c)
  {
    HistoryInLine(a, b);
    LinesOfConcat(a + b, c);
    FinishedAndLater(Rest(a) + b, c);
    Associate(CompleteLines(a), FinishedLine(Rest(a) + b, c), LaterLines(c));
  }

  /** If the history ends in the line the follower was placed in, every line counts once exactly if the front of the line
      in the history and then its end in the polls say, after the complete history, what the whole line says, wherever
      the later lines do not decide. */
  lemma HistoryThenFollowInLine(r: Reader, a: string, b: string, c: string, identity: nat, contents: seq<string>)
    requires IgnoresEmpty(r) && Grows(|a|, contents, a + b + c)
    requires '\n' !in b
    ensures ReadsOnce(r, a + b, PollAll(Follower(Some(identity), |a|, ""), identity, contents).1, a + b + c)
            <==> SayAlike(r, CompleteLines(a), KeptLines([Rest(a) + b]) + FinishedLine(b, c),
                          FinishedLine(Rest(a) + b, c), LaterLines(c))
  {
    FollowedLines(a, b, c, identity, contents);
    HistoryInLine(a, b);
    FinishedAndLater(b, c);
    LogInLine(a, b, c);
    ReadsOnceExactly(r, a + b, FinishedLine(b, c), FinishedLine(Rest(a) + b, c), LaterLines(c),
                     CompleteLines(b + c), a + b + c);
  }

  // ----- for the lines the service really writes -----

  /** The first line of a text, as the readers get it. */
  function FirstLine(s: string): string {
    TrimReturn(Split(s, '\n')[0])
  }

  lemma {:induction false} FirstPiece(x: string, c: string)
    requires '\n' !in x
    ensures x <= Split(x + c, '\n')[0]
  {
    if x != "" {
      assert (x + c)[1..] == x[1..] + c;
      FirstPiece(x[1..], c);
      assert x == [x[0]] + x[1..];
    }
  }

  lemma TrimmedFront(x: string, l: string)
    requires x <= l
    ensures TrimReturn(x) <= TrimReturn(l)
  {
  }

  lemma CompleteFrom(s: string)
    requires '\n' in s
    ensures KeptLines([Split(s, '\n')[0]]) <= CompleteLines(s)
  {
    var p := Split(s, '\n');
    NewlineSplits(s);
    assert p[..|p| - 1] == [p[0]] + p[1..|p| - 1];
    NormalizedConcat(TrimReturn, NotEmpty, [p[0]], p[1..|p| - 1]);
  }

  lemma WordOfOne(r: Reader, line: string, id: string)
    ensures LastWord(r, [line], id) == Said(r, line, id)
    ensures LastAssignment(r, [line]) == r.assignment(line)
  {
  }

  /** On everything that `early` speaks of, `later` has the last word. */
  ghost predicate Settles(r: Reader, early: seq<string>, later: seq<string>) {
    && (forall id :: LastWord(r, early, id) == Nothing || LastWord(r, later, id) != Nothing)
    && (LastAssignment(r, early) == "" || LastAssignment(r, later) != "")
  }

  /** A later line that starts with the early one settles what that says. */
  lemma FrontIsSettled(decode: string -> Option<(string, string)>, p: string, l: string, more: seq<string>)
    requires p <= l && CutEvent(decode, p, l)
    ensures Settles(LineReader(decode), [p], [l] + more)
  {
    var r := LineReader(decode);
    FrontOfLine(p, l);
    forall id ensures LastWord(r, [p], id) == Nothing || LastWord(r, [l] + more, id) != Nothing {
      WordOfOne(r, p, id);
      WordOfOne(r, l, id);
      LastWordConcat(r, [l], more, id);
    }
    WordOfOne(r, p, "");
    WordOfOne(r, l, "");
    LastAssignmentConcat(r, [l], more);
  }

  lemma KeptOne(line: string)
    ensures KeptLines([line]) == if TrimReturn(line) == "" then [] else [TrimReturn(line)]
  {
  }

  lemma UnfinishedIsSettled(decode: string -> Option<(string, string)>, x: string, c: string)
    requires '\n' !in x
    requires x != "" ==> '\n' in c && CutEvent(decode, TrimReturn(x), FirstLine(x + c))
    ensures Settles(LineReader(decode), KeptLines([x]), CompleteLines(x + c))
  {
    KeptOne(x);
    if TrimReturn(x) != "" {
      var whole := Split(x + c, '\n')[0];
      FirstPiece(x, c);
      TrimmedFront(x, whole);
      KeptOne(whole);
      CompleteFrom(x + c);
      var all := CompleteLines(x + c);
      assert all == [FirstLine(x + c)] + all[1..];
      FrontIsSettled(decode, TrimReturn(x), FirstLine(x + c), all[1..]);
    }
  }

  /** Lines of the history read again do no harm, nor what is settled later. */
  lemma AgainIsHarmless(r: Reader, x: seq<string>, y: seq<string>, p: seq<string>, t: seq<string>)
    requires Settles(r, p, t)
    ensures SayAlike(r, x + y, p + y, [], t)
  {
    forall id | LastWord(r, t, id) == Nothing
      ensures LaterWord(LastWord(r, x + y, id), LastWord(r, p + y, id)) == LastWord(r, x + y, id)
    {
      LastWordConcat(r, x, y, id);
      LastWordConcat(r, p, y, id);
    }
    LastAssignmentConcat(r, x, y);
    LastAssignmentConcat(r, p, y);
  }

  /** With the follower placed between two lines, the monitor reads the log the service writes as if it had read each
      line once, even if the history ends inside a line, once that line is finished. */
  lemma MonitorReadsOnce(decode: string -> Option<(string, string)>, a: string, b: string, c: string,
                         identity: nat, contents: seq<string>)
    requires Rest(a) == "" && Grows(|a|, contents, a + b + c)
    requires Rest(a + b) != "" ==>
               '\n' in c && CutEvent(decode, TrimReturn(Rest(a + b)), FirstLine(Rest(a + b) + c))
    ensures ReadsOnce(LineReader(decode), a + b, PollAll(Follower(Some(identity), |a|, ""), identity, contents).1, a + b + c)
  {
    var r := LineReader(decode);
    LineReaderIgnoresEmpty(decode);
    RestHasNoNewline(a + b);
    UnfinishedIsSettled(decode, Rest(a + b), c);
    HistoryThenFollow(r, a, b, c, identity, contents);
    LinesOfConcat(a, b);
    assert Rest(a) + b == b;
    AgainIsHarmless(r, CompleteLines(a), CompleteLines(b), Unfinished(a + b), CompleteLines(Rest(a + b) + c));
  }

  // ----- a line that is lost -----

  const FRONT := "TCP OP"
  const BACK := "EN {}"

  /** A decoder that knows one record. */
  function OneRecord(e: (string, string)): string -> Option<(string, string)> {
    s => if s == "{}" then Some(e) else None
  }

  /** From an empty view: history `front`, one poll that finds the line complete, and `e` is not shown. */
  ghost predicate LosesLine(r: Reader, front: string, back: string, e: (string, string), identity: nat) {
    var log, v := front + back + "\n", View(map[], "");
    var polled := PollAll(Follower(Some(identity), |front|, ""), identity, [log]).1;
    && Grows(|front|, [log], log)
    && ConsumedAll(r, ConsumedAll(r, v, ScannedLines(front)), polled).active == map[]
    && ConsumedAll(r, v, CompleteLines(log)).active == map[e.0 := e.1]
    && !ReadsOnce(r, front, polled, log)
  }

  predicate IsOneLine(s: string) {
    s != "" && '\n' !in s && TrimReturn(s) == s
  }

  lemma FrontSaysNothing(e: (string, string))
    ensures IsOneLine(FRONT)
    ensures !IsServiceStart(FRONT) && ConnectionChange(OneRecord(e), FRONT) == None
  {
  }

  lemma BackSaysNothing(e: (string, string))
    ensures IsOneLine(BACK) && |BACK| < MAX_GROWTH
    ensures !IsServiceStart(BACK) && ConnectionChange(OneRecord(e), BACK) == None
  {
  }

  lemma RecordOfLine()
    ensures var l := FRONT + BACK; HasAt(l, OPEN_MARKER, 0) && l[|OPEN_MARKER|..] == "{}"
  {
  }

  lemma WholeIsNoStart()
    ensures IsOneLine(FRONT + BACK) && !IsServiceStart(FRONT + BACK)
  {
  }

  lemma TrimmedRecord()
    ensures Trim("{}") == "{}"
  {
  }

  lemma WholeOpens(e: (string, string))
    ensures ConnectionChange(OneRecord(e), FRONT + BACK) == Some(Opened(e.0, e.1))
  {
    var l := FRONT + BACK;
    RecordOfLine();
    TrimmedRecord();
    assert Index(l, OPEN_MARKER) == 0;
  }

  lemma OneLine(l: string)
    requires IsOneLine(l)
    ensures CompleteLines(l + "\n") == [l]
  {
    var s := l + "\n";
    assert s[..|l|] == l;
    CutAtLastNewline(s, |l|);
    SplitSingle(l, '\n');
    KeptOne(l);
  }

  lemma PollOfBack(x: string, y: string, identity: nat)
    requires IsOneLine(y) && |y| < MAX_GROWTH
    ensures var final := x + y + "\n";
            Grows(|x|, [final], final) && PollAll(Follower(Some(identity), |x|, ""), identity, [final]).1 == [y]
  {
    var final := x + y + "\n";
    assert final[|x|..] == y + "\n";
    PolledLines(Follower(Some(identity), |x|, ""), identity, [final], final, y + "\n");
    OneLine(y);
  }

  lemma ScannedOne(x: string)
    requires IsOneLine(x)
    ensures ScannedLines(x) == [x]
  {
    SplitSingle(x, '\n');
  }

  lemma ConsumedOne(r: Reader, v: View, line: string)
    ensures ConsumedAll(r, v, [line]) == Consumed(r, v, line)
  {
    assert [line][1..] == [];
  }

  lemma HalvesShowNothing(r: Reader, x: string, y: string)
    requires r.change(x) == None && r.change(y) == None && !r.isStart(x) && !r.isStart(y)
    ensures ConsumedAll(r, ConsumedAll(r, View(map[], ""), [x]), [y]).active == map[]
  {
    var v := View(map[], "");
    ConsumedOne(r, v, x);
    ConsumedOne(r, Consumed(r, v, x), y);
  }

  lemma WholeShows(r: Reader, line: string, e: (string, string))
    requires !r.isStart(line) && r.change(line) == Some(Opened(e.0, e.1))
    ensures ConsumedAll(r, View(map[], ""), [line]).active == map[e.0 := e.1]
    ensures map[e.0 := e.1] != map[]
  {
    ConsumedOne(r, View(map[], ""), line);
    assert e.0 in map[e.0 := e.1];
  }

  lemma NotReadOnce(r: Reader, v: View, history: string, polled: seq<string>, final: string)
    requires ConsumedAll(r, ConsumedAll(r, v, ScannedLines(history)), polled).active
             != ConsumedAll(r, v, CompleteLines(final)).active
    ensures !ReadsOnce(r, history, polled, final)
  {
  }

  lemma HalvesLoseLine(r: Reader, x: string, y: string, e: (string, string), identity: nat)
    requires IsOneLine(x) && IsOneLine(y) && IsOneLine(x + y) && |y| < MAX_GROWTH
    requires r.change(x) == None && r.change(y) == None && !r.isStart(x) && !r.isStart(y) && !r.isStart(x + y)
    requires r.change(x + y) == Some(Opened(e.0, e.1))
    ensures LosesLine(r, x, y, e, identity)
  {
    var log, v := x + y + "\n", View(map[], "");
    PollOfBack(x, y, identity);
    ScannedOne(x);
    OneLine(x + y);
    HalvesShowNothing(r, x, y);
    WholeShows(r, x + y, e);
    NotReadOnce(r, v, x, [y], log);
  }

  /** The follower is placed after the front of a line and the history ends there too. The polls bring the rest of the
      line, and the connection it opens is never shown. */
  lemma CutLineIsLost(e: (string, string), identity: nat)
    ensures LosesLine(LineReader(OneRecord(e)), FRONT, BACK, e, identity)
  {
    FrontSaysNothing(e);
    BackSaysNothing(e);
    WholeIsNoStart();
    WholeOpens(e);
    HalvesLoseLine(LineReader(OneRecord(e)), FRONT, BACK, e, identity);
  }
}
