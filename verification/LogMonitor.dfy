/**
 The connection monitor: it reads the history of the service log once, then follows the log by polling it.
 */
module LogMonitor {
  import opened Basics
  import opened Text
  import opened LogReaders

  // ----- what the monitor keeps -----

  datatype View = View(active: map<string, string>, assignment: string)

  function WithChange(active: map<string, string>, change: Option<Change>): map<string, string> {
    match change
    case None => active
    case Some(Opened(id, event)) => active[id := event]
    case Some(Closed(id)) => active - {id}
  }

  /** A start of the service clears the connections, but not the assignment. */
  function Consumed(r: Reader, v: View, line: string): View {
    View(WithChange(if r.isStart(line) then map[] else v.active, r.change(line)),
         if r.assignment(line) != "" then r.assignment(line) else v.assignment)
  }

  function ConsumedAll(r: Reader, v: View, lines: seq<string>): View
    decreases |lines|
  {
    if |lines| == 0 then v else ConsumedAll(r, Consumed(r, v, lines[0]), lines[1..])
  }

  lemma {:induction false} ConsumedConcat(r: Reader, v: View, a: seq<string>, b: seq<string>)
    ensures ConsumedAll(r, v, a + b) == ConsumedAll(r, ConsumedAll(r, v, a), b)
    decreases |a|
  {
    if |a| == 0 {
      assert a + b == b;
    } else {
      assert (a + b)[1..] == a[1..] + b;
      ConsumedConcat(r, Consumed(r, v, a[0]), a[1..], b);
    }
  }

  /** What lines say about one connection: nothing, that it is open, or that it is not. */
  datatype Word = Nothing | IsOpen(event: string) | IsClosed

  function Said(r: Reader, line: string, id: string): Word {
    match r.change(line)
    case Some(Opened(k, event)) => if k == id then IsOpen(event) else if r.isStart(line) then IsClosed else Nothing
    case Some(Closed(k)) => if k == id || r.isStart(line) then IsClosed else Nothing
    case None => if r.isStart(line) then IsClosed else Nothing
  }

  /** The last word of the lines about a connection. */
  function LastWord(r: Reader, lines: seq<string>, id: string): Word {
    if |lines| == 0 then Nothing
    else if LastWord(r, lines[1..], id) != Nothing then LastWord(r, lines[1..], id)
    else Said(r, lines[0], id)
  }

  function LastAssignment(r: Reader, lines: seq<string>): string {
    if |lines| == 0 then ""
    else if LastAssignment(r, lines[1..]) != "" then LastAssignment(r, lines[1..])
    else r.assignment(lines[0])
  }

  predicate Shows(active: map<string, string>, id: string, w: Word, before: map<string, string>) {
    match w
    case IsOpen(event) => id in active && active[id] == event
    case IsClosed => id !in active
    case Nothing => (id in active <==> id in before) && (id in active ==> active[id] == before[id])
  }

  lemma LineShows(r: Reader, v: View, line: string, id: string)
    ensures Shows(Consumed(r, v, line).active, id, Said(r, line, id), v.active)
  {
  }

  lemma {:induction false} LinesShow(r: Reader, v: View, lines: seq<string>, id: string)
    ensures Shows(ConsumedAll(r, v, lines).active, id, LastWord(r, lines, id), v.active)
    decreases |lines|
  {
    if |lines| > 0 {
      LineShows(r, v, lines[0], id);
      LinesShow(r, Consumed(r, v, lines[0]), lines[1..], id);
    }
  }

  lemma {:induction false} LinesAssign(r: Reader, v: View, lines: seq<string>)
    ensures ConsumedAll(r, v, lines).assignment ==
            if LastAssignment(r, lines) != "" then LastAssignment(r, lines) else v.assignment
    decreases |lines|
  {
    if |lines| > 0 {
      LinesAssign(r, Consumed(r, v, lines[0]), lines[1..]);
    }
  }

  /** Reading the last lines twice is the same as reading them once. */
  lemma ConsumedTwice(r: Reader, v: View, lines: seq<string>)
    ensures ConsumedAll(r, ConsumedAll(r, v, lines), lines) == ConsumedAll(r, v, lines)
  {
    var once := ConsumedAll(r, v, lines);
    var twice := ConsumedAll(r, once, lines);
    forall id ensures Shows(twice.active, id, Nothing, once.active) {
      LinesShow(r, v, lines, id);
      LinesShow(r, once, lines, id);
    }
    assert twice.active == once.active by {
      forall id ensures id in twice.active <==> id in once.active {
        assert Shows(twice.active, id, Nothing, once.active);
      }
      forall id | id in twice.active ensures twice.active[id] == once.active[id] {
        assert Shows(twice.active, id, Nothing, once.active);
      }
    }
    LinesAssign(r, v, lines);
    LinesAssign(r, once, lines);
  }

  // ----- bytes to lines -----

  function TrimReturn(line: string): string {
    if line != "" && line[|line| - 1] == '\r' then line[..|line| - 1] else line
  }

  predicate NotEmpty(line: string) {
    line != ""
  }

  /** The lines without a trailing carriage return, and without the empty ones. */
  function KeptLines(raw: seq<string>): seq<string> {
    Normalized(TrimReturn, NotEmpty, raw)
  }

  function LinesIn(pieces: seq<string>): seq<string>
    requires |pieces| > 0
  {
    KeptLines(pieces[..|pieces| - 1])
  }

  function RestIn(pieces: seq<string>): string
    requires |pieces| > 0
  {
    pieces[|pieces| - 1]
  }

  lemma LinesInConcat(init: seq<string>, pieces: seq<string>)
    requires |pieces| > 0
    ensures LinesIn(init + pieces) == KeptLines(init) + LinesIn(pieces) && RestIn(init + pieces) == RestIn(pieces)
  {
    assert (init + pieces)[..|init| + |pieces| - 1] == init + pieces[..|pieces| - 1];
    NormalizedConcat(TrimReturn, NotEmpty, init, pieces[..|pieces| - 1]);
  }

  /** The non-empty lines up to the last newline. */
  function CompleteLines(s: string): seq<string> {
    LinesIn(Split(s, '\n'))
  }

  /** What follows the last newline. */
  function Rest(s: string): string {
    RestIn(Split(s, '\n'))
  }

  /** The pieces of a text whose last piece is continued by another text. */
  lemma JoinContinued(init: seq<string>, last: string, b: string, t: seq<string>, sep: string)
    requires |t| > 0 && Join(t, sep) == last + b
    ensures Join(init + t, sep) == Join(init + [last], sep) + b
  {
    if |init| == 0 {
      assert init + t == t && init + [last] == [last];
    } else {
      JoinConcat(init, t, sep);
      JoinSnoc(init, last, sep);
      assert Join(init, sep) + sep + (last + b) == Join(init, sep) + sep + last + b;
    }
  }

  lemma SplitContinued(init: seq<string>, last: string, b: string, t: seq<string>, c: char)
    requires |t| > 0 && Join(t, [c]) == last + b
    requires forall l :: l in init + t ==> c !in l
    ensures Split(Join(init + [last], [c]) + b, c) == init + t
  {
    JoinContinued(init, last, b, t, [c]);
    SplitJoin(init + t, c);
  }

  lemma SplitPieces(p: seq<string>, a: string, b: string, t: seq<string>, c: char)
    requires |p| > 0 && p == Split(a, c) && t == Split(p[|p| - 1] + b, c)
    ensures Split(a + b, c) == p[..|p| - 1] + t
  {
    var init, last := p[..|p| - 1], p[|p| - 1];
    JoinSplit(a, c);
    JoinSplit(last + b, c);
    assert p == init + [last];
    forall l | l in init + t ensures c !in l {
      assert l in p || l in t;
    }
    SplitContinued(init, last, b, t, c);
  }

  lemma SplitConcat(a: string, b: string, c: char)
    ensures var p := Split(a, c); Split(a + b, c) == p[..|p| - 1] + Split(p[|p| - 1] + b, c)
  {
    var p := Split(a, c);
    SplitPieces(p, a, b, Split(p[|p| - 1] + b, c), c);
  }

  /** However the bytes are split, what is left of the first part goes in front of the second. */
  lemma LinesOfConcat(a: string, b: string)
    ensures CompleteLines(a + b) == CompleteLines(a) + CompleteLines(Rest(a) + b)
    ensures Rest(a + b) == Rest(Rest(a) + b)
  {
    var p := Split(a, '\n');
    SplitConcat(a, b, '\n');
    LinesInConcat(p[..|p| - 1], Split(RestIn(p) + b, '\n'));
  }

  lemma SplitAtLast(s: string, k: nat, c: char)
    requires k < |s| && s[k] == c && c !in s[k + 1..]
    ensures Split(s, c) == Split(s[..k], c) + [s[k + 1..]]
  {
    var p, tail := Split(s[..k], c), s[k + 1..];
    JoinSplit(s[..k], c);
    JoinSnoc(p, tail, [c]);
    assert s == s[..k] + [c] + tail;
    SplitJoin(p + [tail], c);
  }

  /** The follower cuts at the last newline and splits what is before it. */
  lemma CutAtLastNewline(s: string, k: nat)
    requires k < |s| && s[k] == '\n' && '\n' !in s[k + 1..]
    ensures CompleteLines(s) == KeptLines(Split(s[..k], '\n')) && Rest(s) == s[k + 1..]
  {
    SplitAtLast(s, k, '\n');
    LinesInConcat(Split(s[..k], '\n'), [s[k + 1..]]);
    assert LinesIn([s[k + 1..]]) == [];
  }

  lemma NoNewline(s: string)
    requires '\n' !in s
    ensures CompleteLines(s) == [] && Rest(s) == s
  {
    SplitSingle(s, '\n');
  }

  lemma RestHasNoNewline(s: string)
    ensures '\n' !in Rest(s)
  {
    var p := Split(s, '\n');
    assert p[|p| - 1] in p;
  }

  // ----- following the log -----

  const MAX_GROWTH := 8 * 1024 * 1024

  datatype Follower = Follower(identity: Option<nat>, offset: nat, partial: string)

  /** The log file at the time of a poll; `identity` tells the file apart from one that replaced it. */
  datatype Disk = Absent | Unreadable | OnDisk(identity: nat, content: string)

  function Reset(f: Follower, identity: nat, size: nat): Follower {
    if f.identity != Some(identity) || size < f.offset then Follower(Some(identity), 0, "") else f
  }

  /** What a poll returns: the lines completed since the last one, or nothing if it fails. */
  function Poll(f: Follower, disk: Disk): (Follower, Option<seq<string>>) {
    match disk
    case Absent => (f, Some([]))
    case Unreadable => (f, None)
    case OnDisk(identity, content) =>
      var g := Reset(f, identity, |content|);
      if |content| - g.offset > MAX_GROWTH then (g, None)
      else
        var combined := g.partial + content[g.offset..];
        if g.offset == |content| then (g, Some([]))
        else (Follower(Some(identity), |content|, Rest(combined)), Some(CompleteLines(combined)))
  }

  class LogFollower {
    var identity: Option<nat>
    var offset: nat
    var partial: string

    ghost function View(): Follower
      reads this
    {
      Follower(identity, offset, partial)
    }

    constructor (disk: Disk)
      ensures View() == match disk
                        case OnDisk(identity, content) => Follower(Some(identity), |content|, "")
                        case _ => Follower(None, 0, "")
    {
      identity := if disk.OnDisk? then Some(disk.identity) else None;
      offset := if disk.OnDisk? then |disk.content| else 0;
      partial := "";
    }

    method ReadAvailable(disk: Disk) returns (lines: Option<seq<string>>)
      modifies this
      ensures (View(), lines) == Poll(old(View()), disk)
    {
      if disk.Absent? {
        return Some([]);
      }
      if disk.Unreadable? {
        return None;
      }
      if identity != Some(disk.identity) || |disk.content| < offset {
        identity, offset, partial := Some(disk.identity), 0, "";
      }
      var payload := disk.content[offset..];
      if |payload| > MAX_GROWTH {
        return None;
      }
      offset := offset + |payload|;
      identity := Some(disk.identity);
      if |payload| == 0 {
        return Some([]);
      }
      var complete := TakeLines(payload);
      lines := Some(complete);
    }

    /** The lines completed by the bytes read; the rest is kept for the next poll. */
    method TakeLines(payload: string) returns (lines: seq<string>)
      modifies this`partial
      ensures partial == Rest(old(partial) + payload) && lines == CompleteLines(old(partial) + payload)
    {
      var combined := partial + payload;
      var last := LastNewline(combined);
      if last < 0 {
        NoNewline(combined);
        partial := combined;
        return [];
      }
      CutAtLastNewline(combined, last);
      partial := combined[last + 1..];
      lines := NormalizeList(TrimReturn, NotEmpty, Split(combined[..last], '\n'));
    }
  }

  method LastNewline(s: string) returns (k: int)
    ensures -1 <= k < |s|
    ensures k == -1 ==> '\n' !in s
    ensures k >= 0 ==> s[k] == '\n' && '\n' !in s[k + 1..]
  {
    k := |s| - 1;
    while k >= 0
      invariant -1 <= k < |s|
      invariant '\n' !in s[k + 1..]
    {
      if s[k] == '\n' {
        return;
      }
      assert s[k..] == [s[k]] + s[k + 1..];
      k := k - 1;
    }
    assert s[0..] == s;
  }

  /** Polls of one file as it grows, one for each content; all lines returned. */
  function PollAll(f: Follower, identity: nat, contents: seq<string>): (Follower, seq<string>)
    decreases |contents|
  {
    if |contents| == 0 then (f, [])
    else
      var p := Poll(f, OnDisk(identity, contents[0]));
      var q := PollAll(p.0, identity, contents[1..]);
      (q.0, (if p.1.Some? then p.1.value else []) + q.1)
  }

  /** The file only grows, and by no more than the limit between two polls. */
  predicate Grows(offset: nat, contents: seq<string>, final: string)
    decreases |contents|
  {
    if |contents| == 0 then offset == |final|
    else
      && offset <= |contents[0]| <= offset + MAX_GROWTH && contents[0] <= final
      && Grows(|contents[0]|, contents[1..], final)
  }

  lemma PollReads(f: Follower, identity: nat, content: string)
    requires f.identity == Some(identity) && f.offset <= |content| <= f.offset + MAX_GROWTH && '\n' !in f.partial
    ensures var combined := f.partial + content[f.offset..];
            Poll(f, OnDisk(identity, content)) ==
              (Follower(Some(identity), |content|, Rest(combined)), Some(CompleteLines(combined)))
  {
    if f.offset == |content| {
      assert f.partial + content[f.offset..] == f.partial;
      NoNewline(f.partial);
    }
  }

  lemma ReadInTwo(partial: string, c: string, final: string, offset: nat)
    requires offset <= |c| && c <= final
    ensures partial + final[offset..] == (partial + c[offset..]) + final[|c|..]
  {
    assert final[offset..] == c[offset..] + final[|c|..];
  }

  /** However the appended bytes are split over polls, the lines returned are the complete, non-empty lines. */
  lemma {:induction false} PollingIsIndependent(f: Follower, identity: nat, contents: seq<string>, final: string)
    requires f.identity == Some(identity) && '\n' !in f.partial
    requires f.offset <= |final| && Grows(f.offset, contents, final)
    ensures PollAll(f, identity, contents) ==
            (Follower(Some(identity), |final|, Rest(f.partial + final[f.offset..])), CompleteLines(f.partial + final[f.offset..]))
    decreases |contents|
  {
    if |contents| == 0 {
      assert f.partial + final[f.offset..] == f.partial;
      NoNewline(f.partial);
    } else {
      var c := contents[0];
      var a := f.partial + c[f.offset..];
      PollReads(f, identity, c);
      RestHasNoNewline(a);
      var g := Follower(Some(identity), |c|, Rest(a));
      PollingIsIndependent(g, identity, contents[1..], final);
      LinesOfConcat(a, final[|c|..]);
      ReadInTwo(f.partial, c, final, f.offset);
    }
  }

  // ----- the monitor -----

  class ConnectionMonitor {
    const reader: Reader
    var active: map<string, string>
    var assignment: string

    ghost function Kept(): View
      reads this
    {
      View(active, assignment)
    }

    constructor (reader: Reader)
      ensures this.reader == reader && Kept() == View(map[], "")
    {
      this.reader := reader;
      active, assignment := map[], "";
    }

    method ConsumeLine(line: string)
      modifies this
      ensures Kept() == Consumed(reader, old(Kept()), line)
    {
      if reader.isStart(line) {
        active := map[];
      }
      var found := reader.assignment(line);
      if found != "" && found != assignment {
        assignment := found;
      }
      match reader.change(line)
      case None =>
      case Some(Opened(id, event)) => active := active[id := event];
      case Some(Closed(id)) => active := active - {id};
    }

    method ConsumeLines(lines: seq<string>)
      modifies this
      ensures Kept() == ConsumedAll(reader, old(Kept()), lines)
    {
      assert lines[0..] == lines;
      for i := 0 to |lines|
        invariant ConsumedAll(reader, old(Kept()), lines) == ConsumedAll(reader, Kept(), lines[i..])
      {
        assert lines[i..][1..] == lines[i + 1..];
        ConsumeLine(lines[i]);
      }
    }

    /** The history is read from the oldest file on, up to a broken one. Files are listed newest first. */
    method LoadHistory(files: seq<LogFile>) returns (ok: bool)
      modifies this
      ensures (forall k :: 0 <= k < |files| ==> !files[k].Broken?) ==>
                && Kept() == ConsumedAll(reader, old(Kept()), AllLines(files))
                && (ok <==> exists k :: 0 <= k < |files| && files[k].Readable?)
      ensures (exists k :: 0 <= k < |files| && files[k].Broken?) ==> !ok
    {
      var readAny := false;
      var i := |files|;
      assert AllLines(files[i..]) == [];
      while i > 0
        invariant 0 <= i <= |files|
        invariant forall k :: i <= k < |files| ==> !files[k].Broken?
        invariant Kept() == ConsumedAll(reader, old(Kept()), AllLines(files[i..]))
        invariant readAny <==> exists k :: i <= k < |files| && files[k].Readable?
      {
        i := i - 1;
        assert files[i..][1..] == files[i + 1..];
        ConsumedConcat(reader, old(Kept()), AllLines(files[i + 1..]), LinesOf(files[i]));
        if files[i].Broken? || files[i].Readable? {
          ConsumeLines(files[i].lines);
          if files[i].Broken? {
            return false;
          }
          readAny := true;
        }
      }
      assert files[0..] == files;
      ok := readAny;
    }
  }
}
