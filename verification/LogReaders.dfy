/** What a line of the service log says, and the search for the current SSH assignment, newest file first. */
module LogReaders {
  import opened Basics
  import opened Text

  // ----- what a line says -----

  datatype Change = Opened(id: string, event: string) | Closed(id: string)

  /** What the readers take from a line: whether the service starts, an assignment or nothing, a connection change. */
  datatype Reader = Reader(isStart: string -> bool, assignment: string -> string, change: string -> Option<Change>)

  const START_MARKER := "正在启动 1CatTunnel Windows 服务"
  const LEGACY_START_MARKER := "starting 1CatTunnel Windows service"
  const PRESET_MARKER := "preset=SSH"
  const PUBLIC_MARKER := "public="
  const OPEN_MARKER := "TCP OPEN "
  const CLOSE_MARKER := "TCP CLOSE "

  predicate IsServiceStart(line: string) {
    Contains(line, START_MARKER) || Contains(line, LEGACY_START_MARKER)
  }

  function FirstField(value: string): string {
    var fields := Fields(Trim(value));
    if |fields| > 0 then fields[0] else ""
  }

  function SshAssignment(line: string): string {
    if !Contains(line, PRESET_MARKER) then ""
    else
      var i := Index(line, PUBLIC_MARKER);
      if i < 0 then "" else FirstField(line[i + |PUBLIC_MARKER|..])
  }

  /** `decode` reads the record of an event: its connection ID, if it is not blank, and the whole record. */
  function ConnectionChange(decode: string -> Option<(string, string)>, line: string): Option<Change> {
    var o, c := Index(line, OPEN_MARKER), Index(line, CLOSE_MARKER);
    if o >= 0 then
      match decode(Trim(line[o + |OPEN_MARKER|..]))
      case None => None
      case Some(e) => Some(Opened(e.0, e.1))
    else if c >= 0 then
      match decode(Trim(line[c + |CLOSE_MARKER|..]))
      case None => None
      case Some(e) => Some(Closed(e.0))
    else None
  }

  function LineReader(decode: string -> Option<(string, string)>): Reader {
    Reader(IsServiceStart, SshAssignment, line => ConnectionChange(decode, line))
  }

  predicate IgnoresEmpty(r: Reader) {
    !r.isStart("") && r.assignment("") == "" && r.change("") == None
  }

  lemma LineReaderIgnoresEmpty(decode: string -> Option<(string, string)>)
    ensures IgnoresEmpty(LineReader(decode))
  {
  }

  // ----- what the front of a line says -----

  lemma IndexInPrefix(p: string, l: string, m: string)
    requires p <= l
    ensures Contains(p, m) ==> Contains(l, m)
    ensures Index(p, m) >= 0 ==> Index(l, m) == Index(p, m)
  {
    forall i | HasAt(p, m, i) ensures HasAt(l, m, i) {
      assert l[i..i + |m|] == p[i..i + |m|];
    }
    var i := Index(p, m);
    if i >= 0 {
      forall k | 0 <= k < i ensures !HasAt(l, m, k) {
        assert !HasAt(p, m, k);
        assert l[k..k + |m|] == p[k..k + |m|];
      }
    }
  }

  lemma FirstFieldOfText(s: string)
    ensures FirstField(s) != "" <==> !AllSpace(s)
  {
    BlankIsAllSpace(s);
    TrimIsTrimmed(s);
    var t := Trim(s);
    assert TrimLeft(t) == t;
  }

  /** A line says at least what its front says: a start, or an assignment, that may be a longer one. */
  lemma FrontOfLine(p: string, l: string)
    requires p <= l
    ensures IsServiceStart(p) ==> IsServiceStart(l)
    ensures SshAssignment(p) != "" ==> SshAssignment(l) != ""
  {
    IndexInPrefix(p, l, START_MARKER);
    IndexInPrefix(p, l, LEGACY_START_MARKER);
    if SshAssignment(p) != "" {
      IndexInPrefix(p, l, PRESET_MARKER);
      IndexInPrefix(p, l, PUBLIC_MARKER);
      LongerField(p, l, Index(p, PUBLIC_MARKER) + |PUBLIC_MARKER|);
    }
  }

  lemma LongerField(p: string, l: string, k: nat)
    requires p <= l && k <= |p| && FirstField(p[k..]) != ""
    ensures FirstField(l[k..]) != ""
  {
    FirstFieldOfText(p[k..]);
    FirstFieldOfText(l[k..]);
    var i :| 0 <= i < |p[k..]| && !IsSpace(p[k..][i]);
    assert l[k..][i] == p[k..][i];
  }

  /** The front of a line holds no event, or the event of the line. */
  predicate CutEvent(decode: string -> Option<(string, string)>, p: string, l: string) {
    ConnectionChange(decode, p) == None || ConnectionChange(decode, p) == ConnectionChange(decode, l)
  }

  // ----- the current assignment -----

  /** A file of the retained log; a broken one fails after some lines. */
  datatype LogFile = Missing | Denied | Broken(lines: seq<string>) | Readable(lines: seq<string>)

  function LinesOf(f: LogFile): seq<string> {
    if f.Broken? || f.Readable? then f.lines else []
  }

  /** All lines, oldest first, of files listed newest first. */
  function AllLines(files: seq<LogFile>): seq<string> {
    if |files| == 0 then [] else AllLines(files[1..]) + LinesOf(files[0])
  }

  function AfterLine(r: Reader, current: string, line: string): string {
    if r.isStart(line) then "" else if r.assignment(line) != "" then r.assignment(line) else current
  }

  /** The assignment after the lines: the latest one since the last start of the service. */
  function Latest(r: Reader, lines: seq<string>, current: string): string {
    if |lines| == 0 then current else Latest(r, lines[1..], AfterLine(r, current, lines[0]))
  }

  predicate Starts(r: Reader, lines: seq<string>) {
    exists i :: 0 <= i < |lines| && r.isStart(lines[i])
  }

  lemma {:induction false} LatestConcat(r: Reader, a: seq<string>, b: seq<string>, current: string)
    ensures Latest(r, a + b, current) == Latest(r, b, Latest(r, a, current))
  {
    if |a| == 0 {
      assert a + b == b;
    } else {
      assert (a + b)[1..] == a[1..] + b;
      LatestConcat(r, a[1..], b, AfterLine(r, current, a[0]));
    }
  }

  /** Lines with an assignment or a start decide; others leave what was before. */
  lemma {:induction false} LatestDecides(r: Reader, lines: seq<string>, current: string)
    ensures Latest(r, lines, current) ==
            if Latest(r, lines, "") != "" || Starts(r, lines) then Latest(r, lines, "") else current
  {
    if |lines| > 0 {
      LatestDecides(r, lines[1..], AfterLine(r, current, lines[0]));
      LatestDecides(r, lines[1..], AfterLine(r, "", lines[0]));
      assert Starts(r, lines) <==> r.isStart(lines[0]) || Starts(r, lines[1..]) by {
        if Starts(r, lines[1..]) {
          var i :| 0 <= i < |lines[1..]| && r.isStart(lines[1..][i]);
          assert r.isStart(lines[i + 1]);
        }
        if Starts(r, lines) && !r.isStart(lines[0]) {
          var i :| 0 <= i < |lines| && r.isStart(lines[i]);
          assert r.isStart(lines[1..][i - 1]);
        }
      }
    }
  }

  method ScanAssignmentLog(r: Reader, lines: seq<string>) returns (assignment: string, sawServiceStart: bool)
    ensures assignment == Latest(r, lines, "")
    ensures sawServiceStart <==> Starts(r, lines)
  {
    assignment, sawServiceStart := "", false;
    assert lines[0..] == lines;
    for i := 0 to |lines|
      invariant Latest(r, lines, "") == Latest(r, lines[i..], assignment)
      invariant sawServiceStart <==> exists k :: 0 <= k < i && r.isStart(lines[k])
    {
      var line := lines[i];
      assert lines[i..][1..] == lines[i + 1..];
      if r.isStart(line) {
        assignment, sawServiceStart := "", true;
        continue;
      }
      var value := r.assignment(line);
      if value != "" {
        assignment := value;
      }
    }
  }

  /** What a file decides on its own. */
  predicate Decides(r: Reader, f: LogFile) {
    Latest(r, LinesOf(f), "") != "" || Starts(r, LinesOf(f))
  }

  /** The search stops at the first file, from the newest on, that decides or is broken. */
  predicate StopsAt(r: Reader, files: seq<LogFile>, i: nat) {
    && i < |files| && (files[i].Broken? || Decides(r, files[i]))
    && forall k :: 0 <= k < i ==> !files[k].Broken? && !Decides(r, files[k])
  }

  lemma {:induction false} UndecidedFiles(r: Reader, files: seq<LogFile>, i: nat)
    requires i <= |files| && forall k :: 0 <= k < i ==> !Decides(r, files[k])
    ensures Latest(r, AllLines(files), "") == Latest(r, AllLines(files[i..]), "")
  {
    if i > 0 {
      var older := AllLines(files[1..]);
      LatestConcat(r, older, LinesOf(files[0]), "");
      LatestDecides(r, LinesOf(files[0]), Latest(r, older, ""));
      assert !Decides(r, files[0]);
      assert files[i..] == files[1..][i - 1..];
      UndecidedFiles(r, files[1..], i - 1);
    } else {
      assert files[0..] == files;
    }
  }

  lemma DecidedFile(r: Reader, files: seq<LogFile>, i: nat)
    requires StopsAt(r, files, i) && Decides(r, files[i])
    ensures Latest(r, AllLines(files), "") == Latest(r, LinesOf(files[i]), "")
  {
    UndecidedFiles(r, files, i);
    LatestConcat(r, AllLines(files[i + 1..]), LinesOf(files[i]), "");
    assert files[i..][1..] == files[i + 1..];
    LatestDecides(r, LinesOf(files[i]), Latest(r, AllLines(files[i + 1..]), ""));
  }

  /** The search from the newest file on, with its early exits, finds what a fold over all retained lines finds. It fails
      if it comes to a broken file first, or if no file can be read and one is denied. */
  method LatestSSHAssignment(r: Reader, files: seq<LogFile>) returns (found: Option<string>)
    ensures found.Some? ==> found.value == Latest(r, AllLines(files), "")
    ensures found.None? <==>
              || (exists i: nat :: StopsAt(r, files, i) && files[i].Broken?)
              || ((forall k :: 0 <= k < |files| ==> files[k].Missing? || files[k].Denied?)
                  && exists k :: 0 <= k < |files| && files[k].Denied?)
    ensures (exists i :: 0 <= i < |files| && files[i].Broken?
                         && forall k :: 0 <= k < i ==> !files[k].Broken? && Latest(r, LinesOf(files[k]), "") == ""
                                                       && !Starts(r, LinesOf(files[k]))) ==>
              found.None?
  {
    var denied, readAny := false, false;
    for i := 0 to |files|
      invariant forall k :: 0 <= k < i ==> !files[k].Broken? && !Decides(r, files[k])
      invariant readAny <==> exists k :: 0 <= k < i && files[k].Readable?
      invariant denied <==> exists k :: 0 <= k < i && files[k].Denied?
    {
      if files[i].Missing? {
        continue;
      }
      if files[i].Denied? {
        denied := true;
        continue;
      }
      readAny := true;
      if files[i].Broken? {
        assert StopsAt(r, files, i);
        return None;
      }
      var assignment, sawServiceStart := ScanAssignmentLog(r, files[i].lines);
      if assignment != "" || sawServiceStart {
        assert StopsAt(r, files, i);
        DecidedFile(r, files, i);
        return Some(assignment);
      }
    }
    UndecidedFiles(r, files, |files|);
    assert files[|files|..] == [];
    if !readAny && denied {
      return None;
    }
    found := Some("");
  }
}
