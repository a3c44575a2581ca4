/** The systemd unit line by line, and its quoted values read back. */
module UnitText {
  import opened Basics
  import opened Text
  import opened UnitFile

  // ----- values without environment variables -----

  lemma EscapedPlainConcat(a: string, b: string)
    ensures Escaped(a + b, false) == Escaped(a, false) + Escaped(b, false)
  {
    ReplaceConcat(a, b, '%', "%%");
    var a1, b1 := Replace(a, '%', "%%"), Replace(b, '%', "%%");
    ReplaceConcat(a1, b1, '\\', "\\\\");
    ReplaceConcat(Replace(a1, '\\', "\\\\"), Replace(b1, '\\', "\\\\"), '"', "\\\"");
  }

  function PlainChar(c: char): string {
    if c == '%' then "%%" else if c == '\\' then "\\\\" else if c == '"' then "\\\"" else [c]
  }

  lemma EscapedPlainChar(c: char)
    ensures Escaped([c], false) == PlainChar(c)
  {
    ReplaceChar(c, '%', "%%");
    if c == '%' {
      ReplacePair('%', '%', '\\', "\\\\");
      ReplacePair('%', '%', '"', "\\\"");
    } else {
      ReplaceChar(c, '\\', "\\\\");
      if c == '\\' {
        ReplacePair('\\', '\\', '"', "\\\"");
      } else {
        ReplaceChar(c, '"', "\\\"");
      }
    }
  }

  lemma UnslashPlainChar(c: char, rest: string)
    ensures Unslash(PlainChar(c) + rest) == (if c == '%' then "%%" else [c]) + Unslash(rest)
  {
    if c == '\\' || c == '"' {
      UnslashPair(c, rest);
      assert PlainChar(c) == "\\" + [c];
    } else if c == '%' {
      UnslashTwo(c, rest);
      assert PlainChar(c) == [c, c];
    } else {
      UnslashOne(c, rest);
    }
  }

  lemma {:induction false} UnslashPlain(s: string)
    ensures Unslash(Escaped(s, false)) == Replace(s, '%', "%%")
  {
    if s != "" {
      assert [s[0]] + s[1..] == s;
      EscapedPlainConcat([s[0]], s[1..]);
      EscapedPlainChar(s[0]);
      UnslashPlainChar(s[0], Escaped(s[1..], false));
      UnslashPlain(s[1..]);
    }
  }

  lemma {:induction false} HalveReplaced(s: string)
    ensures Halve(Replace(s, '%', "%%"), '%') == s
  {
    if s != "" {
      var rest := Replace(s[1..], '%', "%%");
      HalveReplaced(s[1..]);
      if s[0] == '%' {
        HalvePair(rest, '%');
      } else {
        HalveOne(s[0], rest, '%');
      }
    }
  }

  /** Quoting without environment variables is undone by dropping the backslashes and halving the percent signs. */
  lemma PlainIsReadBack(s: string)
    ensures Halve(Unslash(Escaped(s, false)), '%') == s
  {
    UnslashPlain(s);
    HalveReplaced(s);
  }

  // ----- the lines -----

  lemma WordsText()
    ensures MANAGED + SERVICE + PAUSE + CONFIG + " " == " -managed -service-mode -pause-on-exit=false -config "
    ensures EXEC_START == "ExecStart="
  {
    assert MANAGED + SERVICE == " -managed -service-mode";
    assert " -managed -service-mode" + PAUSE == " -managed -service-mode -pause-on-exit=false";
    assert CONFIG + " " == " -config ";
    assert " -managed -service-mode -pause-on-exit=false" + " -config " == " -managed -service-mode -pause-on-exit=false -config ";
    var m := " -managed -service-mode -pause-on-exit=false";
    assert m + CONFIG + " " == m + (CONFIG + " ");
  }

  function ExecWith(binary: string, config: string): string {
    "ExecStart=" + "\"" + binary + "\"" + " -managed -service-mode -pause-on-exit=false -config " + "\"" + config + "\""
  }

  /** The lines of a unit, with the texts of its quoted values. */
  function UnitWith(o: Options, dir: string, home: string, binary: string, config: string, protected: string): seq<string> {
    ["[Unit]", "Description=1Cat Tunnel Client", "Wants=network-online.target", "After=network-online.target", "",
     "[Service]", "Type=simple"]
    + (if o.systemService then ["User=" + o.userName] else [])
    + ["WorkingDirectory=" + dir, "Environment=" + ("\"" + home + "\""),
       ExecWith(binary, config),
       "Restart=always", "RestartSec=5", "UMask=0077", "NoNewPrivileges=true"]
    + (if o.systemService
       then ["PrivateTmp=true", "ProtectSystem=strict", "ProtectHome=read-only", "ReadWritePaths=" + ("\"" + protected + "\"")]
       else [])
    + ["", "[Install]", "WantedBy=" + (if o.systemService then "multi-user.target" else "default.target"), ""]
  }

  lemma ExecJoined(e: string, b: string, w: string, c: string)
    ensures e + ("\"" + b + "\"") + w + ("\"" + c + "\"") == e + "\"" + b + "\"" + w + "\"" + c + "\""
  {
    assert e + ("\"" + b + "\"") == e + "\"" + b + "\"";
    var f := e + "\"" + b + "\"" + w;
    assert f + ("\"" + c + "\"") == f + "\"" + c + "\"";
  }

  lemma ExecText(binary: string, config: string)
    ensures ExecStart("\"" + binary + "\"", "\"" + config + "\"") == ExecWith(binary, config)
  {
    WordsText();
    ExecJoined(EXEC_START, binary, MANAGED + SERVICE + PAUSE + CONFIG + " ", config);
  }

  lemma UnitLinesAre(o: Options)
    requires UnitLines(o).Some?
    ensures OneLine(Escaped("HOME=" + o.home, false)) && OneLine(Escaped(o.binary, true)) && OneLine(Escaped(o.configPath, true))
    ensures o.systemService ==> OneLine(Escaped(o.configDir, false))
    ensures UnitLines(o).value ==
              UnitWith(o, Replace(o.configDir, '%', "%%"), Escaped("HOME=" + o.home, false), Escaped(o.binary, true),
                       Escaped(o.configPath, true), Escaped(o.configDir, false))
  {
    ExecText(Escaped(o.binary, true), Escaped(o.configPath, true));
    var dir, home := "WorkingDirectory=" + Replace(o.configDir, '%', "%%"), "Environment=" + SystemdQuote("HOME=" + o.home, false).value;
    LinesJoined(UnitHead() + User(o), dir, home, ExecWith(Escaped(o.binary, true), Escaped(o.configPath, true)), UnitRules(),
                Protection(o).value, UnitEnd(o));
    assert UnitRules() == ["Restart=always", "RestartSec=5", "UMask=0077", "NoNewPrivileges=true"];
    assert [dir, home, ExecWith(Escaped(o.binary, true), Escaped(o.configPath, true))] + UnitRules()
        == [dir, home, ExecWith(Escaped(o.binary, true), Escaped(o.configPath, true)),
            "Restart=always", "RestartSec=5", "UMask=0077", "NoNewPrivileges=true"];
  }

  lemma LinesJoined(head: seq<string>, a: string, b: string, x: string, rules: seq<string>, protection: seq<string>, end: seq<string>)
    ensures (head + [a, b]) + [x] + (rules + protection + end) == head + ([a, b, x] + rules) + protection + end
  {
    assert (head + [a, b]) + [x] == head + [a, b, x];
    assert head + [a, b, x] + (rules + protection + end) == head + [a, b, x] + rules + protection + end;
    assert head + [a, b, x] + rules == head + ([a, b, x] + rules);
  }

  predicate OwnText(s: string) {
    forall i :: 0 <= i < |s| ==> s[i] != '\r' && s[i] != '\n' && s[i] != '\0'
  }

  lemma OwnTextIsLine(s: string)
    ensures OwnText(s) <==> OneLine(s)
  {
  }

  lemma {:induction false} ReplacedLine(s: string, c: char, with: string)
    requires OwnText(with) && c != '\r' && c != '\n' && c != '\0'
    ensures OwnText(Replace(s, c, with)) <==> OwnText(s)
  {
    if s != "" {
      var first, rest := if s[0] == c then with else [s[0]], Replace(s[1..], c, with);
      ReplacedLine(s[1..], c, with);
      OwnTextConcat(first, rest);
      assert s == [s[0]] + s[1..];
      OwnTextConcat([s[0]], s[1..]);
    }
  }

  lemma OwnTextConcat(a: string, b: string)
    ensures OwnText(a + b) <==> OwnText(a) && OwnText(b)
  {
    if OwnText(a + b) {
      assert forall i :: 0 <= i < |a| ==> a[i] == (a + b)[i];
      assert forall i :: 0 <= i < |b| ==> b[i] == (a + b)[|a| + i];
    }
  }

  lemma EscapedLine(s: string, expandEnv: bool)
    ensures OneLine(Escaped(s, expandEnv)) <==> OwnText(s)
  {
    ReplacedLine(s, '%', "%%");
    var a := Replace(s, '%', "%%");
    ReplacedLine(a, '\\', "\\\\");
    var b := Replace(a, '\\', "\\\\");
    ReplacedLine(b, '"', "\\\"");
    ReplacedLine(Replace(b, '"', "\\\""), '$', "$$");
    OwnTextIsLine(Escaped(s, expandEnv));
  }

  /** The lines of the unit of a service, and what its values are read back as. */
  lemma UnitSays(o: Options) returns (dir: string, home: string, binary: string, config: string, protected: string)
    requires ServiceUnit(o).Some?
    ensures ServiceUnit(o).value == Join(UnitWith(o, dir, home, binary, config, protected), "\n")
    ensures Halve(dir, '%') == o.configDir && Halve(Unslash(home), '%') == "HOME=" + o.home
    ensures Unescaped(binary) == o.binary && Unescaped(config) == o.configPath
    ensures Halve(Unslash(protected), '%') == o.configDir
  {
    UnitLinesAre(o);
    dir, home, protected := Replace(o.configDir, '%', "%%"), Escaped("HOME=" + o.home, false), Escaped(o.configDir, false);
    binary, config := Escaped(o.binary, true), Escaped(o.configPath, true);
    HalveReplaced(o.configDir);
    PlainIsReadBack("HOME=" + o.home);
    PlainIsReadBack(o.configDir);
    UnescapedEscaped(o.binary);
    UnescapedEscaped(o.configPath);
    EscapedIsPerChar(o.binary);
    EscapedIsPerChar(o.configPath);
  }

  lemma TrimmedOrNot(s: string)
    ensures s == Trim(s) <==> Trimmed(s)
  {
    TrimIsTrimmed(s);
    if Trimmed(s) {
      TrimOfTrimmed(s);
    }
  }

  /** A unit is refused exactly for a value that does not fit on a line, or a directory that is not absolute or starts or
      ends with white space. */
  lemma RefusedUnits(o: Options)
    ensures ServiceUnit(o).Some? <==>
              && o.configDir != "" && o.configDir[0] == '/' && Trimmed(o.configDir) && OwnText(o.configDir)
              && OwnText(o.home) && OwnText(o.binary) && OwnText(o.configPath)
  {
    TrimmedOrNot(o.configDir);
    OwnTextIsLine(o.configDir);
    EscapedLine("HOME=" + o.home, false);
    OwnTextConcat("HOME=", o.home);
    EscapedLine(o.binary, true);
    EscapedLine(o.configPath, true);
    EscapedLine(o.configDir, false);
  }

  // ----- line ends -----

  lemma LastLine(l: string)
    requires '\n' !in l
    ensures Lines(l) == [l]
  {
    SplitSingle(l, '\n');
  }

  function WithoutReturn(l: string): string {
    if l != "" && l[|l| - 1] == '\r' then l[..|l| - 1] else l
  }

  /** Every line but the last loses a carriage return at its end. */
  lemma LinesOfPieces(text: string, p: seq<string>)
    requires p == Split(text, '\n')
    ensures |Lines(text)| == |p|
    ensures forall i :: 0 <= i < |p| ==> Lines(text)[i] == if i < |p| - 1 then WithoutReturn(p[i]) else p[i]
  {
  }

  lemma PieceBehind(strip: string -> string, l: string, q: seq<string>, a: seq<string>, b: seq<string>)
    requires |q| > 0 && |a| == |q| + 1 && |b| == |q|
    requires forall i :: 0 <= i < |a| ==> a[i] == if i < |q| then strip(([l] + q)[i]) else ([l] + q)[i]
    requires forall i :: 0 <= i < |b| ==> b[i] == if i < |q| - 1 then strip(q[i]) else q[i]
    ensures a == [strip(l)] + b
  {
    forall i | 0 <= i < |b| ensures a[i + 1] == b[i] {
      assert ([l] + q)[i + 1] == q[i];
    }
    assert a[0] == strip(l);
  }

  lemma LinesBehind(l: string, rest: string)
    requires Split(l + ['\n'] + rest, '\n') == [l] + Split(rest, '\n')
    ensures Lines(l + ['\n'] + rest) == [WithoutReturn(l)] + Lines(rest)
  {
    var q := Split(rest, '\n');
    LinesOfPieces(l + ['\n'] + rest, [l] + q);
    LinesOfPieces(rest, q);
    PieceBehind(WithoutReturn, l, q, Lines(l + ['\n'] + rest), Lines(rest));
  }

  /** A line ends with a newline, and a carriage return before it does not belong to it. */
  lemma FirstLine(l: string, rest: string)
    requires '\n' !in l
    ensures Lines(l + "\r\n" + rest) == [l] + Lines(rest)
    ensures (l == "" || l[|l| - 1] != '\r') ==> Lines(l + "\n" + rest) == [l] + Lines(rest)
  {
    var m := l + "\r";
    assert l + "\r\n" + rest == m + ['\n'] + rest;
    SplitFirst(m, rest, '\n');
    assert m[|m| - 1] == '\r' && m[..|m| - 1] == l;
    LinesBehind(m, rest);
    assert l + "\n" + rest == l + ['\n'] + rest;
    SplitFirst(l, rest, '\n');
    LinesBehind(l, rest);
  }
}
