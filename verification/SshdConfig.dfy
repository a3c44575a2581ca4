/**
 The rewriter of OpenSSH's sshd_config: it removes the block this program manages, refuses texts whose
 listening address or key command somebody else set, and puts a fresh block before the first Match section.
 */
module SshdConfig {
  import opened Text
  import opened SshdLayout

  const BEGIN := "# BEGIN 1CatTunnel managed SSH settings"
  const END := "# END 1CatTunnel managed SSH settings"
  const LEGACY_KEY_PATH := "__PROGRAMDATA__/1CatTunnel/support-keys/1cattunnel-support-%u"

  // ----- line rules -----

  /** Whether a trimmed line is the directive named: no comment, and its first field is the name in any case. */
  predicate IsDirective(t: string, name: string) {
    !HasPrefix(t, "#") && |Fields(t)| > 0 && EqualFold(Fields(t)[0], name)
  }

  function KindOf(t: string): Kind {
    if t == BEGIN then Opens
    else if t == END then Closes
    else if IsDirective(t, "ListenAddress") then Refused(ReviewListenAddress(t))
    else if IsDirective(t, "AuthorizedKeysCommand") || IsDirective(t, "AuthorizedKeysCommandUser") then
      Refused(ReviewKeysCommand(Fields(t)[0]))
    else Kept
  }

  function Classify(line: string): Kind {
    KindOf(Trim(line))
  }

  predicate IsMatch(line: string) {
    IsDirective(Trim(line), "Match")
  }

  function LineRules(): Rules {
    Rules(Classify, IsMatch, Blank)
  }

  // ----- legacy key paths -----

  predicate IsLegacy(path: string) {
    EqualFold(Trim(path), LEGACY_KEY_PATH)
  }

  function DropLegacy(legacy: string -> bool, paths: seq<string>): (r: seq<string>)
    ensures |r| <= |paths|
    ensures |r| == |paths| ==> r == paths
    ensures AllFields(paths) ==> AllFields(r)
    ensures forall i :: 0 <= i < |r| ==> !legacy(r[i])
    ensures forall p :: p in r <==> p in paths && !legacy(p)
  {
    if |paths| == 0 then []
    else if legacy(paths[0]) then DropLegacy(legacy, paths[1..])
    else [paths[0]] + DropLegacy(legacy, paths[1..])
  }

  function Indent(line: string): (r: string)
    ensures |r| <= |line| && r == line[..|r|]
    ensures AllSpace(r)
  {
    if line != "" && (line[0] == ' ' || line[0] == '\t') then [line[0]] + Indent(line[1..]) else ""
  }

  /** The paths an AuthorizedKeysFile line keeps, in order. */
  function KeptPaths(t: string): (r: seq<string>)
    requires |Fields(t)| > 0
    ensures AllFields(r)
  {
    DropLegacy(IsLegacy, Fields(t)[1..])
  }

  predicate NamesKeyFiles(t: string) {
    t != "" && !HasPrefix(t, "#") && |Fields(t)| >= 2 && EqualFold(Fields(t)[0], "AuthorizedKeysFile")
  }

  function KeysFileLine(kept: seq<string>): string {
    "AuthorizedKeysFile " + Join(kept, " ")
  }

  /** One line without the legacy key path: empty if it named no other path. */
  function LegacyLine(line: string): string {
    var t := Trim(line);
    if !NamesKeyFiles(t) || |KeptPaths(t)| == |Fields(t)| - 1 then line
    else if |KeptPaths(t)| == 0 then ""
    else Indent(line) + KeysFileLine(KeptPaths(t))
  }

  function RemoveLegacy(legacyLine: string -> string, lines: seq<string>): (r: seq<string>)
    ensures |r| == |lines|
    ensures forall i :: 0 <= i < |lines| ==> r[i] == legacyLine(lines[i])
  {
    seq(|lines|, i requires 0 <= i < |lines| => legacyLine(lines[i]))
  }

  // ----- the text -----

  function Block(command: string): seq<string> {
    [ BEGIN,
      "ListenAddress 127.0.0.1",
      "LoginGraceTime 30",
      "MaxAuthTries 4",
      "MaxStartups 16:50:32",
      "PermitEmptyPasswords no",
      "PubkeyAuthentication yes",
      "AuthorizedKeysFile .ssh/authorized_keys",
      command,
      "AuthorizedKeysCommandUser SYSTEM",
      "PasswordAuthentication yes",
      END,
      "" ]
  }

  /** Turns each CR LF pair into LF, scanning once from the left. */
  function Normalize(s: string): string {
    if s == "" then ""
    else if |s| >= 2 && s[0] == '\r' && s[1] == '\n' then "\n" + Normalize(s[2..])
    else [s[0]] + Normalize(s[1..])
  }

  function Lines(input: string): (r: seq<string>)
    ensures |r| > 0
    ensures NewlineFree(r)
  {
    var r := Split(Normalize(input), '\n');
    assert forall i :: 0 <= i < |r| ==> r[i] in r;
    r
  }

  predicate NewlineFree(lines: seq<string>) {
    forall i :: 0 <= i < |lines| ==> '\n' !in lines[i]
  }

  predicate IsLineEnd(c: char) {
    c == '\r' || c == '\n'
  }

  function TrimLineEnds(s: string): string {
    if s != "" && IsLineEnd(s[|s| - 1]) then TrimLineEnds(s[..|s| - 1]) else s
  }

  function Render(lines: seq<string>): string {
    TrimLineEnds(Join(lines, "\r\n")) + "\r\n"
  }

  function ToSlash(path: string): (r: string)
    ensures |r| == |path|
    ensures forall i :: 0 <= i < |path| ==> r[i] == if path[i] == '\\' then '/' else path[i]
  {
    seq(|path|, i requires 0 <= i < |path| => if path[i] == '\\' then '/' else path[i])
  }

  function KeysCommand(executable: string): string {
    "AuthorizedKeysCommand \"" + ToSlash(executable) + "\" support-authorized-keys %u"
  }

  /** An absolute Windows path: a drive letter, or a network share. */
  predicate IsAbsolute(path: string) {
    && |path| >= 3
    && (|| ('a' <= LowerChar(path[0]) <= 'z' && path[1] == ':' && (path[2] == '\\' || path[2] == '/'))
        || ((path[0] == '\\' || path[0] == '/') && (path[1] == '\\' || path[1] == '/')))
  }

  predicate SafeExecutable(executable: string) {
    IsAbsolute(executable) && '"' !in executable && '\r' !in executable && '\n' !in executable
  }

  function Build(input: string, executable: string): Result<string> {
    if !SafeExecutable(executable) then Err(UnsafeExecutable)
    else
      var cleaned := Clean(LineRules(), Lines(input), false);
      if cleaned.Err? then Err(cleaned.error)
      else Ok(Render(OutputLines(LineRules(), RemoveLegacy(LegacyLine, cleaned.value), Block(KeysCommand(executable)))))
  }

  // ----- the text and its lines -----

  lemma {:induction false} NormalizeLine(l: string, rest: string)
    requires '\n' !in l
    requires rest == "" || (|rest| >= 2 && rest[0] == '\r' && rest[1] == '\n')
    ensures Normalize(l + rest) == l + if rest == "" then "" else "\n" + Normalize(rest[2..])
  {
    var s := l + rest;
    if l == "" {
      assert s == rest;
    } else {
      assert s[1..] == l[1..] + rest;
      NormalizeLine(l[1..], rest);
      assert |s| >= 2 ==> s[1] == if |l| > 1 then l[1] else rest[0];
      assert [l[0]] + l[1..] == l;
    }
  }

  lemma {:induction false} NormalizeJoin(lines: seq<string>)
    requires |lines| > 0 && NewlineFree(lines)
    ensures Normalize(Join(lines, "\r\n")) == Join(lines, "\n")
  {
    if |lines| == 1 {
      NormalizeLine(lines[0], "");
      assert lines[0] + "" == lines[0];
    } else {
      var rest := Join(lines[1..], "\r\n");
      NormalizeJoin(lines[1..]);
      NormalizeLine(lines[0], "\r\n" + rest);
      assert ("\r\n" + rest)[2..] == rest;
      assert lines[0] + "\r\n" + rest == lines[0] + ("\r\n" + rest);
    }
  }

  lemma {:induction false} TrimLineEndsSkips(s: string, tail: string)
    requires forall i :: 0 <= i < |tail| ==> IsLineEnd(tail[i])
    ensures TrimLineEnds(s + tail) == TrimLineEnds(s)
  {
    if tail == "" {
      assert s + tail == s;
    } else {
      assert (s + tail)[..|s + tail| - 1] == s + tail[..|tail| - 1];
      TrimLineEndsSkips(s, tail[..|tail| - 1]);
    }
  }

  lemma TrimLineEndsOfLine(s: string, l: string)
    requires '\n' !in l && StripCR(l) != ""
    ensures TrimLineEnds(s + l) == s + StripCR(l)
  {
    var r := StripCR(l);
    assert s + l == s + r + l[|r|..];
    TrimLineEndsSkips(s + r, l[|r|..]);
    assert (s + r)[|s + r| - 1] == r[|r| - 1];
    assert r[|r| - 1] in l;
  }

  lemma {:induction false} TrimLineEndsOfJoin(lines: seq<string>)
    requires |lines| > 0 && NewlineFree(lines)
    ensures TrimLineEnds(Join(lines, "\r\n")) == Join(Core(lines), "\r\n")
  {
    var n := |lines| - 1;
    var l := lines[n];
    if n == 0 {
      if StripCR(l) == "" {
        assert "" + l == l;
        TrimLineEndsSkips("", l);
      } else {
        assert "" + l == l;
        TrimLineEndsOfLine("", l);
      }
    } else {
      var front := lines[..n];
      assert lines == front + [l];
      JoinSnoc(front, l, "\r\n");
      var s := Join(front, "\r\n");
      if StripCR(l) == "" {
        assert s + "\r\n" + l == s + ("\r\n" + l);
        TrimLineEndsSkips(s, "\r\n" + l);
        TrimLineEndsOfJoin(front);
      } else {
        TrimLineEndsOfLine(s + "\r\n", l);
        JoinSnoc(front, StripCR(l), "\r\n");
      }
    }
  }

  lemma {:induction false} CoreNewlineFree(lines: seq<string>)
    requires |lines| > 0 && NewlineFree(lines)
    ensures NewlineFree(Core(lines))
  {
    var n := |lines| - 1;
    if StripCR(lines[n]) == "" && n > 0 {
      CoreNewlineFree(lines[..n]);
    }
  }

  /** Reading the rendered text back gives its lines, without what the end of the text loses. */
  lemma LinesOfRender(lines: seq<string>)
    requires |lines| > 0 && NewlineFree(lines)
    ensures Lines(Render(lines)) == Core(lines) + [""]
    ensures Render(lines) == Join(Core(lines), "\r\n") + "\r\n"
  {
    var all := Core(lines) + [""];
    TrimLineEndsOfJoin(lines);
    CoreNewlineFree(lines);
    JoinSnoc(Core(lines), "", "\r\n");
    assert Render(lines) == Join(all, "\r\n");
    NormalizeJoin(all);
    SplitJoin(all, '\n');
  }

  // ----- the line rules fit the layout -----

  lemma TrimOfStripCR(l: string)
    ensures Trim(StripCR(l)) == Trim(l)
  {
    var r := StripCR(l);
    assert l == r + l[|r|..];
    TrimIgnoresTail(r, l[|r|..]);
  }

  lemma EmptyLine()
    ensures Trim("") == "" && Fields("") == []
    ensures KindOf("") == Kept && !IsMatch("")
  {
  }

  lemma DirectiveIsNotBlank(l: string)
    requires IsMatch(l)
    ensures !Blank(l)
  {
    EmptyLine();
  }

  lemma NoMarker(t: string)
    requires t != "" ==> t[0] != '#'
    ensures t != BEGIN && t != END
  {
    assert BEGIN[0] == '#' && END[0] == '#';
  }

  /** A line that starts with a letter is neither of the markers. */
  lemma LetterIsNoMarker(l: string)
    requires l != "" && l[0] != '#' && !IsSpace(l[0])
    ensures !Classify(l).Opens? && !Classify(l).Closes?
  {
    assert TrimLeft(l) == l;
    TrimRightSpec(l);
    NoMarker(Trim(l));
  }

  lemma MarkersDiffer()
    ensures BEGIN != END && Trimmed(BEGIN) && Trimmed(END)
  {
    assert BEGIN[2] != END[2];
  }

  lemma MarkerKinds(l: string)
    requires l == BEGIN || l == END
    ensures l == BEGIN ==> Classify(l).Opens?
    ensures l == END ==> Classify(l).Closes?
  {
    MarkersDiffer();
    TrimOfTrimmed(l);
  }

  lemma BlockBody(executable: string, i: nat)
    requires 1 <= i < 11
    ensures var l := Block(KeysCommand(executable))[i]; l != "" && l[0] != '#' && !IsSpace(l[0])
  {
  }

  lemma BlockKinds(executable: string)
    ensures var block := Block(KeysCommand(executable));
            && Classify(block[0]).Opens? && Classify(block[11]).Closes?
            && forall i :: 1 <= i < 11 ==> !Classify(block[i]).Opens? && !Classify(block[i]).Closes?
  {
    var block := Block(KeysCommand(executable));
    MarkerKinds(block[0]);
    MarkerKinds(block[11]);
    forall i | 1 <= i < 11 ensures !Classify(block[i]).Opens? && !Classify(block[i]).Closes? {
      BlockBody(executable, i);
      LetterIsNoMarker(block[i]);
    }
  }

  lemma EndMarkerHasNoCR()
    ensures StripCR(END) == END != ""
  {
    assert END[|END| - 1] != '\r';
  }

  lemma RulesIgnoreCR(l: string)
    ensures Classify(StripCR(l)) == Classify(l) && IsMatch(StripCR(l)) == IsMatch(l) && Blank(StripCR(l)) == Blank(l)
  {
    TrimOfStripCR(l);
  }

  lemma RulesAreCoherent(executable: string)
    ensures Coherent(LineRules(), Block(KeysCommand(executable)))
  {
    var rules := LineRules();
    EmptyLine();
    BlockKinds(executable);
    EndMarkerHasNoCR();
    forall l | rules.isMatch(l) ensures !rules.isBlank(l) {
      DirectiveIsNotBlank(l);
    }
    forall l {:trigger StripCR(l)}
      ensures rules.kind(StripCR(l)) == rules.kind(l)
      ensures rules.isMatch(StripCR(l)) == rules.isMatch(l)
      ensures rules.isBlank(StripCR(l)) == rules.isBlank(l)
    {
      RulesIgnoreCR(l);
    }
  }

  // ----- legacy key paths are gone after one pass -----

  predicate Settled(t: string) {
    !NamesKeyFiles(t) || |KeptPaths(t)| == |Fields(t)| - 1
  }

  lemma {:induction false} DropLegacyNone(legacy: string -> bool, paths: seq<string>)
    requires forall i :: 0 <= i < |paths| ==> !legacy(paths[i])
    ensures DropLegacy(legacy, paths) == paths
  {
    if |paths| > 0 {
      DropLegacyNone(legacy, paths[1..]);
    }
  }

  const KEYS_FILE := "AuthorizedKeysFile"

  lemma KeysFileFields(name: string, kept: seq<string>)
    requires IsField(name) && |kept| > 0 && AllFields(kept)
    ensures Fields(name + " " + Join(kept, " ")) == [name] + kept
    ensures Trimmed(name + " " + Join(kept, " "))
  {
    var ws := [name] + kept;
    assert ws[1..] == kept;
    FieldsJoin(ws);
    JoinOfFieldsIsTrimmed(ws);
  }

  lemma KeysFileLineFields(kept: seq<string>)
    requires |kept| > 0 && AllFields(kept)
    ensures Fields(KeysFileLine(kept)) == [KEYS_FILE] + kept
    ensures Trimmed(KeysFileLine(kept)) && KeysFileLine(kept)[0] == 'A'
  {
    assert KEYS_FILE + " " == "AuthorizedKeysFile ";
    KeysFileFields(KEYS_FILE, kept);
  }

  lemma FirstFieldKind(t: string)
    requires t != "" && t[0] == 'A' && |Fields(t)| > 0 && |Fields(t)[0]| == 18
    ensures KindOf(t).Kept?
  {
    NoMarker(t);
    DifferentLength(Fields(t)[0], "ListenAddress");
    DifferentLength(Fields(t)[0], "AuthorizedKeysCommand");
    DifferentLength(Fields(t)[0], "AuthorizedKeysCommandUser");
  }

  lemma TrimOfKeysFileLine(indent: string, kept: seq<string>)
    requires AllSpace(indent) && |kept| > 0 && AllFields(kept)
    ensures Trim(indent + KeysFileLine(kept)) == KeysFileLine(kept)
  {
    KeysFileLineFields(kept);
    assert indent + KeysFileLine(kept) + "" == indent + KeysFileLine(kept);
    TrimUnique(indent, KeysFileLine(kept), "");
  }

  lemma KeysFileLineSettles(t: string)
    requires |Fields(t)| > 0 && |KeptPaths(t)| > 0
    ensures Settled(KeysFileLine(KeptPaths(t))) && KindOf(KeysFileLine(KeptPaths(t))).Kept?
  {
    var kept := KeptPaths(t);
    KeysFileLineFields(kept);
    assert Fields(KeysFileLine(kept))[1..] == kept;
    DropLegacyNone(IsLegacy, kept);
    FirstFieldKind(KeysFileLine(kept));
  }

  /** The rewritten line names the same directive, no legacy path, and is left alone the next time. */
  lemma LegacyLineSettles(line: string)
    ensures Settled(Trim(LegacyLine(line)))
    ensures Classify(line).Kept? ==> Classify(LegacyLine(line)).Kept?
  {
    var t := Trim(line);
    if !Settled(t) {
      if |KeptPaths(t)| == 0 {
        EmptyLine();
      } else {
        TrimOfKeysFileLine(Indent(line), KeptPaths(t));
        KeysFileLineSettles(t);
      }
    }
  }

  lemma SettledNamesNoLegacy(legacy: string -> bool, paths: seq<string>)
    ensures |DropLegacy(legacy, paths)| == |paths| <==> forall p :: p in paths ==> !legacy(p)
  {
    if forall p :: p in paths ==> !legacy(p) {
      DropLegacyNone(legacy, paths);
    }
  }

  /** Only legacy paths go: the other paths stay, and a line that names none becomes empty. */
  lemma LegacyLineKeepsPaths(line: string)
    requires !Settled(Trim(line))
    ensures exists p :: p in Fields(Trim(line))[1..] && IsLegacy(p)
    ensures if |KeptPaths(Trim(line))| == 0 then LegacyLine(line) == ""
            else Fields(Trim(LegacyLine(line))) == [KEYS_FILE] + KeptPaths(Trim(line))
  {
    var t := Trim(line);
    SettledNamesNoLegacy(IsLegacy, Fields(t)[1..]);
    if |KeptPaths(t)| > 0 {
      TrimOfKeysFileLine(Indent(line), KeptPaths(t));
      KeysFileLineFields(KeptPaths(t));
    }
  }

  lemma LegacyLineStable(line: string)
    requires Settled(Trim(line))
    ensures LegacyLine(line) == line
    ensures LegacyLine(StripCR(line)) == StripCR(line)
  {
    TrimOfStripCR(line);
  }

  lemma {:induction false} JoinNewlineFree(ws: seq<string>)
    requires AllFields(ws)
    ensures '\n' !in Join(ws, " ")
  {
    if |ws| > 0 {
      assert '\n' !in ws[0];
      if |ws| > 1 {
        JoinNewlineFree(ws[1..]);
      }
    }
  }

  lemma LegacyLineNewlineFree(line: string)
    requires '\n' !in line
    ensures '\n' !in LegacyLine(line)
  {
    var t := Trim(line);
    if !Settled(t) && |KeptPaths(t)| > 0 {
      KeysFileLineNewlineFree(Indent(line), KeptPaths(t));
      assert '\n' !in Indent(line);
    }
  }

  lemma KeysFileLineNewlineFree(indent: string, kept: seq<string>)
    requires AllFields(kept) && '\n' !in indent
    ensures '\n' !in indent + KeysFileLine(kept)
  {
    JoinNewlineFree(kept);
    assert '\n' !in "AuthorizedKeysFile ";
  }

  // ----- main results -----

  lemma {:induction false} ForeignSubset(rules: Rules, lines: seq<string>, inside: bool)
    requires NewlineFree(lines)
    ensures NewlineFree(Foreign(rules, lines, inside))
  {
    if |lines| > 0 {
      ForeignSubset(rules, lines[1..], true);
      ForeignSubset(rules, lines[1..], false);
    }
  }

  lemma KeysCommandNewlineFree(executable: string)
    requires SafeExecutable(executable)
    ensures '\n' !in KeysCommand(executable)
  {
    var path := ToSlash(executable);
    assert forall i :: 0 <= i < |path| ==> path[i] != '\n' by {
      forall i | 0 <= i < |path| ensures path[i] != '\n' {
        assert executable[i] in executable;
      }
    }
    assert '\n' !in "AuthorizedKeysCommand \"";
    assert '\n' !in "\" support-authorized-keys %u";
  }

  lemma BlockStartNewlineFree(command: string, i: nat)
    requires i < 6
    ensures '\n' !in Block(command)[i]
  {
  }

  lemma BlockEndNewlineFree(command: string, i: nat)
    requires '\n' !in command && 9 <= i < 13
    ensures '\n' !in Block(command)[i]
  {
  }

  lemma BlockMiddleNewlineFree(command: string, i: nat)
    requires '\n' !in command && 6 <= i < 9
    ensures '\n' !in Block(command)[i]
  {
  }

  lemma BlockNewlineFree(command: string)
    requires '\n' !in command
    ensures NewlineFree(Block(command))
  {
    var block := Block(command);
    forall i | 0 <= i < |block| ensures '\n' !in block[i] {
      if i < 6 {
        BlockStartNewlineFree(command, i);
      } else if i < 9 {
        BlockMiddleNewlineFree(command, i);
      } else {
        BlockEndNewlineFree(command, i);
      }
    }
  }

  lemma NewlineFreeConcat(a: seq<string>, b: seq<string>)
    requires NewlineFree(a) && NewlineFree(b)
    ensures NewlineFree(a + b)
  {
  }

  lemma OutputNewlineFree(rules: Rules, cleaned: seq<string>, block: seq<string>)
    requires NewlineFree(cleaned) && NewlineFree(block)
    ensures NewlineFree(OutputLines(rules, cleaned, block))
  {
    var head := Head(rules, cleaned);
    var sep := Separator(rules, head);
    NewlineFreeConcat(head, sep);
    NewlineFreeConcat(head + sep, block);
    NewlineFreeConcat(head + sep + block, Tail(rules, cleaned));
  }

  /** The lines the accepted text contributes: those outside managed blocks, without legacy key paths. */
  function Contributed(input: string): seq<string> {
    RemoveLegacy(LegacyLine, Foreign(LineRules(), Lines(input), false))
  }

  function Rebuilt(input: string, executable: string): seq<string> {
    OutputLines(LineRules(), Contributed(input), Block(KeysCommand(executable)))
  }

  /** What the rewriter accepts: paired markers, and no directive outside the blocks that needs a review. */
  lemma AcceptedTexts(input: string, executable: string)
    ensures Build(input, executable).Ok? <==>
            && SafeExecutable(executable)
            && Balanced(LineRules(), Lines(input), false)
            && AllKept(LineRules(), Foreign(LineRules(), Lines(input), false))
    ensures Build(input, executable).Ok? ==> Build(input, executable).value == Render(Rebuilt(input, executable))
  {
    CleanAccepts(LineRules(), Lines(input), false);
  }

  lemma Shape(input: string, executable: string)
    requires Build(input, executable).Ok?
    ensures Coherent(LineRules(), Block(KeysCommand(executable)))
    ensures AllKept(LineRules(), Contributed(input))
    ensures forall i :: 0 <= i < |Contributed(input)| ==> Settled(Trim(Contributed(input)[i]))
    ensures Lines(Render(Rebuilt(input, executable))) == Core(Rebuilt(input, executable)) + [""]
    ensures Render(Rebuilt(input, executable)) == Join(Core(Rebuilt(input, executable)), "\r\n") + "\r\n"
  {
    AcceptedTexts(input, executable);
    RulesAreCoherent(executable);
    var f := Foreign(LineRules(), Lines(input), false);
    ForeignSubset(LineRules(), Lines(input), false);
    forall i | 0 <= i < |f|
      ensures LineRules().kind(Contributed(input)[i]).Kept? && Settled(Trim(Contributed(input)[i]))
      ensures '\n' !in Contributed(input)[i]
    {
      assert LineRules().kind(f[i]).Kept?;
      LegacyLineSettles(f[i]);
      LegacyLineNewlineFree(f[i]);
    }
    KeysCommandNewlineFree(executable);
    BlockNewlineFree(KeysCommand(executable));
    OutputNewlineFree(LineRules(), Contributed(input), Block(KeysCommand(executable)));
    LinesOfRender(Rebuilt(input, executable));
  }

  lemma RemoveLegacyFixed(f: string -> string, lines: seq<string>)
    requires forall i :: 0 <= i < |lines| ==> f(lines[i]) == lines[i]
    ensures RemoveLegacy(f, lines) == lines
  {
  }

  lemma RereadIsFixed(rules: Rules, c: seq<string>, block: seq<string>, f: string -> string)
    requires Coherent(rules, block) && AllKept(rules, c) && f("") == ""
    requires forall i :: 0 <= i < |c| ==> f(c[i]) == c[i] && f(StripCR(c[i])) == StripCR(c[i])
    ensures RemoveLegacy(f, Reread(rules, c)) == Reread(rules, c)
  {
    var stable := (l: string) => f(l) == l;
    RereadKeeps(rules, c, block, stable);
    assert forall i :: 0 <= i < |Reread(rules, c)| ==> stable(Reread(rules, c)[i]);
    RemoveLegacyFixed(f, Reread(rules, c));
  }

  lemma SettledLinesAreFixed(c: seq<string>)
    requires forall i :: 0 <= i < |c| ==> Settled(Trim(c[i]))
    ensures LegacyLine("") == ""
    ensures forall i :: 0 <= i < |c| ==> LegacyLine(c[i]) == c[i] && LegacyLine(StripCR(c[i])) == StripCR(c[i])
  {
    EmptyLine();
    forall i | 0 <= i < |c| ensures LegacyLine(c[i]) == c[i] && LegacyLine(StripCR(c[i])) == StripCR(c[i]) {
      LegacyLineStable(c[i]);
    }
  }

  lemma ForeignOfOutput(rules: Rules, c: seq<string>, block: seq<string>)
    requires Coherent(rules, block) && AllKept(rules, c)
    ensures var lines := Core(OutputLines(rules, c, block)) + [""];
            && Clean(rules, lines, false) == Ok(Reread(rules, c))
            && Foreign(rules, lines, false) == Reread(rules, c)
  {
    RereadIsClean(rules, c, block);
    CleanAccepts(rules, Core(OutputLines(rules, c, block)) + [""], false);
  }

  lemma RereadIsContributed(input: string, executable: string)
    requires Build(input, executable).Ok?
    ensures var output := Render(Rebuilt(input, executable));
            && Clean(LineRules(), Lines(output), false) == Ok(Reread(LineRules(), Contributed(input)))
            && Foreign(LineRules(), Lines(output), false) == Reread(LineRules(), Contributed(input))
            && Contributed(output) == Reread(LineRules(), Contributed(input))
  {
    Shape(input, executable);
    ForeignOfOutput(LineRules(), Contributed(input), Block(KeysCommand(executable)));
    SettledLinesAreFixed(Contributed(input));
    RereadIsFixed(LineRules(), Contributed(input), Block(KeysCommand(executable)), LegacyLine);
  }

  /** Rebuilding an output succeeds and returns the same text. */
  lemma Idempotent(input: string, executable: string)
    requires Build(input, executable).Ok?
    ensures Build(Build(input, executable).value, executable) == Build(input, executable)
  {
    AcceptedTexts(input, executable);
    Shape(input, executable);
    var output := Render(Rebuilt(input, executable));
    RereadIsContributed(input, executable);
    RelayoutIsStable(LineRules(), Contributed(input), Block(KeysCommand(executable)));
    AcceptedTexts(output, executable);
    Shape(output, executable);
  }

  predicate NoneOf(marked: string -> bool, lines: seq<string>) {
    forall i :: 0 <= i < |lines| ==> !marked(lines[i])
  }

  predicate OnlyAt(marked: string -> bool, lines: seq<string>, k: nat) {
    k < |lines| && marked(lines[k]) && forall i :: 0 <= i < |lines| && i != k ==> !marked(lines[i])
  }

  function CountLines(marked: string -> bool, lines: seq<string>): nat {
    if |lines| == 0 then 0 else (if marked(lines[0]) then 1 else 0) + CountLines(marked, lines[1..])
  }

  lemma {:induction false} CountConcat(marked: string -> bool, a: seq<string>, b: seq<string>)
    ensures CountLines(marked, a + b) == CountLines(marked, a) + CountLines(marked, b)
  {
    if |a| == 0 {
      assert a + b == b;
    } else {
      assert (a + b)[1..] == a[1..] + b;
      CountConcat(marked, a[1..], b);
    }
  }

  lemma {:induction false} CountNone(marked: string -> bool, lines: seq<string>)
    requires NoneOf(marked, lines)
    ensures CountLines(marked, lines) == 0
  {
    if |lines| > 0 {
      CountNone(marked, lines[1..]);
    }
  }

  lemma {:induction false} CountOne(marked: string -> bool, lines: seq<string>, k: nat)
    requires OnlyAt(marked, lines, k)
    ensures CountLines(marked, lines) == 1
    decreases k
  {
    if k == 0 {
      CountNone(marked, lines[1..]);
    } else {
      CountOne(marked, lines[1..], k - 1);
    }
  }

  /** One line is marked: the block's own, for a block laid out among lines that are not. */
  lemma CountMarked(marked: string -> bool, front: seq<string>, block: seq<string>, last: seq<string>, k: nat)
    requires NoneOf(marked, front) && NoneOf(marked, last) && OnlyAt(marked, block, k)
    ensures CountLines(marked, front + block + last) == 1
  {
    CountNone(marked, front);
    CountNone(marked, last);
    CountOne(marked, block, k);
    CountConcat(marked, front, block);
    CountConcat(marked, front + block, last);
  }

  predicate Begins(line: string) {
    Trim(line) == BEGIN
  }

  predicate Ends(line: string) {
    Trim(line) == END
  }

  lemma KeptIsNoMarker(lines: seq<string>)
    requires AllKept(LineRules(), lines)
    ensures NoneOf(Begins, lines) && NoneOf(Ends, lines)
  {
    forall i | 0 <= i < |lines| ensures !Begins(lines[i]) && !Ends(lines[i]) {
      assert LineRules().kind(lines[i]).Kept?;
    }
  }

  lemma BlockMarkers(executable: string)
    ensures var block := Block(KeysCommand(executable));
            OnlyAt(Begins, block, 0) && OnlyAt(Ends, block, 11)
  {
    var block := Block(KeysCommand(executable));
    MarkersDiffer();
    TrimOfTrimmed(block[0]);
    TrimOfTrimmed(block[11]);
    EmptyLine();
    forall i | 1 <= i < 11 ensures !Begins(block[i]) && !Ends(block[i]) {
      BlockBody(executable, i);
      LetterIsNoMarker(block[i]);
    }
  }

  lemma CountMarkersOf(front: seq<string>, block: seq<string>, last: seq<string>)
    requires AllKept(LineRules(), front) && AllKept(LineRules(), last)
    requires OnlyAt(Begins, block, 0) && OnlyAt(Ends, block, 11)
    ensures CountLines(Begins, front + block + last) == 1 && CountLines(Ends, front + block + last) == 1
  {
    KeptIsNoMarker(front);
    KeptIsNoMarker(last);
    CountMarked(Begins, front, block, last, 0);
    CountMarked(Ends, front, block, last, 11);
  }

  lemma CountMarkers(lines: seq<string>, block: seq<string>, at: nat)
    requires LaidOut(LineRules(), lines, block, at)
    requires OnlyAt(Begins, block, 0) && OnlyAt(Ends, block, 11)
    ensures CountLines(Begins, lines) == 1 && CountLines(Ends, lines) == 1
  {
    var front, last := lines[..at], lines[at + |block|..];
    ThreeParts(lines, at, at + |block|);
    CountMarkersOf(front, block, last);
  }

  lemma ThreeParts(lines: seq<string>, i: nat, j: nat)
    requires i <= j <= |lines|
    ensures lines == lines[..i] + lines[i..j] + lines[j..]
  {
  }

  /** The output holds each marker once, around the whole block, and no Match line stands before the block. */
  lemma OutputHasOneBlock(input: string, executable: string)
    requires Build(input, executable).Ok?
    ensures var lines := Lines(Build(input, executable).value);
            && CountLines(Begins, lines) == 1 && CountLines(Ends, lines) == 1
            && exists at: nat :: LaidOut(LineRules(), lines, Block(KeysCommand(executable)), at)
  {
    var block := Block(KeysCommand(executable));
    AcceptedTexts(input, executable);
    Shape(input, executable);
    OutputIsLaidOut(LineRules(), Contributed(input), block);
    var lines := Lines(Build(input, executable).value);
    var at: nat :| LaidOut(LineRules(), lines, block, at);
    BlockMarkers(executable);
    CountMarkers(lines, block, at);
  }

  /** The non-blank lines outside the block are those of the input, in order, without legacy key paths. */
  lemma ForeignLinesKept(input: string, executable: string)
    requires Build(input, executable).Ok?
    ensures SameUpToFinalCR(
              NonBlank(LineRules(), Foreign(LineRules(), Lines(Build(input, executable).value), false)),
              NonBlank(LineRules(), RemoveLegacy(LegacyLine, Foreign(LineRules(), Lines(input), false))))
  {
    AcceptedTexts(input, executable);
    Shape(input, executable);
    RereadIsContributed(input, executable);
    RereadNonBlank(LineRules(), Contributed(input), Block(KeysCommand(executable)));
  }

  // ----- the rewriter itself -----

  /** Rewrites, in place, every line that names the legacy key path. */
  method RewriteLines(lines: array<string>, rewrite: string -> string)
    modifies lines
    ensures lines[..] == RemoveLegacy(rewrite, old(lines[..]))
  {
    for index := 0 to lines.Length
      invariant forall i :: 0 <= i < index ==> lines[i] == rewrite(old(lines[i]))
      invariant forall i :: index <= i < lines.Length ==> lines[i] == old(lines[i])
    {
      lines[index] := rewrite(lines[index]);
    }
  }

  method CleanLines(rules: Rules, lines: seq<string>) returns (r: Result<seq<string>>)
    ensures r == Clean(rules, lines, false)
  {
    var cleaned: seq<string> := [];
    var inside := false;
    assert lines[0..] == lines && forall v: seq<string> :: [] + v == v;
    for i := 0 to |lines|
      invariant Clean(rules, lines, false) == Prepend(cleaned, Clean(rules, lines[i..], inside))
    {
      assert lines[i..][1..] == lines[i + 1..];
      match rules.kind(lines[i])
      case Opens =>
        if inside { return Err(NestedBlock); }
        inside := true;
      case Closes =>
        if !inside { return Err(UnmatchedEnd); }
        inside := false;
      case Refused(error) =>
        if !inside { return Err(error); }
      case Kept =>
        if !inside {
          assert forall v: seq<string> :: cleaned + ([lines[i]] + v) == cleaned + [lines[i]] + v;
          cleaned := cleaned + [lines[i]];
        }
    }
    assert lines[|lines|..] == [] && cleaned + [] == cleaned;
    if inside {
      return Err(UnfinishedBlock);
    }
    r := Ok(cleaned);
  }

  method FindMatch(rules: Rules, cleaned: seq<string>) returns (insertAt: nat)
    ensures insertAt == FirstMatch(rules, cleaned)
  {
    insertAt := 0;
    assert cleaned[0..] == cleaned;
    while insertAt < |cleaned| && !rules.isMatch(cleaned[insertAt])
      invariant insertAt <= |cleaned|
      invariant FirstMatch(rules, cleaned) == insertAt + FirstMatch(rules, cleaned[insertAt..])
    {
      assert cleaned[insertAt..][1..] == cleaned[insertAt + 1..];
      insertAt := insertAt + 1;
    }
  }

  /** Lays the cleaned lines out around the block, as the source does with three scans over them. */
  method LayOut(rules: Rules, cleaned: seq<string>, block: seq<string>) returns (output: seq<string>)
    ensures output == OutputLines(rules, cleaned, block)
  {
    var insertAt := FindMatch(rules, cleaned);
    var prefix := cleaned[..insertAt];
    while |prefix| > 0 && rules.isBlank(prefix[|prefix| - 1])
      invariant DropTrailingBlank(rules, prefix) == Head(rules, cleaned)
    {
      prefix := prefix[..|prefix| - 1];
    }
    var suffix := cleaned[insertAt..];
    while |suffix| > 0 && rules.isBlank(suffix[0])
      invariant DropLeadingBlank(rules, suffix) == Tail(rules, cleaned)
    {
      suffix := suffix[1..];
    }
    output := prefix;
    if |output| > 0 && !rules.isBlank(output[|output| - 1]) {
      output := output + [""];
    }
    output := output + block + suffix;
  }

  /** The whole rewriter; AcceptedTexts, Idempotent, OutputHasOneBlock and ForeignLinesKept say what it promises. */
  method BuildManagedConfig(input: string, executable: string) returns (r: Result<string>)
    ensures r == Build(input, executable)
  {
    if !SafeExecutable(executable) {
      return Err(UnsafeExecutable);
    }
    var cleaned := CleanLines(LineRules(), Lines(input));
    if cleaned.Err? {
      return Err(cleaned.error);
    }
    var kept := cleaned.value;
    var lines := new string[|kept|](i requires 0 <= i < |kept| => kept[i]);
    assert lines[..] == kept;
    RewriteLines(lines, LegacyLine);
    var output := LayOut(LineRules(), lines[..], Block(KeysCommand(executable)));
    r := Ok(Render(output));
  }
}
