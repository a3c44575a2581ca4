/**
 The sshd_config rewriter read off the words of its lines: which lines name a directive, which lie inside a managed block,
 which texts are accepted, what the block says, and where the Match sections end up.
 */
module SshdDirectives {
  import opened Text
  import opened SshdLayout
  import opened SshdConfig

  // ----- the first word of a line -----

  /** The characters from `i` to `j` are the first word of the line. */
  predicate FirstWord(line: string, i: nat, j: nat) {
    && i < j <= |line| && AllSpace(line[..i])
    && (forall k :: i <= k < j ==> !IsSpace(line[k]))
    && (j < |line| ==> IsSpace(line[j]))
  }

  /** The line is no comment, and its first word is the name, in any case. */
  predicate NamedBy(line: string, name: string) {
    exists i: nat, j: nat :: i < j <= |line| && FirstWord(line, i, j) && line[i] != '#' && Lower(line[i..j]) == name
  }

  lemma {:induction false} TrimRightKeeps(w: string, r: string) returns (m: nat)
    requires IsField(w)
    ensures m <= |r| && TrimRight(w + r) == w + r[..m]
    decreases |r|
  {
    var n := |r| - 1;
    if r != "" && IsSpace(r[n]) {
      assert (w + r)[..|w + r| - 1] == w + r[..n];
      m := TrimRightKeeps(w, r[..n]);
      assert r[..n][..m] == r[..m];
    } else {
      m := |r|;
      assert r[..m] == r;
    }
  }

  lemma FieldsOfWord(line: string, i: nat, j: nat)
    requires FirstWord(line, i, j)
    ensures |Fields(Trim(line))| > 0 && Fields(Trim(line))[0] == line[i..j]
    ensures Trim(line) != "" && Trim(line)[0] == line[i]
  {
    var a, w, r := line[..i], line[i..j], line[j..];
    assert line == a + (w + r);
    TrimLeftSkips(a, w + r);
    WordOfJoin(w, r);
    var m := TrimRightKeeps(w, r);
    FieldsCons(w, r[..m]);
  }

  lemma WordInside(line: string, i: nat)
    requires i < |line| && AllSpace(line[..i]) && !IsSpace(line[i])
    ensures FirstWord(line, i, i + |Word(line[i..])|)
  {
    var t, w := line[i..], Word(line[i..]);
    assert t[0] == line[i];
    forall k | i <= k < i + |w| ensures !IsSpace(line[k]) {
      assert line[k] == t[k - i] == w[k - i];
    }
    assert i + |w| < |line| ==> line[i + |w|] == t[|w|];
  }

  lemma WordOfText(line: string) returns (i: nat, j: nat)
    requires Trim(line) != ""
    ensures FirstWord(line, i, j)
  {
    TrimLeftSpec(line);
    i := |line| - |TrimLeft(line)|;
    WordInside(line, i);
    j := i + |Word(line[i..])|;
  }

  lemma NothingInEmpty()
    ensures Fields("") == []
  {
  }

  /** The rules of the rewriter, in words. */
  lemma DirectiveByWord(line: string, name: string)
    ensures IsDirective(Trim(line), name) <==> NamedBy(line, Lower(name))
  {
    if IsDirective(Trim(line), name) {
      NothingInEmpty();
      var i, j := WordOfText(line);
      FieldsOfWord(line, i, j);
      assert NamedBy(line, Lower(name));
    }
    if NamedBy(line, Lower(name)) {
      var i: nat, j: nat :| i < j <= |line| && FirstWord(line, i, j) && line[i] != '#' && Lower(line[i..j]) == Lower(name);
      FieldsOfWord(line, i, j);
    }
  }

  lemma LowerNames()
    ensures Lower("ListenAddress") == "listenaddress" && Lower("Match") == "match"
  {
  }

  lemma LowerCommandNames()
    ensures Lower("AuthorizedKeysCommand") == "authorizedkeyscommand"
  {
  }

  lemma LowerUserName()
    ensures Lower("AuthorizedKeysCommandUser") == "authorizedkeyscommanduser"
  {
  }

  lemma LowerFileName()
    ensures Lower("AuthorizedKeysFile") == "authorizedkeysfile"
  {
  }

  /** The directives that somebody has to look at before the program may take over. */
  predicate NeedsReview(line: string) {
    NamedBy(line, "listenaddress") || NamedBy(line, "authorizedkeyscommand") || NamedBy(line, "authorizedkeyscommanduser")
  }

  predicate Begin(line: string) {
    Trim(line) == "# BEGIN 1CatTunnel managed SSH settings"
  }

  predicate End(line: string) {
    Trim(line) == "# END 1CatTunnel managed SSH settings"
  }

  lemma KindByWord(line: string)
    ensures Classify(line).Opens? <==> Begin(line)
    ensures Classify(line).Closes? <==> End(line)
    ensures Classify(line).Refused? <==> NeedsReview(line) && !Begin(line) && !End(line)
  {
    MarkersDiffer();
    LowerNames();
    LowerCommandNames();
    LowerUserName();
    DirectiveByWord(line, "ListenAddress");
    DirectiveByWord(line, "AuthorizedKeysCommand");
    DirectiveByWord(line, "AuthorizedKeysCommandUser");
  }

  lemma MatchByWord(line: string)
    ensures IsMatch(line) <==> NamedBy(line, "match")
  {
    LowerNames();
    DirectiveByWord(line, "Match");
  }

  // ----- inside and outside of blocks -----

  /** Line `k` comes after an opening line that no closing line follows; `inside` says so of what is before all lines. */
  predicate After(open: string -> bool, close: string -> bool, lines: seq<string>, k: nat, inside: bool)
    requires k <= |lines|
  {
    || (inside && forall m :: 0 <= m < k ==> !close(lines[m]))
    || exists j :: 0 <= j < k && open(lines[j]) && forall m :: j < m < k ==> !close(lines[m])
  }

  /** Every opening line is outside, every closing line inside, and the end outside. */
  predicate Paired(open: string -> bool, close: string -> bool, lines: seq<string>, inside: bool) {
    && (forall k :: 0 <= k < |lines| && open(lines[k]) ==> !After(open, close, lines, k, inside))
    && (forall k :: 0 <= k < |lines| && close(lines[k]) ==> After(open, close, lines, k, inside))
    && !After(open, close, lines, |lines|, inside)
  }

  function Enters(open: string -> bool, close: string -> bool, line: string, inside: bool): bool {
    if open(line) then true else if close(line) then false else inside
  }

  /** What is inside does not depend on where one starts to read. */
  lemma AfterRest(open: string -> bool, close: string -> bool, lines: seq<string>, k: nat, inside: bool)
    requires k < |lines| && !(open(lines[0]) && close(lines[0]))
    ensures After(open, close, lines, k + 1, inside)
            <==> After(open, close, lines[1..], k, Enters(open, close, lines[0], inside))
  {
    var rest := lines[1..];
    if After(open, close, lines, k + 1, inside) {
      if j :| 0 <= j < k + 1 && open(lines[j]) && forall m :: j < m < k + 1 ==> !close(lines[m]) {
        forall m | j - 1 < m < k && 0 <= m ensures !close(rest[m]) {
          assert rest[m] == lines[m + 1];
        }
        if j > 0 {
          assert rest[j - 1] == lines[j];
        }
      } else {
        forall m | 0 <= m < k ensures !close(rest[m]) {
          assert rest[m] == lines[m + 1];
        }
      }
    }
    if After(open, close, rest, k, Enters(open, close, lines[0], inside)) {
      if j :| 0 <= j < k && open(rest[j]) && forall m :: j < m < k ==> !close(rest[m]) {
        forall m | j + 1 < m < k + 1 ensures !close(lines[m]) {
          assert rest[m - 1] == lines[m];
        }
        assert open(lines[j + 1]);
      } else {
        forall m | 0 < m < k + 1 ensures !close(lines[m]) {
          assert rest[m - 1] == lines[m];
        }
      }
    }
  }

  lemma AfterNone(open: string -> bool, close: string -> bool, lines: seq<string>, inside: bool)
    ensures After(open, close, lines, 0, inside) <==> inside
  {
  }

  lemma PairedRest(open: string -> bool, close: string -> bool, lines: seq<string>, inside: bool)
    requires |lines| > 0 && !(open(lines[0]) && close(lines[0]))
    ensures Paired(open, close, lines, inside) <==>
              && (open(lines[0]) ==> !inside) && (close(lines[0]) ==> inside)
              && Paired(open, close, lines[1..], Enters(open, close, lines[0], inside))
  {
    var rest, into := lines[1..], Enters(open, close, lines[0], inside);
    forall k | 0 <= k <= |rest| ensures After(open, close, lines, k + 1, inside) <==> After(open, close, rest, k, into) {
      if k < |lines| {
        AfterRest(open, close, lines, k, inside);
      }
    }
    AfterNone(open, close, lines, inside);
    if Paired(open, close, lines, inside) {
      forall k | 0 <= k < |rest|
        ensures open(rest[k]) ==> !After(open, close, rest, k, into)
        ensures close(rest[k]) ==> After(open, close, rest, k, into)
      {
        assert rest[k] == lines[k + 1];
      }
    }
    if (open(lines[0]) ==> !inside) && (close(lines[0]) ==> inside) && Paired(open, close, rest, into) {
      forall k | 0 <= k < |lines|
        ensures open(lines[k]) ==> !After(open, close, lines, k, inside)
        ensures close(lines[k]) ==> After(open, close, lines, k, inside)
      {
        if k > 0 {
          assert rest[k - 1] == lines[k];
          assert After(open, close, lines, k - 1 + 1, inside) <==> After(open, close, rest, k - 1, into);
        }
      }
    }
  }

  /** The two functions say which lines are markers. */
  ghost predicate Marks(rules: Rules, open: string -> bool, close: string -> bool) {
    && (forall l :: open(l) <==> rules.kind(l).Opens?)
    && (forall l :: close(l) <==> rules.kind(l).Closes?)
  }

  lemma {:induction false} BalancedIsPaired(rules: Rules, open: string -> bool, close: string -> bool, lines: seq<string>, inside: bool)
    requires Marks(rules, open, close)
    ensures Balanced(rules, lines, inside) <==> Paired(open, close, lines, inside)
    decreases |lines|
  {
    if |lines| == 0 {
      AfterNone(open, close, lines, inside);
    } else {
      assert open(lines[0]) <==> rules.kind(lines[0]).Opens?;
      assert close(lines[0]) <==> rules.kind(lines[0]).Closes?;
      PairedRest(open, close, lines, inside);
      BalancedIsPaired(rules, open, close, lines[1..], Enters(open, close, lines[0], inside));
    }
  }

  /** A line that is no marker and lies outside the blocks. */
  predicate Outside(open: string -> bool, close: string -> bool, lines: seq<string>, k: nat, inside: bool) {
    k < |lines| && !open(lines[k]) && !close(lines[k]) && !After(open, close, lines, k, inside)
  }

  lemma OutsideRest(open: string -> bool, close: string -> bool, lines: seq<string>, k: nat, inside: bool)
    requires 0 < k < |lines| && !(open(lines[0]) && close(lines[0]))
    ensures Outside(open, close, lines, k, inside)
            <==> Outside(open, close, lines[1..], k - 1, Enters(open, close, lines[0], inside))
  {
    AfterRest(open, close, lines, k - 1, inside);
  }

  lemma {:induction false} ForeignHas(rules: Rules, open: string -> bool, close: string -> bool, lines: seq<string>, k: nat, inside: bool)
    requires Marks(rules, open, close) && Outside(open, close, lines, k, inside)
    ensures lines[k] in Foreign(rules, lines, inside)
    decreases |lines|
  {
    assert open(lines[0]) <==> rules.kind(lines[0]).Opens?;
    assert close(lines[0]) <==> rules.kind(lines[0]).Closes?;
    if k == 0 {
      AfterNone(open, close, lines, inside);
      assert Foreign(rules, lines, inside)[0] == lines[0];
    } else {
      OutsideRest(open, close, lines, k, inside);
      ForeignHas(rules, open, close, lines[1..], k - 1, Enters(open, close, lines[0], inside));
      assert lines[1..][k - 1] == lines[k];
      assert forall x :: x in Foreign(rules, lines[1..], Enters(open, close, lines[0], inside)) ==> x in Foreign(rules, lines, inside);
    }
  }

  lemma {:induction false} ForeignIsOutside(rules: Rules, open: string -> bool, close: string -> bool, lines: seq<string>, inside: bool,
                                            x: string) returns (k: nat)
    requires Marks(rules, open, close) && x in Foreign(rules, lines, inside)
    ensures Outside(open, close, lines, k, inside) && lines[k] == x
    decreases |lines|
  {
    assert open(lines[0]) <==> rules.kind(lines[0]).Opens?;
    assert close(lines[0]) <==> rules.kind(lines[0]).Closes?;
    var into := Enters(open, close, lines[0], inside);
    AfterNone(open, close, lines, inside);
    if x == lines[0] && Outside(open, close, lines, 0, inside) {
      k := 0;
    } else {
      k := ForeignIsOutside(rules, open, close, lines[1..], into, x);
      k := k + 1;
      OutsideRest(open, close, lines, k, inside);
    }
  }

  // ----- which texts are accepted -----

  /** The line lies in no managed block of the text. */
  predicate IsForeign(lines: seq<string>, k: nat) {
    Outside(Begin, End, lines, k, false)
  }

  lemma MarksByWord()
    ensures Marks(LineRules(), Begin, End)
  {
    forall l ensures Begin(l) <==> LineRules().kind(l).Opens? {
      KindByWord(l);
    }
    forall l ensures End(l) <==> LineRules().kind(l).Closes? {
      KindByWord(l);
    }
  }

  lemma KeptByWord(lines: seq<string>)
    ensures AllKept(LineRules(), Foreign(LineRules(), lines, false))
            <==> forall k: nat :: IsForeign(lines, k) ==> !NeedsReview(lines[k])
  {
    var rules := LineRules();
    MarksByWord();
    if AllKept(rules, Foreign(rules, lines, false)) {
      forall k: nat | IsForeign(lines, k) ensures !NeedsReview(lines[k]) {
        ForeignHas(rules, Begin, End, lines, k, false);
        KindByWord(lines[k]);
      }
    }
    if forall k: nat :: IsForeign(lines, k) ==> !NeedsReview(lines[k]) {
      forall i | 0 <= i < |Foreign(rules, lines, false)| ensures rules.kind(Foreign(rules, lines, false)[i]).Kept? {
        var k := ForeignIsOutside(rules, Begin, End, lines, false, Foreign(rules, lines, false)[i]);
        assert IsForeign(lines, k);
        KindByWord(lines[k]);
      }
    }
  }

  /** A text is accepted exactly if the executable's path is safe, the markers pair up, and no line outside the blocks starts
      with the name of a directive that needs a review. Comments and lines inside the blocks do not matter. */
  lemma AcceptedByWords(input: string, executable: string)
    ensures Build(input, executable).Ok? <==>
              && SafeExecutable(executable)
              && Paired(Begin, End, Lines(input), false)
              && forall k: nat :: IsForeign(Lines(input), k) ==> !NeedsReview(Lines(input)[k])
  {
    AcceptedTexts(input, executable);
    MarksByWord();
    BalancedIsPaired(LineRules(), Begin, End, Lines(input), false);
    KeptByWord(Lines(input));
  }

  /** A foreign directive that needs a review, in any case, with any indentation and value, makes the rewriter refuse. */
  lemma ForeignDirectiveIsRefused(input: string, executable: string, k: nat, indent: string, w: string, rest: string)
    requires IsForeign(Lines(input), k) && Lines(input)[k] == indent + w + rest
    requires AllSpace(indent) && IsField(w) && (rest == "" || IsSpace(rest[0]))
    requires Lower(w) == "listenaddress" || Lower(w) == "authorizedkeyscommand" || Lower(w) == "authorizedkeyscommanduser"
    ensures Build(input, executable).Err?
  {
    NamedByParts(indent, w, rest);
    AcceptedByWords(input, executable);
  }

  lemma NoComment(w: string)
    requires w != "" && w[0] == '#'
    ensures Lower(w)[0] == '#'
  {
  }

  lemma NamedByParts(indent: string, w: string, rest: string)
    requires AllSpace(indent) && IsField(w) && (rest == "" || IsSpace(rest[0])) && Lower(w)[0] != '#'
    ensures NamedBy(indent + w + rest, Lower(w))
  {
    var line, i, j := indent + w + rest, |indent|, |indent| + |w|;
    if w[0] == '#' {
      NoComment(w);
    }
    assert line[..i] == indent && line[i..j] == w;
    forall k | i <= k < j ensures !IsSpace(line[k]) {
      assert line[k] == w[k - i];
    }
    assert j < |line| ==> line[j] == rest[0];
    assert FirstWord(line, i, j);
    assert line[i] == w[0];
  }

  // ----- the output -----

  predicate IsPath(path: string, executable: string) {
    |path| == |executable| && forall i :: 0 <= i < |path| ==> path[i] == if executable[i] == '\\' then '/' else executable[i]
  }

  /** What the block says: listen on the loopback address only, and ask this program for the authorized keys. */
  ghost predicate IsManagedBlock(block: seq<string>, executable: string) {
    && |block| == 13
    && block[0] == "# BEGIN 1CatTunnel managed SSH settings"
    && block[1] == "ListenAddress 127.0.0.1"
    && block[2] == "LoginGraceTime 30" && block[3] == "MaxAuthTries 4" && block[4] == "MaxStartups 16:50:32"
    && block[5] == "PermitEmptyPasswords no" && block[6] == "PubkeyAuthentication yes"
    && block[7] == "AuthorizedKeysFile .ssh/authorized_keys"
    && (exists path :: IsPath(path, executable)
                       && block[8] == "AuthorizedKeysCommand \"" + path + "\" support-authorized-keys %u")
    && block[9] == "AuthorizedKeysCommandUser SYSTEM" && block[10] == "PasswordAuthentication yes"
    && block[11] == "# END 1CatTunnel managed SSH settings" && block[12] == ""
  }

  lemma BlockText(executable: string)
    ensures IsManagedBlock(Block(KeysCommand(executable)), executable)
  {
    assert IsPath(ToSlash(executable), executable);
  }

  /** The block stands at `at`; no other line is a marker or needs a review, no Match line stands before it, and one empty
      line separates it from what does. */
  ghost predicate BlockAt(lines: seq<string>, executable: string, at: nat) {
    && at + 13 <= |lines| && IsManagedBlock(lines[at..at + 13], executable)
    && (forall i :: 0 <= i < |lines| && (i < at || at + 13 <= i) ==> !Begin(lines[i]) && !End(lines[i]) && !NeedsReview(lines[i]))
    && (forall i :: 0 <= i < at ==> !NamedBy(lines[i], "match"))
    && (at > 0 ==> at >= 2 && lines[at - 1] == "" && Trim(lines[at - 2]) != "")
  }

  lemma OthersAreKept(lines: seq<string>, block: seq<string>, at: nat, i: nat)
    requires LaidOut(LineRules(), lines, block, at) && i < |lines| && (i < at || at + |block| <= i)
    ensures !Begin(lines[i]) && !End(lines[i]) && !NeedsReview(lines[i])
  {
    KindByWord(lines[i]);
    if i < at {
      assert lines[..at][i] == lines[i];
    } else {
      assert lines[at + |block|..][i - at - |block|] == lines[i];
    }
  }

  lemma LaidOutByWords(lines: seq<string>, executable: string, at: nat)
    requires LaidOut(LineRules(), lines, Block(KeysCommand(executable)), at)
    ensures BlockAt(lines, executable, at)
  {
    var block := Block(KeysCommand(executable));
    BlockText(executable);
    forall i | 0 <= i < |lines| && (i < at || at + 13 <= i)
      ensures !Begin(lines[i]) && !End(lines[i]) && !NeedsReview(lines[i])
    {
      OthersAreKept(lines, block, at, i);
    }
    forall i | 0 <= i < at ensures !NamedBy(lines[i], "match") {
      MatchByWord(lines[i]);
    }
  }

  /** The output holds the block once, before every Match section. */
  lemma OutputByWords(input: string, executable: string) returns (at: nat)
    requires Build(input, executable).Ok?
    ensures BlockAt(Lines(Build(input, executable).value), executable, at)
  {
    OutputHasOneBlock(input, executable);
    var lines := Lines(Build(input, executable).value);
    at :| LaidOut(LineRules(), lines, Block(KeysCommand(executable)), at);
    LaidOutByWords(lines, executable, at);
  }

  lemma {:induction false} NonBlankHas(rules: Rules, lines: seq<string>, x: string)
    ensures x in NonBlank(rules, lines) <==> x in lines && !rules.isBlank(x)
  {
    if |lines| > 0 {
      var n := |lines| - 1;
      NonBlankHas(rules, lines[..n], x);
      assert lines == lines[..n] + [lines[n]];
    }
  }

  lemma SameHas(a: seq<string>, b: seq<string>, m: nat)
    requires SameUpToFinalCR(a, b) && m < |b|
    ensures StripCR(a[m]) == StripCR(b[m])
  {
  }

  /** A foreign line that is not blank, and does not become so, is found in the output, outside the block. */
  lemma ForeignLineIsKept(input: string, executable: string, k: nat) returns (i: nat)
    requires Build(input, executable).Ok? && IsForeign(Lines(input), k) && Trim(LegacyLine(Lines(input)[k])) != ""
    ensures var lines := Lines(Build(input, executable).value);
            IsForeign(lines, i) && StripCR(lines[i]) == StripCR(LegacyLine(Lines(input)[k])) && Trim(lines[i]) != ""
  {
    var rules, lines := LineRules(), Lines(Build(input, executable).value);
    var f, x := Foreign(rules, Lines(input), false), Lines(input)[k];
    MarksByWord();
    ForeignHas(rules, Begin, End, Lines(input), k, false);
    var n :| 0 <= n < |f| && f[n] == x;
    assert RemoveLegacy(LegacyLine, f)[n] == LegacyLine(x);
    var a, b := NonBlank(rules, Foreign(rules, lines, false)), NonBlank(rules, RemoveLegacy(LegacyLine, f));
    NonBlankHas(rules, RemoveLegacy(LegacyLine, f), LegacyLine(x));
    var m :| 0 <= m < |b| && b[m] == LegacyLine(x);
    ForeignLinesKept(input, executable);
    SameHas(a, b, m);
    NonBlankHas(rules, Foreign(rules, lines, false), a[m]);
    i := ForeignIsOutside(rules, Begin, End, lines, false, a[m]);
  }

  lemma MarkersAsTexts()
    ensures Begin("# BEGIN 1CatTunnel managed SSH settings") && End("# END 1CatTunnel managed SSH settings")
  {
    MarkersDiffer();
    TrimOfTrimmed(BEGIN);
    TrimOfTrimmed(END);
  }

  lemma BlockHasOneEnd(block: seq<string>, executable: string, i: nat)
    requires IsManagedBlock(block, executable) && 0 < i < 11
    ensures !End(block[i])
  {
    assert block[i] != "" && block[i][0] != '#' && !IsSpace(block[i][0]);
    LetterIsNoMarker(block[i]);
    KindByWord(block[i]);
  }

  lemma BlockStarts(lines: seq<string>, executable: string, at: nat)
    requires BlockAt(lines, executable, at)
    ensures Begin(lines[at]) && lines[at + 12] == ""
  {
    MarkersAsTexts();
    assert lines[at..at + 13][0] == lines[at] && lines[at..at + 13][12] == lines[at + 12];
  }

  lemma InsideIsNotForeign(lines: seq<string>, at: nat, i: nat)
    requires at + 12 < |lines| && Begin(lines[at]) && (forall m :: at < m < at + 11 ==> !End(lines[m])) && lines[at + 12] == ""
    requires at <= i <= at + 12
    ensures !IsForeign(lines, i) || Trim(lines[i]) == ""
  {
    EmptyLine();
    if at < i < at + 12 {
      assert After(Begin, End, lines, i, false);
    }
  }

  lemma BlockIsInside(lines: seq<string>, executable: string, at: nat, i: nat)
    requires BlockAt(lines, executable, at) && at <= i < at + 13
    ensures !IsForeign(lines, i) || Trim(lines[i]) == ""
  {
    BlockStarts(lines, executable, at);
    forall m | at < m < at + 11 ensures !End(lines[m]) {
      BlockHasOneEnd(lines[at..at + 13], executable, m - at);
      assert lines[at..at + 13][m - at] == lines[m];
    }
    InsideIsNotForeign(lines, at, i);
  }

  lemma NamedIgnoresCR(a: string, b: string, name: string)
    requires StripCR(a) == StripCR(b) && NamedBy(b, name) && IsLowercaseName(name)
    ensures NamedBy(a, name)
  {
    TrimOfStripCR(a);
    TrimOfStripCR(b);
    DirectiveByWord(a, name);
    DirectiveByWord(b, name);
  }

  predicate IsLowercaseName(name: string) {
    Lower(name) == name
  }

  lemma LowercaseNames()
    ensures IsLowercaseName("match") && IsLowercaseName("authorizedkeysfile")
  {
  }

  lemma OtherNameStays(line: string)
    requires NamedBy(line, "match")
    ensures LegacyLine(line) == line && Trim(line) != ""
  {
    LowerNames();
    LowerFileName();
    DirectiveByWord(line, "Match");
    DifferentLength("Match", "AuthorizedKeysFile");
    EmptyLine();
  }

  /** A foreign Match line, in any case and with any indentation, stands behind the block in the output. */
  lemma MatchStandsBehind(input: string, executable: string, k: nat, indent: string, w: string, rest: string)
    returns (at: nat, i: nat)
    requires Build(input, executable).Ok? && IsForeign(Lines(input), k) && Lines(input)[k] == indent + w + rest
    requires AllSpace(indent) && IsField(w) && (rest == "" || IsSpace(rest[0])) && Lower(w) == "match"
    ensures var lines := Lines(Build(input, executable).value);
            && BlockAt(lines, executable, at) && at + 13 <= i < |lines|
            && StripCR(lines[i]) == StripCR(indent + w + rest)
  {
    var lines, x := Lines(Build(input, executable).value), indent + w + rest;
    NamedByParts(indent, w, rest);
    OtherNameStays(x);
    at := OutputByWords(input, executable);
    i := ForeignLineIsKept(input, executable, k);
    LowercaseNames();
    NamedIgnoresCR(lines[i], x, "match");
    if at <= i < at + 13 {
      BlockIsInside(lines, executable, at, i);
    }
  }

  // ----- the key path of older versions -----

  /** The path an older version of the program added. */
  predicate IsOldPath(path: string) {
    EqualFold(path, "__PROGRAMDATA__/1CatTunnel/support-keys/1cattunnel-support-%u")
  }

  lemma OldPathIsLegacy(path: string)
    requires IsField(path)
    ensures IsLegacy(path) <==> IsOldPath(path)
  {
    TrimOfTrimmed(path);
  }

  /** The words of a line. */
  function WordsOf(line: string): seq<string> {
    Fields(Trim(line))
  }

  lemma KeyFilesByWord(line: string)
    ensures NamesKeyFiles(Trim(line)) <==> NamedBy(line, "authorizedkeysfile") && |WordsOf(line)| > 1
  {
    LowerFileName();
    NothingInEmpty();
    DirectiveByWord(line, "AuthorizedKeysFile");
  }

  /** A line that names no old path, or is another directive or a comment, stays as it is. */
  lemma OtherLineStays(line: string)
    requires !NamedBy(line, "authorizedkeysfile") || forall k :: 1 <= k < |WordsOf(line)| ==> !IsOldPath(WordsOf(line)[k])
    ensures LegacyLine(line) == line
  {
    KeyFilesByWord(line);
    if NamesKeyFiles(Trim(line)) {
      var paths := WordsOf(line)[1..];
      forall k | 0 <= k < |paths| ensures !IsLegacy(paths[k]) {
        assert paths[k] == WordsOf(line)[k + 1];
        OldPathIsLegacy(paths[k]);
      }
      DropLegacyNone(IsLegacy, paths);
    }
  }

  lemma {:induction false} DropLegacySnoc(legacy: string -> bool, paths: seq<string>, p: string)
    ensures DropLegacy(legacy, paths + [p]) == DropLegacy(legacy, paths) + if legacy(p) then [] else [p]
  {
    if |paths| == 0 {
      assert paths + [p] == [p];
    } else {
      assert (paths + [p])[1..] == paths[1..] + [p];
      DropLegacySnoc(legacy, paths[1..], p);
    }
  }

  /** From a line of key files exactly the old paths go; if no path is left, the line is empty. */
  lemma OldPathGoes(line: string, k: nat)
    requires NamedBy(line, "authorizedkeysfile") && 1 <= k < |WordsOf(line)| && IsOldPath(WordsOf(line)[k])
    ensures var words := WordsOf(LegacyLine(line));
            && (forall p :: p in words && p != "AuthorizedKeysFile" ==> p in WordsOf(line)[1..] && !IsOldPath(p))
            && (forall p :: p in WordsOf(line)[1..] && !IsOldPath(p) ==> p in words)
            && (words != [] ==> words[0] == "AuthorizedKeysFile")
            && (words == [] ==> LegacyLine(line) == "")
  {
    KeyFilesByWord(line);
    var paths, kept := WordsOf(line)[1..], KeptPaths(Trim(line));
    assert paths[k - 1] == WordsOf(line)[k];
    OldPathIsLegacy(paths[k - 1]);
    SettledNamesNoLegacy(IsLegacy, paths);
    LegacyLineKeepsPaths(line);
    forall p | p in paths ensures p in kept <==> !IsOldPath(p) {
      OldPathIsLegacy(p);
    }
    if |kept| == 0 {
      EmptyLine();
      forall p | p in paths ensures IsOldPath(p) {
        assert p !in kept;
      }
    } else {
      assert WordsOf(LegacyLine(line)) == ["AuthorizedKeysFile"] + kept;
    }
  }

  // ----- the executable -----

  predicate IsSlash(c: char) {
    c == '\\' || c == '/'
  }

  /** A path is safe exactly if it is absolute, on a drive or a share, and nothing in it ends a quoted word or a line; any
      other is refused. */
  lemma SafePaths(input: string, executable: string)
    ensures SafeExecutable(executable) <==>
              && |executable| > 2
              && (|| (('a' <= executable[0] <= 'z' || 'A' <= executable[0] <= 'Z')
                      && executable[1] == ':' && IsSlash(executable[2]))
                  || (IsSlash(executable[0]) && IsSlash(executable[1])))
              && forall c :: c in executable ==> c != '"' && c != '\r' && c != '\n'
    ensures !SafeExecutable(executable) ==> Build(input, executable) == Err(UnsafeExecutable)
  {
  }
}
