/**
 The systemd unit of the Linux client: quoting a path for the ExecStart line, building the unit, and finding the
 configuration path in a unit again.
 */
module UnitFile {
  import opened Basics
  import opened Text

  // ----- quoting -----

  /** Every occurrence of a character replaced by a text. */
  function Replace(s: string, c: char, with: string): string {
    if s == "" then "" else (if s[0] == c then with else [s[0]]) + Replace(s[1..], c, with)
  }

  /** One replacement after the other. */
  function Escaped(s: string, expandEnv: bool): string {
    var e := Replace(Replace(Replace(s, '%', "%%"), '\\', "\\\\"), '"', "\\\"");
    if expandEnv then Replace(e, '$', "$$") else e
  }

  predicate OneLine(s: string) {
    '\r' !in s && '\n' !in s && '\0' !in s
  }

  function SystemdQuote(value: string, expandEnv: bool): Option<string> {
    var e := Escaped(value, expandEnv);
    if OneLine(e) then Some("\"" + e + "\"") else None
  }

  /** What the replacements together make of one character. */
  function EscapedChar(c: char): string {
    if c == '%' then "%%" else if c == '\\' then "\\\\" else if c == '"' then "\\\"" else if c == '$' then "$$" else [c]
  }

  function EscapedChars(s: string): string {
    if s == "" then "" else EscapedChar(s[0]) + EscapedChars(s[1..])
  }

  lemma {:induction false} ReplaceConcat(a: string, b: string, c: char, with: string)
    ensures Replace(a + b, c, with) == Replace(a, c, with) + Replace(b, c, with)
  {
    if a == "" {
      assert a + b == b;
    } else {
      assert (a + b)[1..] == a[1..] + b;
      ReplaceConcat(a[1..], b, c, with);
    }
  }

  lemma {:induction false} ReplaceNothing(s: string, c: char, with: string)
    requires c !in s
    ensures Replace(s, c, with) == s
  {
    if s != "" {
      ReplaceNothing(s[1..], c, with);
    }
  }

  lemma ReplaceChar(x: char, c: char, with: string)
    ensures Replace([x], c, with) == if x == c then with else [x]
  {
  }

  lemma ReplacePair(x: char, y: char, c: char, with: string)
    requires x != c && y != c
    ensures Replace([x, y], c, with) == [x, y]
  {
    ReplaceNothing([x, y], c, with);
  }

  lemma EscapedOfChar(c: char)
    ensures Escaped([c], true) == EscapedChar(c)
  {
    ReplaceChar(c, '%', "%%");
    if c == '%' {
      ReplacePair('%', '%', '\\', "\\\\");
      ReplacePair('%', '%', '"', "\\\"");
      ReplacePair('%', '%', '$', "$$");
    } else {
      ReplaceChar(c, '\\', "\\\\");
      if c == '\\' {
        ReplacePair('\\', '\\', '"', "\\\"");
        ReplacePair('\\', '\\', '$', "$$");
      } else {
        ReplaceChar(c, '"', "\\\"");
        if c == '"' {
          ReplacePair('\\', '"', '$', "$$");
        } else {
          ReplaceChar(c, '$', "$$");
        }
      }
    }
  }

  lemma EscapedConcat(a: string, b: string)
    ensures Escaped(a + b, true) == Escaped(a, true) + Escaped(b, true)
  {
    ReplaceConcat(a, b, '%', "%%");
    var a1, b1 := Replace(a, '%', "%%"), Replace(b, '%', "%%");
    ReplaceConcat(a1, b1, '\\', "\\\\");
    var a2, b2 := Replace(a1, '\\', "\\\\"), Replace(b1, '\\', "\\\\");
    ReplaceConcat(a2, b2, '"', "\\\"");
    ReplaceConcat(Replace(a2, '"', "\\\""), Replace(b2, '"', "\\\""), '$', "$$");
  }

  /** The replacements in order do the same as one pass over the characters. */
  lemma {:induction false} EscapedIsPerChar(s: string)
    ensures Escaped(s, true) == EscapedChars(s)
  {
    if s != "" {
      EscapedConcat([s[0]], s[1..]);
      assert [s[0]] + s[1..] == s;
      EscapedOfChar(s[0]);
      EscapedIsPerChar(s[1..]);
    }
  }

  // ----- unquoting -----

  /** A backslash before a backslash or a quote is dropped. */
  function Unslash(s: string): string
    decreases |s|
  {
    if s == "" then ""
    else if |s| > 1 && s[0] == '\\' && (s[1] == '\\' || s[1] == '"') then [s[1]] + Unslash(s[2..])
    else [s[0]] + Unslash(s[1..])
  }

  /** Two of a character become one. */
  function Halve(s: string, c: char): string
    decreases |s|
  {
    if s == "" then ""
    else if |s| > 1 && s[0] == c && s[1] == c then [c] + Halve(s[2..], c)
    else [s[0]] + Halve(s[1..], c)
  }

  function Unescaped(s: string): string {
    Halve(Halve(Unslash(s), '%'), '$')
  }

  function DoubledChar(c: char, percent: bool): string {
    if c == '$' || (percent && c == '%') then [c, c] else [c]
  }

  function Doubled(s: string, percent: bool): string {
    if s == "" then ""
    else DoubledChar(s[0], percent) + Doubled(s[1..], percent)
  }

  lemma UnslashOne(x: char, rest: string)
    requires x != '\\'
    ensures Unslash([x] + rest) == [x] + Unslash(rest)
  {
    assert ([x] + rest)[1..] == rest;
  }

  lemma UnslashPair(x: char, rest: string)
    requires x == '\\' || x == '"'
    ensures Unslash("\\" + [x] + rest) == [x] + Unslash(rest)
  {
    var t := "\\" + [x] + rest;
    assert t[0] == '\\' && t[1] == x && t[2..] == rest;
  }

  lemma UnslashTwo(x: char, rest: string)
    requires x != '\\'
    ensures Unslash([x, x] + rest) == [x, x] + Unslash(rest)
  {
    UnslashOne(x, [x] + rest);
    UnslashOne(x, rest);
    assert [x, x] + rest == [x] + ([x] + rest);
  }

  lemma UnslashChar(c: char, rest: string)
    ensures Unslash(EscapedChar(c) + rest) == DoubledChar(c, true) + Unslash(rest)
  {
    if c == '\\' || c == '"' {
      UnslashPair(c, rest);
      assert EscapedChar(c) == "\\" + [c];
    } else if c == '%' || c == '$' {
      UnslashTwo(c, rest);
      assert EscapedChar(c) == [c, c];
    } else {
      UnslashOne(c, rest);
    }
  }

  lemma {:induction false} UnslashEscaped(s: string)
    ensures Unslash(EscapedChars(s)) == Doubled(s, true)
  {
    if s != "" {
      UnslashEscaped(s[1..]);
      UnslashChar(s[0], EscapedChars(s[1..]));
    }
  }

  lemma HalveOne(x: char, rest: string, c: char)
    requires x != c
    ensures Halve([x] + rest, c) == [x] + Halve(rest, c)
  {
    assert ([x] + rest)[1..] == rest;
  }

  lemma HalvePair(rest: string, c: char)
    ensures Halve([c, c] + rest, c) == [c] + Halve(rest, c)
  {
    assert ([c, c] + rest)[2..] == rest;
  }

  lemma {:induction false} HalvePercent(s: string)
    ensures Halve(Doubled(s, true), '%') == Doubled(s, false)
  {
    if s != "" {
      var c, rest := s[0], Doubled(s[1..], true);
      HalvePercent(s[1..]);
      if c == '%' {
        HalvePair(rest, '%');
      } else if c == '$' {
        HalveOne(c, [c] + rest, '%');
        HalveOne(c, rest, '%');
        assert [c, c] + rest == [c] + ([c] + rest);
      } else {
        HalveOne(c, rest, '%');
      }
    }
  }

  lemma {:induction false} HalveDollar(s: string)
    ensures Halve(Doubled(s, false), '$') == s
  {
    if s != "" {
      var c, rest := s[0], Doubled(s[1..], false);
      HalveDollar(s[1..]);
      if c == '$' {
        HalvePair(rest, '$');
      } else {
        HalveOne(c, rest, '$');
      }
    }
  }

  /** Unquoting undoes quoting, for every text. */
  lemma UnescapedEscaped(s: string)
    ensures Unescaped(Escaped(s, true)) == s
  {
    EscapedIsPerChar(s);
    UnslashEscaped(s);
    HalvePercent(s);
    HalveDollar(s);
  }

  // ----- the search for the configuration argument -----

  datatype Capture = Quoted(text: string) | Bare(text: string)

  /** The position of the quote that closes a quoted text, or -1. A backslash takes the next character with it. */
  function Close(t: string): (r: int)
    ensures -1 <= r < |t|
    ensures r >= 0 ==> t[r] == '"'
    decreases |t|
  {
    if t == "" then -1
    else if t[0] == '"' then 0
    else if t[0] == '\\' then
      if |t| == 1 || t[1] == '\n' || t[1] == '\r' then -1
      else
        var k := Close(t[2..]);
        if k < 0 then -1 else k + 2
    else
      var k := Close(t[1..]);
      if k < 0 then -1 else k + 1
  }

  /** A quoted text, or else what is in front of the next white space. */
  function Value(t: string): Option<Capture> {
    if t != "" && t[0] == '"' && Close(t[1..]) >= 0 then Some(Quoted(t[1..][..Close(t[1..])]))
    else if Word(t) != "" then Some(Bare(Word(t)))
    else None
  }

  /** What follows the option name: an equals sign or white space. */
  function Separated(t: string): Option<string> {
    if t == "" then None
    else if t[0] == '=' then Some(t[1..])
    else if IsSpace(t[0]) then Some(TrimLeft(t))
    else None
  }

  const SHORT_OPTION := "-config"
  const LONG_OPTION := "--config"

  function NamedOption(t: string, name: string): Option<Capture> {
    if !HasPrefix(t, name) then None
    else
      match Separated(t[|name|..])
      case None => None
      case Some(rest) => Value(rest)
  }

  /** The option with its value at the front of a text. */
  function OptionAt(t: string): Option<Capture> {
    if HasPrefix(t, LONG_OPTION) then NamedOption(t, LONG_OPTION) else NamedOption(t, SHORT_OPTION)
  }

  /** The first option that follows white space. */
  function Search(at: string -> Option<Capture>, t: string): Option<Capture> {
    if t == "" then None
    else if IsSpace(t[0]) && at(t[1..]).Some? then at(t[1..])
    else Search(at, t[1..])
  }

  function FindOption(line: string): Option<Capture> {
    if OptionAt(line).Some? then OptionAt(line) else Search(OptionAt, line)
  }

  /** An empty quoted text makes the reader throw. */
  datatype Found = Throws | Nothing | Path(path: string)

  predicate IsAbsolute(path: string) {
    path != "" && path[0] == '/'
  }

  function ConfigFromLine(line: string): Found {
    match FindOption(line)
    case None => Nothing
    case Some(capture) =>
      if capture.text == "" then Throws
      else if IsAbsolute(Unescaped(capture.text)) then Path(Unescaped(capture.text))
      else Nothing
  }

  /** Lines end with a newline and perhaps a carriage return before it. */
  function Lines(text: string): seq<string> {
    var p := Split(text, '\n');
    seq(|p|, i requires 0 <= i < |p| => if i < |p| - 1 && p[i] != "" && p[i][|p[i]| - 1] == '\r' then p[i][..|p[i]| - 1] else p[i])
  }

  const EXEC_START := "ExecStart="

  function FirstWith(prefix: string, lines: seq<string>): Option<string> {
    if |lines| == 0 then None
    else if HasPrefix(lines[0], prefix) then Some(lines[0])
    else FirstWith(prefix, lines[1..])
  }

  function ConfigFromUnit(text: string): Found {
    match FirstWith(EXEC_START, Lines(text))
    case None => Nothing
    case Some(line) => ConfigFromLine(line)
  }

  // ----- how far the search looks -----

  lemma EscapedSplit(s: string, rest: string)
    requires s != ""
    ensures EscapedChars(s) + rest == EscapedChar(s[0]) + (EscapedChars(s[1..]) + rest)
    ensures |EscapedChars(s)| == |EscapedChar(s[0])| + |EscapedChars(s[1..])|
  {
    var a, b := EscapedChar(s[0]), EscapedChars(s[1..]);
    assert EscapedChars(s) == a + b;
    Associative(a, b, rest);
  }

  lemma Associative(a: string, b: string, c: string)
    ensures a + b + c == a + (b + c)
  {
  }

  /** A quoted text is closed behind everything that was escaped. */
  lemma {:induction false} CloseOfEscaped(s: string, rest: string)
    requires rest != "" && rest[0] == '"'
    ensures Close(EscapedChars(s) + rest) == |EscapedChars(s)|
  {
    if s == "" {
      assert EscapedChars(s) + rest == rest;
    } else {
      EscapedSplit(s, rest);
      CloseOfEscaped(s[1..], rest);
      CloseOfChar(s[0], EscapedChars(s[1..]) + rest);
    }
  }

  lemma CloseOfChar(c: char, t: string)
    ensures Close(EscapedChar(c) + t) == if Close(t) < 0 then -1 else Close(t) + |EscapedChar(c)|
  {
    var s := EscapedChar(c) + t;
    if |EscapedChar(c)| == 1 {
      assert s[1..] == t;
    } else if c == '\\' || c == '"' {
      assert s[0] == '\\' && s[2..] == t;
    } else {
      assert s[1..] == [c] + t;
      assert s[1..][1..] == t;
    }
  }

  /** A search passes over a text in which nothing matches, whatever comes after it. */
  lemma {:induction false} SearchPasses(at: string -> Option<Capture>, a: string, t: string)
    requires forall i :: 0 <= i < |a| && IsSpace(a[i]) ==> at((a + t)[i + 1..]) == None
    ensures Search(at, a + t) == Search(at, t)
  {
    if a == "" {
      assert a + t == t;
    } else {
      assert (a + t)[1..] == a[1..] + t;
      forall i | 0 <= i < |a[1..]| && IsSpace(a[1..][i]) ensures at((a[1..] + t)[i + 1..]) == None {
        assert a[i + 1] == a[1..][i];
        assert (a[1..] + t)[i + 1..] == (a + t)[i + 2..];
      }
      SearchPasses(at, a[1..], t);
    }
  }

  /** If something matches in the first part, and the matches there do not depend on what comes after it, the result does not. */
  lemma {:induction false} SearchStops(at: string -> Option<Capture>, a: string, t: string, u: string, k: nat)
    requires forall i :: 0 <= i < |a| && IsSpace(a[i]) ==> at((a + t)[i + 1..]) == at((a + u)[i + 1..])
    requires k < |a| && IsSpace(a[k]) && at((a + t)[k + 1..]).Some?
    ensures Search(at, a + t) == Search(at, a + u)
  {
    assert (a + t)[1..] == a[1..] + t && (a + u)[1..] == a[1..] + u;
    assert (a + t)[0] == a[0] == (a + u)[0];
    if k > 0 {
      forall i | 0 <= i < |a[1..]| && IsSpace(a[1..][i])
        ensures at((a[1..] + t)[i + 1..]) == at((a[1..] + u)[i + 1..])
      {
        assert a[i + 1] == a[1..][i];
        assert (a[1..] + t)[i + 1..] == (a + t)[i + 2..] && (a[1..] + u)[i + 1..] == (a + u)[i + 2..];
      }
      assert (a[1..] + t)[k..] == (a + t)[k + 1..];
      SearchStops(at, a[1..], t, u, k - 1);
    }
  }

  /** Ends with a quote. */
  predicate Ended(x: string) {
    x != "" && x[|x| - 1] == '"'
  }

  lemma PrefixWithin(x: string, r: string, name: string)
    requires Ended(x) && '"' !in name
    ensures HasPrefix(x + r, name) <==> HasPrefix(x, name)
    ensures HasPrefix(x, name) ==> |name| < |x| && Ended(x[|name|..]) && (x + r)[|name|..] == x[|name|..] + r
  {
    assert forall i :: 0 <= i < |name| ==> name[i] != '"';
    assert (x + r)[|x| - 1] == '"';
    if HasPrefix(x, name) {
      assert |name| < |x|;
    }
  }

  lemma {:induction false} TrimLeftWithin(x: string, r: string)
    requires Ended(x)
    ensures TrimLeft(x + r) == TrimLeft(x) + r && Ended(TrimLeft(x))
  {
    if IsSpace(x[0]) {
      assert (x + r)[1..] == x[1..] + r;
      TrimLeftWithin(x[1..], r);
    }
  }

  /** The first word ends at white space. */
  lemma {:induction false} WordStops(x: string, r: string)
    requires r != "" && IsSpace(r[0])
    ensures Word(x + r) == Word(x)
  {
    if x == "" {
      assert x + r == r;
    } else {
      assert (x + r)[1..] == x[1..] + r;
      WordStops(x[1..], r);
    }
  }

  /** A quote behind a space always closes what was open, so nothing behind it matters. */
  lemma {:induction false} CloseStops(z: string, y: string)
    ensures Close(z + (" \"" + y)) == Close(z + " \"") <= |z| + 1
    decreases |z|
  {
    var t, u := z + (" \"" + y), z + " \"";
    if z == "" {
      assert t[1..][0] == '"' && u[1..][0] == '"';
    } else if z[0] == '"' {
    } else if z[0] == '\\' {
      if |z| == 1 {
        assert t[2..][0] == '"' && u[2..][0] == '"';
      } else {
        assert t[2..] == z[2..] + (" \"" + y) && u[2..] == z[2..] + " \"";
        CloseStops(z[2..], y);
      }
    } else {
      assert t[1..] == z[1..] + (" \"" + y) && u[1..] == z[1..] + " \"";
      CloseStops(z[1..], y);
    }
  }

  lemma QuotedStops(z: string, y: string)
    requires Close(z + " \"") >= 0
    ensures (z + (" \"" + y))[..Close(z + " \"")] == (z + " \"")[..Close(z + " \"")]
  {
    CloseStops(z, y);
    var k := Close(z + " \"");
    assert (z + (" \"" + y))[..k] == (z + " ")[..k] == (z + " \"")[..k];
  }

  lemma Behind(x: string, w: string, q: string)
    requires x != ""
    ensures (x + (w + q))[0] == x[0] && (x + (w + q))[1..] == (x[1..] + w) + q
  {
  }

  /** The value of an option in front of a word and a quoted text does not depend on that text. */
  lemma ValueStops(x: string, w: string, y: string)
    requires Ended(x) && w != "" && IsSpace(w[0])
    ensures Value(x + (w + (" \"" + y))) == Value(x + (w + " \""))
  {
    WordStops(x, w + (" \"" + y));
    WordStops(x, w + " \"");
    Behind(x, w, " \"" + y);
    Behind(x, w, " \"");
    CloseStops(x[1..] + w, y);
    if Close((x[1..] + w) + " \"") >= 0 {
      QuotedStops(x[1..] + w, y);
    }
  }

  lemma NamedStops(x: string, w: string, y: string, name: string)
    requires Ended(x) && w != "" && IsSpace(w[0]) && '"' !in name
    ensures NamedOption(x + (w + (" \"" + y)), name) == NamedOption(x + (w + " \""), name)
  {
    var r, q := w + (" \"" + y), w + " \"";
    PrefixWithin(x, r, name);
    PrefixWithin(x, q, name);
    if HasPrefix(x, name) {
      var v := x[|name|..];
      if v[0] == '=' {
        assert (v + r)[1..] == v[1..] + r && (v + q)[1..] == v[1..] + q;
        ValueStops(v[1..], w, y);
      } else if IsSpace(v[0]) {
        TrimLeftWithin(v, r);
        TrimLeftWithin(v, q);
        ValueStops(TrimLeft(v), w, y);
      }
    }
  }

  lemma OptionStops(x: string, w: string, y: string)
    requires Ended(x) && w != "" && IsSpace(w[0])
    ensures OptionAt(x + (w + (" \"" + y))) == OptionAt(x + (w + " \""))
  {
    NamedStops(x, w, y, LONG_OPTION);
    NamedStops(x, w, y, SHORT_OPTION);
    PrefixWithin(x, w + (" \"" + y), LONG_OPTION);
    PrefixWithin(x, w + " \"", LONG_OPTION);
  }

  // ----- the line -----

  const MANAGED := " -managed"
  const SERVICE := " -service-mode"
  const PAUSE := " -pause-on-exit=false"
  const CONFIG := " -config"

  /** The line up to the end of the quoted binary. */
  function Before(binary: string): string {
    EXEC_START + "\"" + EscapedChars(binary) + "\""
  }

  /** The rest of the line, from the end of the quoted binary on. */
  function After(config: string): string {
    MANAGED + (SERVICE + (PAUSE + (CONFIG + (" \"" + (EscapedChars(config) + "\"")))))
  }

  function ExecLine(binary: string, config: string): string {
    Before(binary) + After(config)
  }

  function Words(): string {
    MANAGED + SERVICE + PAUSE + CONFIG
  }

  lemma Regrouped(b: string, m: string, s: string, p: string, c: string, q: string)
    ensures b + (m + (s + (p + (c + q)))) == b + (m + s + p + c + q)
  {
  }

  lemma WordsStart()
    ensures Words() != "" && IsSpace(Words()[0])
  {
    assert Words()[0] == MANAGED[0];
  }

  lemma ExecLineAs(binary: string, config: string)
    ensures ExecLine(binary, config) == Before(binary) + (Words() + (" \"" + (EscapedChars(config) + "\"")))
    ensures Ended(Before(binary))
  {
    Regrouped(Before(binary), MANAGED, SERVICE, PAUSE, CONFIG, " \"" + (EscapedChars(config) + "\""));
  }

  /** White space in the quoted binary that is followed by an option with a value. */
  predicate HiddenAt(binary: string, i: nat) {
    && i < |Before(binary)| && IsSpace(Before(binary)[i])
    && OptionAt((Before(binary) + (Words() + " \""))[i + 1..]).Some?
  }

  /** The binary hides the configuration: an earlier option is found in front of it. */
  predicate Hides(binary: string) {
    exists i :: 0 <= i < |Before(binary)| && HiddenAt(binary, i)
  }

  lemma OptionNeedsDash(t: string)
    requires |t| < 2 || t[0] != '-' || (t[1] != 'c' && t[1] != '-')
    ensures OptionAt(t) == None
  {
  }

  /** A word that starts an option of another name. */
  predicate OtherOption(w: string) {
    && |w| > 2 && w[1] == '-' && w[2] != 'c' && w[2] != '-'
    && forall i :: 0 < i < |w| ==> !IsSpace(w[i])
  }

  lemma WordsAreOther()
    ensures OtherOption(MANAGED) && OtherOption(SERVICE) && OtherOption(PAUSE)
  {
  }

  lemma SearchPassesWord(w: string, t: string)
    requires OtherOption(w)
    ensures Search(OptionAt, w + t) == Search(OptionAt, t)
  {
    forall i | 0 <= i < |w| && IsSpace(w[i]) ensures OptionAt((w + t)[i + 1..]) == None {
      assert i == 0;
      var u := (w + t)[1..];
      assert u[0] == w[1] && u[1] == w[2];
      OptionNeedsDash(u);
    }
    SearchPasses(OptionAt, w, t);
  }

  lemma ShortOption(r: string)
    requires r != "" && r[0] == ' '
    ensures OptionAt("-config" + r) == Value(TrimLeft(r))
  {
    var t := "-config" + r;
    assert t[1] == 'c' && t[..7] == SHORT_OPTION && t[7..] == r;
  }

  lemma SpaceQuote(y: string)
    ensures " \"" + y == " " + ("\"" + y)
  {
  }

  lemma QuotedValue(e: string)
    requires Close(e + "\"") == |e|
    ensures Value("\"" + (e + "\"")) == Some(Quoted(e))
  {
    var q := "\"" + (e + "\"");
    assert q[0] == '"' && q[1..] == e + "\"";
    assert (e + "\"")[..|e|] == e;
  }

  lemma SpaceIsSkipped(q: string)
    requires q != "" && q[0] == '"'
    ensures TrimLeft(" " + q) == q
  {
    assert (" " + q)[1..] == q;
  }

  /** The configuration argument itself is found where it stands. */
  lemma ConfigOption(e: string)
    requires Close(e + "\"") == |e|
    ensures OptionAt("-config" + (" \"" + (e + "\""))) == Some(Quoted(e))
  {
    var q := "\"" + (e + "\"");
    SpaceQuote(e + "\"");
    ShortOption(" " + q);
    SpaceIsSkipped(q);
    QuotedValue(e);
  }

  lemma SearchHere(at: string -> Option<Capture>, x: char, t: string)
    requires IsSpace(x) && at(t).Some?
    ensures Search(at, [x] + t) == at(t)
  {
    assert ([x] + t)[1..] == t;
  }

  lemma SpaceConfig(q: string)
    ensures CONFIG + q == [' '] + ("-config" + q)
  {
  }

  lemma SearchConfig(e: string)
    requires Close(e + "\"") == |e|
    ensures Search(OptionAt, CONFIG + (" \"" + (e + "\""))) == Some(Quoted(e))
  {
    ConfigOption(e);
    SpaceConfig(" \"" + (e + "\""));
    SearchHere(OptionAt, ' ', "-config" + (" \"" + (e + "\"")));
  }

  lemma SearchFindsConfig(config: string)
    ensures Search(OptionAt, After(config)) == Some(Quoted(EscapedChars(config)))
  {
    WordsAreOther();
    var t := CONFIG + (" \"" + (EscapedChars(config) + "\""));
    SearchPassesWord(MANAGED, SERVICE + (PAUSE + t));
    SearchPassesWord(SERVICE, PAUSE + t);
    SearchPassesWord(PAUSE, t);
    CloseOfEscaped(config, "\"");
    SearchConfig(EscapedChars(config));
  }

  lemma SliceOfConcat(a: string, b: string, i: nat)
    requires i <= |a|
    ensures (a + b)[i..] == a[i..] + b
  {
  }

  /** What is found in the quoted binary does not depend on the configuration. */
  lemma FoundInBinary(binary: string, config: string, i: nat)
    requires i < |Before(binary)| && IsSpace(Before(binary)[i])
    ensures OptionAt(ExecLine(binary, config)[i + 1..]).Some? <==> HiddenAt(binary, i)
    ensures OptionAt(ExecLine(binary, config)[i + 1..]) == OptionAt((Before(binary) + (Words() + " \""))[i + 1..])
  {
    ExecLineAs(binary, config);
    WordsStart();
    FoundIn(Before(binary), Words(), EscapedChars(config) + "\"", i);
  }

  lemma FoundIn(b: string, w: string, y: string, i: nat)
    requires Ended(b) && i < |b| && IsSpace(b[i]) && w != "" && IsSpace(w[0])
    ensures OptionAt((b + (w + (" \"" + y)))[i + 1..]) == OptionAt((b + (w + " \""))[i + 1..])
  {
    SliceOfConcat(b, w + (" \"" + y), i + 1);
    SliceOfConcat(b, w + " \"", i + 1);
    OptionStops(b[i + 1..], w, y);
  }

  lemma NoOptionAtStart(binary: string, config: string)
    ensures FindOption(ExecLine(binary, config)) == Search(OptionAt, ExecLine(binary, config))
  {
    assert ExecLine(binary, config)[0] == 'E';
    OptionNeedsDash(ExecLine(binary, config));
  }

  /** Unless the binary hides it, the configuration path is read back, whatever it contains. */
  lemma LineRoundTrip(binary: string, config: string)
    requires !Hides(binary) && IsAbsolute(config)
    ensures ConfigFromLine(ExecLine(binary, config)) == Path(config)
  {
    var t := After(config);
    NoOptionAtStart(binary, config);
    forall i | 0 <= i < |Before(binary)| && IsSpace(Before(binary)[i]) ensures OptionAt((Before(binary) + t)[i + 1..]) == None {
      FoundInBinary(binary, config, i);
    }
    SearchPasses(OptionAt, Before(binary), t);
    SearchFindsConfig(config);
    EscapedIsPerChar(config);
    UnescapedEscaped(config);
  }

  /** If the binary hides it, the same is read whatever the configuration path is. */
  lemma HiddenConfig(binary: string, a: string, b: string)
    requires Hides(binary)
    ensures ConfigFromLine(ExecLine(binary, a)) == ConfigFromLine(ExecLine(binary, b))
  {
    var k :| 0 <= k < |Before(binary)| && HiddenAt(binary, k);
    NoOptionAtStart(binary, a);
    NoOptionAtStart(binary, b);
    HiddenSearch(binary, a, b, k);
  }

  lemma HiddenSearch(binary: string, a: string, b: string, k: nat)
    requires k < |Before(binary)| && HiddenAt(binary, k)
    ensures Search(OptionAt, ExecLine(binary, a)) == Search(OptionAt, ExecLine(binary, b))
  {
    var t, u := After(a), After(b);
    forall i | 0 <= i < |Before(binary)| && IsSpace(Before(binary)[i])
      ensures OptionAt((Before(binary) + t)[i + 1..]) == OptionAt((Before(binary) + u)[i + 1..])
    {
      FoundInBinary(binary, a, i);
      FoundInBinary(binary, b, i);
    }
    FoundInBinary(binary, a, k);
    SearchStops(OptionAt, Before(binary), t, u, k);
  }

  /** A binary lets every configuration path be read back exactly if it does not hide it. */
  lemma RoundTripExactly(binary: string)
    ensures (forall config :: IsAbsolute(config) ==>
        ConfigFromLine(ExecLine(binary, config)) == Path(config)) <==> !Hides(binary)
  {
    if Hides(binary) {
      HiddenConfig(binary, "/a", "/b");
      assert IsAbsolute("/a") && IsAbsolute("/b");
      assert Path("/a").path[1] != Path("/b").path[1];
      assert ConfigFromLine(ExecLine(binary, "/a")) != Path("/a") || ConfigFromLine(ExecLine(binary, "/b")) != Path("/b");
    } else {
      forall config | IsAbsolute(config) ensures ConfigFromLine(ExecLine(binary, config)) == Path(config) {
        LineRoundTrip(binary, config);
      }
    }
  }

  /** No white space of the path is followed by the name of the option. */
  predicate NamesNoOption(path: string) {
    forall i :: 0 <= i < |path| && IsSpace(path[i]) ==>
      !HasPrefix(path[i + 1..], SHORT_OPTION) && !HasPrefix(path[i + 1..], LONG_OPTION)
  }

  /** Characters that are not escaped and are no white space. */
  predicate Plain(name: string) {
    forall i :: 0 <= i < |name| ==> EscapedChar(name[i]) == [name[i]] && !IsSpace(name[i])
  }

  lemma OptionsArePlain()
    ensures Plain(SHORT_OPTION) && Plain(LONG_OPTION)
  {
  }

  /** Plain text in an escaped path stands in the path itself. */
  lemma {:induction false} PlainPrefix(path: string, name: string)
    requires Plain(name) && HasPrefix(EscapedChars(path), name)
    ensures HasPrefix(path, name)
  {
    if name != "" {
      var e := EscapedChars(path);
      assert e[0] == name[0];
      assert path != "" && e == EscapedChar(path[0]) + EscapedChars(path[1..]);
      assert path[0] == name[0] && e[1..] == EscapedChars(path[1..]);
      assert e[..|name|][1..] == e[1..][..|name| - 1];
      PlainPrefix(path[1..], name[1..]);
      assert path[..|name|] == [path[0]] + path[1..][..|name| - 1];
    }
  }

  lemma BehindFirst(a: string, b: string, j: nat)
    requires |a| <= j <= |a| + |b|
    ensures j < |a| + |b| ==> (a + b)[j] == b[j - |a|]
    ensures (a + b)[j..] == b[j - |a|..]
  {
  }

  lemma EscapedTail(path: string, j: nat)
    requires path != "" && |EscapedChar(path[0])| <= j < |EscapedChars(path)|
    ensures var n := |EscapedChar(path[0])|;
            && j - n < |EscapedChars(path[1..])|
            && EscapedChars(path)[j] == EscapedChars(path[1..])[j - n]
            && EscapedChars(path)[j + 1..] == EscapedChars(path[1..])[j - n + 1..]
  {
    BehindFirst(EscapedChar(path[0]), EscapedChars(path[1..]), j);
    BehindFirst(EscapedChar(path[0]), EscapedChars(path[1..]), j + 1);
  }

  lemma EscapedCharSpace(c: char, j: nat)
    requires j < |EscapedChar(c)| && IsSpace(EscapedChar(c)[j])
    ensures j == 0 && EscapedChar(c) == [c] && IsSpace(c)
  {
  }

  lemma EscapedFirst(path: string, j: nat)
    requires path != "" && j < |EscapedChar(path[0])|
    ensures EscapedChars(path)[j] == EscapedChar(path[0])[j]
    ensures |EscapedChar(path[0])| == 1 ==> EscapedChars(path)[1..] == EscapedChars(path[1..])
  {
    assert EscapedChars(path) == EscapedChar(path[0]) + EscapedChars(path[1..]);
  }

  lemma EscapedSpace(path: string, j: nat, name: string)
    requires path != "" && j < |EscapedChar(path[0])| && IsSpace(EscapedChars(path)[j])
    requires Plain(name) && HasPrefix(EscapedChars(path)[j + 1..], name)
    ensures IsSpace(path[0]) && HasPrefix(path[1..], name)
  {
    EscapedFirst(path, j);
    EscapedCharSpace(path[0], j);
    PlainPrefix(path[1..], name);
  }

  lemma {:induction false} EscapedOption(path: string, j: nat, name: string)
    requires j < |EscapedChars(path)| && IsSpace(EscapedChars(path)[j])
    requires Plain(name) && HasPrefix(EscapedChars(path)[j + 1..], name)
    ensures exists k :: 0 <= k < |path| && IsSpace(path[k]) && HasPrefix(path[k + 1..], name)
  {
    if j < |EscapedChar(path[0])| {
      EscapedSpace(path, j, name);
      assert IsSpace(path[0]) && HasPrefix(path[0 + 1..], name);
    } else {
      EscapedTail(path, j);
      EscapedOption(path[1..], j - |EscapedChar(path[0])|, name);
      var k :| 0 <= k < |path[1..]| && IsSpace(path[1..][k]) && HasPrefix(path[1..][k + 1..], name);
      assert path[1..][k + 1..] == path[k + 1 + 1..];
      assert IsSpace(path[k + 1]) && HasPrefix(path[k + 1 + 1..], name);
    }
  }

  lemma OptionNeedsName(t: string)
    requires !HasPrefix(t, SHORT_OPTION) && !HasPrefix(t, LONG_OPTION)
    ensures OptionAt(t) == None
  {
  }

  lemma NoOptionInside(binary: string, j: nat, r: string)
    requires NamesNoOption(binary) && j < |EscapedChars(binary)| && IsSpace(EscapedChars(binary)[j])
    ensures OptionAt((EscapedChars(binary)[j + 1..] + "\"") + r) == None
  {
    NoNameIn(binary, j, SHORT_OPTION, r);
    NoNameIn(binary, j, LONG_OPTION, r);
    OptionNeedsName((EscapedChars(binary)[j + 1..] + "\"") + r);
  }

  lemma BehindSpace(binary: string, j: nat)
    requires j < |EscapedChars(binary)|
    ensures Before(binary)[|EXEC_START| + 1 + j + 1..] == EscapedChars(binary)[j + 1..] + "\""
  {
  }

  lemma BehindSpaceInQuotes(binary: string, i: nat) returns (j: nat)
    requires i < |Before(binary)| && IsSpace(Before(binary)[i])
    ensures j < |EscapedChars(binary)| && EscapedChars(binary)[j] == Before(binary)[i]
    ensures Before(binary)[i + 1..] == EscapedChars(binary)[j + 1..] + "\""
  {
    SpaceInQuotes(binary, i);
    j := i - |EXEC_START| - 1;
    BehindSpace(binary, j);
  }

  lemma NotFoundAt(binary: string, i: nat, r: string)
    requires NamesNoOption(binary) && i < |Before(binary)| && IsSpace(Before(binary)[i])
    ensures OptionAt((Before(binary) + r)[i + 1..]) == None
  {
    var j := BehindSpaceInQuotes(binary, i);
    SliceOfConcat(Before(binary), r, i + 1);
    NoOptionInside(binary, j, r);
  }

  lemma NotHiddenAt(binary: string, i: nat)
    requires NamesNoOption(binary)
    ensures !HiddenAt(binary, i)
  {
    if i < |Before(binary)| && IsSpace(Before(binary)[i]) {
      NotFoundAt(binary, i, Words() + " \"");
    }
  }

  lemma ExecStartHasNoSpace(i: nat)
    requires i < |EXEC_START|
    ensures !IsSpace(EXEC_START[i])
  {
  }

  lemma SpaceInQuotes(binary: string, i: nat)
    requires i < |Before(binary)| && IsSpace(Before(binary)[i])
    ensures |EXEC_START| + 1 <= i < |EXEC_START| + 1 + |EscapedChars(binary)|
    ensures EscapedChars(binary)[i - |EXEC_START| - 1] == Before(binary)[i]
  {
    if i < |EXEC_START| {
      ExecStartHasNoSpace(i);
    }
  }

  lemma NoNameIn(binary: string, j: nat, name: string, r: string)
    requires NamesNoOption(binary) && (name == SHORT_OPTION || name == LONG_OPTION)
    requires j < |EscapedChars(binary)| && IsSpace(EscapedChars(binary)[j])
    ensures !HasPrefix((EscapedChars(binary)[j + 1..] + "\"") + r, name)
  {
    OptionsArePlain();
    var x := EscapedChars(binary)[j + 1..] + "\"";
    assert forall i :: 0 <= i < |name| ==> name[i] != '"';
    PrefixWithin(x, r, name);
    if HasPrefix(x, name) {
      assert x[..|name|] == EscapedChars(binary)[j + 1..][..|name|];
      EscapedOption(binary, j, name);
    }
  }

  /** A binary path without the option's name after white space hides nothing. */
  lemma OrdinaryBinary(binary: string)
    requires NamesNoOption(binary)
    ensures !Hides(binary)
  {
    forall i | 0 <= i < |Before(binary)| ensures !HiddenAt(binary, i) {
      NotHiddenAt(binary, i);
    }
  }

  lemma EqualsOption(r: string)
    ensures OptionAt("-config=" + r) == Value(r)
  {
    var t := "-config=" + r;
    assert t[1] == 'c' && t[..7] == SHORT_OPTION && t[7..] == "=" + r && ("=" + r)[1..] == r;
  }

  predicate Ordinary(s: string) {
    forall i :: 0 <= i < |s| ==> EscapedChar(s[i]) == [s[i]]
  }

  lemma HidingLine(path: string, value: string)
    requires Ordinary(path + " -config=" + value)
    ensures Before(path + " -config=" + value) == (EXEC_START + "\"" + path) + " " + ("-config=" + (value + "\""))
  {
    OrdinaryChars(path + " -config=" + value);
  }

  lemma EqualsValue(v: string, r: string)
    requires v != "" && !IsSpace(v[0])
    ensures OptionAt("-config=" + (v + r)).Some?
  {
    EqualsOption(v + r);
    assert (v + r)[0] == v[0] && Word(v + r) != "";
  }

  lemma ValueBehindSpace(a: string, value: string, r: string)
    requires value != "" && !IsSpace(value[0])
    ensures OptionAt((a + " " + ("-config=" + (value + "\"")) + r)[|a| + 1..]).Some?
  {
    var c := "-config=" + (value + "\"");
    SliceOfConcat(a + " " + c, r, |a| + 1);
    assert (a + " " + c)[|a| + 1..] == c;
    assert c + r == "-config=" + (value + ("\"" + r));
    EqualsValue(value, "\"" + r);
  }

  /** A binary path that holds the option with a value hides the configuration. */
  lemma OptionInPathHides(path: string, value: string)
    requires Ordinary(path + " -config=" + value) && value != "" && !IsSpace(value[0])
    ensures Hides(path + " -config=" + value)
  {
    var b, a := path + " -config=" + value, EXEC_START + "\"" + path;
    HidingLine(path, value);
    ValueBehindSpace(a, value, Words() + " \"");
    assert Before(b)[|a|] == ' ';
    assert HiddenAt(b, |a|);
  }

  lemma {:induction false} OrdinaryChars(s: string)
    requires Ordinary(s)
    ensures EscapedChars(s) == s
  {
    if s != "" {
      OrdinaryChars(s[1..]);
      assert EscapedChar(s[0]) == [s[0]];
      assert s == [s[0]] + s[1..];
    }
  }

  // ----- the unit -----

  datatype Options = Options(
    systemService: bool, userName: string, home: string, configDir: string, binary: string, configPath: string)

  function WorkingDirectory(value: string): Option<string> {
    if !IsAbsolute(value) || value != Trim(value) || !OneLine(value) then None else Some(Replace(value, '%', "%%"))
  }

  function UnitHead(): seq<string> {
    ["[Unit]", "Description=1Cat Tunnel Client", "Wants=network-online.target", "After=network-online.target", "",
     "[Service]", "Type=simple"]
  }

  function User(o: Options): seq<string> {
    if o.systemService then ["User=" + o.userName] else []
  }

  function UnitRules(): seq<string> {
    ["Restart=always", "RestartSec=5", "UMask=0077", "NoNewPrivileges=true"]
  }

  function Protection(o: Options): Option<seq<string>> {
    if !o.systemService then Some([])
    else
      match SystemdQuote(o.configDir, false)
      case None => None
      case Some(q) => Some(["PrivateTmp=true", "ProtectSystem=strict", "ProtectHome=read-only", "ReadWritePaths=" + q])
  }

  function UnitEnd(o: Options): seq<string> {
    ["", "[Install]", "WantedBy=" + (if o.systemService then "multi-user.target" else "default.target"), ""]
  }

  function ExecStart(binary: string, config: string): string {
    EXEC_START + binary + (MANAGED + SERVICE + PAUSE + CONFIG + " ") + config
  }

  /** The lines of the unit, or None if a path or the home directory is refused. */
  function UnitLines(o: Options): Option<seq<string>> {
    var dir, home := WorkingDirectory(o.configDir), SystemdQuote("HOME=" + o.home, false);
    var binary, config := SystemdQuote(o.binary, true), SystemdQuote(o.configPath, true);
    var protection := Protection(o);
    if dir.None? || home.None? || binary.None? || config.None? || protection.None? then None
    else
      Some((UnitHead() + User(o) + ["WorkingDirectory=" + dir.value, "Environment=" + home.value])
           + [ExecStart(binary.value, config.value)] + (UnitRules() + protection.value + UnitEnd(o)))
  }

  function ServiceUnit(o: Options): Option<string> {
    match UnitLines(o)
    case None => None
    case Some(lines) => Some(Join(lines, "\n"))
  }

  /** Lines are pushed one group after the other; a refused value ends in an error. */
  method BuildServiceUnit(o: Options) returns (r: Option<string>)
    ensures r == ServiceUnit(o)
  {
    var lines := UnitHead();
    if o.systemService {
      lines := lines + ["User=" + o.userName];
    }
    var dir, home := WorkingDirectory(o.configDir), SystemdQuote("HOME=" + o.home, false);
    var binary, config := SystemdQuote(o.binary, true), SystemdQuote(o.configPath, true);
    if dir.None? || home.None? || binary.None? || config.None? {
      return None;
    }
    lines := lines + ["WorkingDirectory=" + dir.value, "Environment=" + home.value];
    ghost var head := lines;
    lines := lines + [ExecStart(binary.value, config.value)];
    lines := lines + UnitRules();
    if o.systemService {
      var q := SystemdQuote(o.configDir, false);
      if q.None? {
        return None;
      }
      lines := lines + ["PrivateTmp=true", "ProtectSystem=strict", "ProtectHome=read-only", "ReadWritePaths=" + q.value];
    }
    lines := lines + UnitEnd(o);
    assert head == UnitHead() + User(o) + ["WorkingDirectory=" + dir.value, "Environment=" + home.value];
    assert lines == head + [ExecStart(binary.value, config.value)] + (UnitRules() + Protection(o).value + UnitEnd(o));
    r := Some(Join(lines, "\n"));
  }

  /** A line that ends nowhere else. */
  predicate OwnLine(l: string) {
    '\n' !in l && '\r' !in l
  }

  predicate OwnLines(ls: seq<string>) {
    forall i :: 0 <= i < |ls| ==> OwnLine(ls[i])
  }

  predicate NoneStarts(ls: seq<string>, prefix: string) {
    forall i :: 0 <= i < |ls| ==> !HasPrefix(ls[i], prefix)
  }

  lemma LinesOfJoin(ls: seq<string>)
    requires |ls| > 0 && OwnLines(ls)
    ensures Lines(Join(ls, "\n")) == ls
  {
    assert "\n" == ['\n'];
    forall l | l in ls ensures '\n' !in l {
      var i :| 0 <= i < |ls| && ls[i] == l;
      assert OwnLine(ls[i]);
    }
    SplitJoin(ls, '\n');
    assert forall i :: 0 <= i < |ls| ==> OwnLine(ls[i]);
  }

  lemma {:induction false} FirstWithSkips(prefix: string, a: seq<string>, l: string, b: seq<string>)
    requires NoneStarts(a, prefix) && HasPrefix(l, prefix)
    ensures FirstWith(prefix, a + [l] + b) == Some(l)
  {
    var all := a + [l] + b;
    if |a| > 0 {
      assert all[0] == a[0] && all[1..] == a[1..] + [l] + b;
      FirstWithSkips(prefix, a[1..], l, b);
    } else {
      assert all[0] == l;
    }
  }

  /** The first ExecStart line of joined lines is found. */
  lemma FoundLine(a: seq<string>, l: string, b: seq<string>)
    requires OwnLines(a) && OwnLine(l) && OwnLines(b) && NoneStarts(a, EXEC_START) && HasPrefix(l, EXEC_START)
    ensures ConfigFromUnit(Join(a + [l] + b, "\n")) == ConfigFromLine(l)
  {
    var all := a + [l] + b;
    assert OwnLines(all);
    LinesOfJoin(all);
    FirstWithSkips(EXEC_START, a, l, b);
  }

  lemma {:induction false} ReplaceOwnLine(s: string, c: char, with: string)
    requires OwnLine(s) && OwnLine(with)
    ensures OwnLine(Replace(s, c, with))
  {
    if s != "" {
      ReplaceOwnLine(s[1..], c, with);
    }
  }

  lemma OwnUnitTexts()
    ensures OwnLine("[Unit]")
  {
  }

  lemma OwnDescriptionText()
    ensures OwnLine("Description=1Cat Tunnel Client")
  {
  }

  lemma OwnOrderTexts()
    ensures OwnLine("Wants=network-online.target")
  {
  }

  lemma OwnAfterText()
    ensures OwnLine("After=network-online.target")
  {
  }

  lemma OwnServiceTexts()
    ensures OwnLine("") && OwnLine("[Service]") && OwnLine("Type=simple")
  {
  }

  lemma OtherStart(l: string)
    requires l == "" || l[0] != 'E'
    ensures !HasPrefix(l, EXEC_START)
  {
    assert EXEC_START[0] == 'E';
  }

  lemma HeadIsOwn()
    ensures OwnLines(UnitHead()) && NoneStarts(UnitHead(), EXEC_START)
  {
    OwnUnitTexts();
    OwnDescriptionText();
    OwnOrderTexts();
    OwnAfterText();
    OwnServiceTexts();
    var h := UnitHead();
    forall i | 0 <= i < |h| ensures !HasPrefix(h[i], EXEC_START) {
      OtherStart(h[i]);
    }
  }

  lemma RulesAreOwn()
    ensures OwnLines(UnitRules())
  {
  }

  lemma EndIsOwn(o: Options)
    ensures OwnLines(UnitEnd(o))
  {
  }

  /** A setting with another first or second letter. */
  lemma OtherSetting(name: string, value: string)
    requires |name| >= 2 && OwnLine(name) && OwnLine(value) && (name[0] != 'E' || name[1] != 'x')
    ensures OwnLine(name + value) && !HasPrefix(name + value, EXEC_START)
  {
    assert (name + value)[0] == name[0] && (name + value)[1] == name[1];
    assert EXEC_START[0] == 'E' && EXEC_START[1] == 'x';
  }

  lemma QuoteIsOwnLine(value: string, expandEnv: bool)
    requires SystemdQuote(value, expandEnv).Some?
    ensures OwnLine(SystemdQuote(value, expandEnv).value)
  {
  }

  lemma SettingsAreOwn(o: Options, dir: string, home: string)
    requires OwnLine(o.userName) && OwnLine(dir) && OwnLine(home)
    ensures var ls := User(o) + ["WorkingDirectory=" + dir, "Environment=" + home];
            OwnLines(ls) && NoneStarts(ls, EXEC_START)
  {
    OtherSetting("User=", o.userName);
    OtherSetting("WorkingDirectory=", dir);
    OtherSetting("Environment=", home);
  }

  lemma ProtectionIsOwn(o: Options)
    requires Protection(o).Some?
    ensures OwnLines(Protection(o).value)
  {
    if o.systemService {
      QuoteIsOwnLine(o.configDir, false);
      OtherSetting("ReadWritePaths=", SystemdQuote(o.configDir, false).value);
    }
  }

  lemma ExecStartIsLine(binary: string, config: string)
    ensures ExecStart("\"" + Escaped(binary, true) + "\"", "\"" + Escaped(config, true) + "\"") == ExecLine(binary, config)
  {
    EscapedIsPerChar(binary);
    EscapedIsPerChar(config);
    Rejoined(EXEC_START, "\"" + EscapedChars(binary) + "\"", MANAGED, SERVICE, PAUSE, CONFIG, EscapedChars(config));
  }

  lemma Rejoined(e: string, b: string, m: string, s: string, p: string, c: string, q: string)
    ensures e + b + (m + s + p + c + " ") + ("\"" + q + "\"") == (e + b) + (m + (s + (p + (c + (" \"" + (q + "\""))))))
  {
    assert (m + s + p + c + " ") + ("\"" + q + "\"") == m + (s + (p + (c + (" \"" + (q + "\"")))));
  }

  lemma ExecIsOwn(o: Options)
    requires SystemdQuote(o.binary, true).Some? && SystemdQuote(o.configPath, true).Some?
    ensures var l := ExecStart(SystemdQuote(o.binary, true).value, SystemdQuote(o.configPath, true).value);
            OwnLine(l) && HasPrefix(l, EXEC_START) && l == ExecLine(o.binary, o.configPath)
  {
    ExecStartIsLine(o.binary, o.configPath);
    QuoteIsOwnLine(o.binary, true);
    QuoteIsOwnLine(o.configPath, true);
    var b, c := SystemdQuote(o.binary, true).value, SystemdQuote(o.configPath, true).value;
    ExecParts(b, c);
  }

  lemma ExecParts(b: string, c: string)
    requires OwnLine(b) && OwnLine(c)
    ensures OwnLine(ExecStart(b, c)) && HasPrefix(ExecStart(b, c), EXEC_START)
  {
    WordsAreOwn();
    var l := ExecStart(b, c);
    assert l[..|EXEC_START|] == EXEC_START;
  }

  lemma WordsAreOwn()
    ensures OwnLine(EXEC_START) && OwnLine(MANAGED) && OwnLine(SERVICE) && OwnLine(PAUSE) && OwnLine(CONFIG)
  {
  }

  lemma JoinedLines(o: Options)
    requires ServiceUnit(o).Some?
    ensures ServiceUnit(o).value ==
            Join((UnitHead() + (User(o) + ["WorkingDirectory=" + WorkingDirectory(o.configDir).value,
                                           "Environment=" + SystemdQuote("HOME=" + o.home, false).value]))
                 + [ExecStart(SystemdQuote(o.binary, true).value, SystemdQuote(o.configPath, true).value)]
                 + (UnitRules() + Protection(o).value + UnitEnd(o)), "\n")
  {
    Grouped(UnitHead(), User(o), ["WorkingDirectory=" + WorkingDirectory(o.configDir).value,
                                  "Environment=" + SystemdQuote("HOME=" + o.home, false).value]);
  }

  lemma Grouped(a: seq<string>, b: seq<string>, c: seq<string>)
    ensures a + b + c == a + (b + c)
  {
  }

  /** The reader takes the configuration from the ExecStart line of the unit. */
  lemma UnitLine(o: Options)
    requires OwnLine(o.userName) && ServiceUnit(o).Some?
    ensures ConfigFromUnit(ServiceUnit(o).value) == ConfigFromLine(ExecLine(o.binary, o.configPath))
  {
    var dir, home := WorkingDirectory(o.configDir).value, SystemdQuote("HOME=" + o.home, false).value;
    ReplaceOwnLine(o.configDir, '%', "%%");
    QuoteIsOwnLine("HOME=" + o.home, false);
    SettingsAreOwn(o, dir, home);
    HeadIsOwn();
    RulesAreOwn();
    EndIsOwn(o);
    ProtectionIsOwn(o);
    ExecIsOwn(o);
    var settings := User(o) + ["WorkingDirectory=" + dir, "Environment=" + home];
    var l := ExecStart(SystemdQuote(o.binary, true).value, SystemdQuote(o.configPath, true).value);
    JoinedLines(o);
    UnitParts(UnitHead(), settings, l, UnitRules(), Protection(o).value, UnitEnd(o));
  }

  lemma UnitParts(head: seq<string>, settings: seq<string>, l: string, rules: seq<string>,
          protection: seq<string>, end: seq<string>)
    requires OwnLines(head) && OwnLines(settings) && OwnLine(l) && OwnLines(rules) && OwnLines(protection)
        && OwnLines(end)
    requires NoneStarts(head, EXEC_START) && NoneStarts(settings, EXEC_START) && HasPrefix(l, EXEC_START)
    ensures ConfigFromUnit(Join((head + settings) + [l] + (rules + protection + end), "\n")) == ConfigFromLine(l)
  {
    FoundLine(head + settings, l, rules + protection + end);
  }

  /** The unit gives back an absolute configuration path whatever it contains, if the binary does not hide it; so for
      every binary path in which no white space is followed by the option's name. */
  lemma UnitRoundTrip(o: Options)
    requires OwnLine(o.userName) && ServiceUnit(o).Some? && IsAbsolute(o.configPath)
    ensures !Hides(o.binary) ==> ConfigFromUnit(ServiceUnit(o).value) == Path(o.configPath)
    ensures NamesNoOption(o.binary) ==> ConfigFromUnit(ServiceUnit(o).value) == Path(o.configPath)
  {
    UnitLine(o);
    if NamesNoOption(o.binary) {
      OrdinaryBinary(o.binary);
    }
    if !Hides(o.binary) {
      LineRoundTrip(o.binary, o.configPath);
    }
  }

  /** The unit of the same client with another configuration path. */
  function UnitFor(o: Options, config: string): Option<string> {
    ServiceUnit(o.(configPath := config))
  }

  lemma PlainConfig(config: string)
    requires Ordinary(config) && OneLine(config)
    ensures SystemdQuote(config, true).Some?
  {
    EscapedIsPerChar(config);
    OrdinaryChars(config);
  }

  lemma OtherConfig(o: Options, config: string)
    requires ServiceUnit(o).Some? && SystemdQuote(config, true).Some?
    ensures UnitFor(o, config).Some?
  {
  }

  predicate GivesBack(o: Options, config: string) {
    UnitFor(o, config).Some? ==> ConfigFromUnit(UnitFor(o, config).value) == Path(config)
  }

  /** If the binary hides the configuration, the units of all configurations are read alike. */
  lemma HiddenInUnits(o: Options, a: string, b: string)
    requires OwnLine(o.userName) && Hides(o.binary) && UnitFor(o, a).Some? && UnitFor(o, b).Some?
    ensures ConfigFromUnit(UnitFor(o, a).value) == ConfigFromUnit(UnitFor(o, b).value)
  {
    UnitLine(o.(configPath := a));
    UnitLine(o.(configPath := b));
    HiddenConfig(o.binary, a, b);
  }

  lemma PlainPath(c: char)
    requires EscapedChar(c) == [c] && c != '\r' && c != '\n' && c != '\0'
    ensures IsAbsolute(['/', c]) && SystemdQuote(['/', c], true).Some?
  {
    PlainConfig(['/', c]);
  }

  lemma NotBoth(o: Options, a: string, b: string)
    requires OwnLine(o.userName) && ServiceUnit(o).Some? && Hides(o.binary) && a != b
    requires SystemdQuote(a, true).Some? && SystemdQuote(b, true).Some?
    ensures !GivesBack(o, a) || !GivesBack(o, b)
  {
    OtherConfig(o, a);
    OtherConfig(o, b);
    HiddenInUnits(o, a, b);
  }

  lemma OneIsLost(o: Options, a: string, b: string) returns (config: string)
    requires OwnLine(o.userName) && ServiceUnit(o).Some? && Hides(o.binary) && a != b
    requires IsAbsolute(a) && IsAbsolute(b) && SystemdQuote(a, true).Some? && SystemdQuote(b, true).Some?
    ensures IsAbsolute(config) && !GivesBack(o, config)
  {
    NotBoth(o, a, b);
    config := if GivesBack(o, a) then b else a;
  }

  lemma SomeConfigIsLost(o: Options) returns (config: string)
    requires OwnLine(o.userName) && ServiceUnit(o).Some? && Hides(o.binary)
    ensures IsAbsolute(config) && !GivesBack(o, config)
  {
    var a, b := TwoPaths();
    config := OneIsLost(o, a, b);
  }

  lemma TwoPaths() returns (a: string, b: string)
    ensures a != b && IsAbsolute(a) && IsAbsolute(b)
    ensures SystemdQuote(a, true).Some? && SystemdQuote(b, true).Some?
  {
    var c, d := 'a', 'b';
    a, b := ['/', c], ['/', d];
    PlainLetters(c, d);
    PlainPath(c);
    PlainPath(d);
    assert a[1] != b[1];
  }

  lemma PlainLetters(c: char, d: char)
    requires c == 'a' && d == 'b'
    ensures EscapedChar(c) == [c] && EscapedChar(d) == [d]
  {
  }

  lemma EveryConfigIsRead(o: Options, config: string)
    requires OwnLine(o.userName) && !Hides(o.binary) && IsAbsolute(config)
    ensures GivesBack(o, config)
  {
    if UnitFor(o, config).Some? {
      UnitRoundTrip(o.(configPath := config));
    }
  }

  /** For a client whose unit can be built, every absolute configuration path that a unit can hold is read back from its
      unit exactly if the binary does not hide it. */
  lemma UnitRoundTripExactly(o: Options)
    requires OwnLine(o.userName) && ServiceUnit(o).Some?
    ensures (forall config :: IsAbsolute(config) ==> GivesBack(o, config)) <==> !Hides(o.binary)
  {
    if Hides(o.binary) {
      var config := SomeConfigIsLost(o);
    } else {
      forall config | IsAbsolute(config) ensures GivesBack(o, config) {
        EveryConfigIsRead(o, config);
      }
    }
  }
}
