/**
 The string helpers of the client and the server, over ASCII white space and ASCII case folding:
 trimming, case-insensitive comparison, splitting, joining and splitting into fields.
 */
module Text {

  predicate IsSpace(c: char) {
    c == ' ' || c == '\t' || c == '\n' || c == '\r' || c == '\U{000B}' || c == '\U{000C}'
  }

  // ----- trimming -----

  function TrimLeft(s: string): (r: string)
    ensures |r| <= |s|
    ensures r == "" || !IsSpace(r[0])
  {
    if s != "" && IsSpace(s[0]) then TrimLeft(s[1..]) else s
  }

  function TrimRight(s: string): (r: string)
    ensures |r| <= |s|
  {
    if s != "" && IsSpace(s[|s| - 1]) then TrimRight(s[..|s| - 1]) else s
  }

  /** What is left is a suffix that does not start with white space, after white space only. */
  lemma {:induction false} TrimLeftSpec(s: string)
    ensures var r := TrimLeft(s);
            r == s[|s| - |r|..] && AllSpace(s[..|s| - |r|]) && (r == "" || !IsSpace(r[0]))
  {
    if s != "" && IsSpace(s[0]) {
      TrimLeftSpec(s[1..]);
      var n := |s| - |TrimLeft(s)|;
      assert s[..n] == [s[0]] + s[1..][..n - 1];
    }
  }

  lemma {:induction false} TrimRightSpec(s: string)
    ensures var r := TrimRight(s);
            r == s[..|r|] && AllSpace(s[|r|..]) && (r == "" || !IsSpace(r[|r| - 1]))
  {
    if s != "" && IsSpace(s[|s| - 1]) {
      TrimRightSpec(s[..|s| - 1]);
      var n := |TrimRight(s)|;
      assert s[n..] == s[..|s| - 1][n..] + [s[|s| - 1]];
    }
  }

  function Trim(s: string): string {
    TrimRight(TrimLeft(s))
  }

  predicate Trimmed(s: string) {
    s == "" || (!IsSpace(s[0]) && !IsSpace(s[|s| - 1]))
  }

  predicate Blank(s: string) {
    Trim(s) == ""
  }

  predicate AllSpace(s: string) {
    forall i :: 0 <= i < |s| ==> IsSpace(s[i])
  }

  lemma TrimOfTrimmed(s: string)
    requires Trimmed(s)
    ensures Trim(s) == s
  {
    assert TrimLeft(s) == s;
  }

  lemma TrimIsTrimmed(s: string)
    ensures Trimmed(Trim(s))
    ensures Trim(Trim(s)) == Trim(s)
  {
    var l := TrimLeft(s);
    var t := TrimRight(l);
    TrimLeftSpec(s);
    TrimRightSpec(l);
    if t != "" {
      assert t[0] == l[0];
    }
    TrimOfTrimmed(t);
  }

  /** A trimmed string is a slice of the original between white space. */
  lemma TrimSlice(s: string) returns (i: nat, j: nat)
    ensures i <= j <= |s| && Trim(s) == s[i..j]
    ensures AllSpace(s[..i]) && AllSpace(s[j..])
  {
    var l := TrimLeft(s);
    TrimLeftSpec(s);
    TrimRightSpec(l);
    i := |s| - |l|;
    j := i + |TrimRight(l)|;
    assert s[j..] == l[|TrimRight(l)|..];
  }

  lemma {:induction false} TrimLeftSkips(a: string, s: string)
    requires AllSpace(a)
    ensures TrimLeft(a + s) == TrimLeft(s)
  {
    if a == "" {
      assert a + s == s;
    } else {
      assert (a + s)[0] == a[0];
      assert (a + s)[1..] == a[1..] + s;
      TrimLeftSkips(a[1..], s);
    }
  }

  lemma {:induction false} TrimRightSkips(s: string, b: string)
    requires AllSpace(b)
    ensures TrimRight(s + b) == TrimRight(s)
  {
    if b == "" {
      assert s + b == s;
    } else {
      assert (s + b)[|s + b| - 1] == b[|b| - 1];
      assert (s + b)[..|s + b| - 1] == s + b[..|b| - 1];
      TrimRightSkips(s, b[..|b| - 1]);
    }
  }

  lemma TrimUnique(a: string, t: string, b: string)
    requires AllSpace(a) && AllSpace(b) && Trimmed(t)
    ensures Trim(a + t + b) == t
  {
    assert a + t + b == a + (t + b);
    TrimLeftSkips(a, t + b);
    if t == "" {
      assert t + b == b + "";
      TrimLeftSkips(b, "");
    } else {
      assert TrimLeft(t + b) == t + b;
      TrimRightSkips(t, b);
    }
  }

  lemma BlankIsAllSpace(s: string)
    ensures Blank(s) <==> AllSpace(s)
  {
    var i, j := TrimSlice(s);
    if Blank(s) {
      assert i == j && s == s[..i] + s[j..];
    }
    if AllSpace(s) {
      assert s == s + "" + "";
      TrimUnique(s, "", "");
    }
  }

  lemma {:induction false} TrimLeftWithTail(s: string, tail: string)
    requires AllSpace(tail)
    ensures TrimLeft(s + tail) == if TrimLeft(s) == "" then "" else TrimLeft(s) + tail
  {
    if s == "" {
      assert s + tail == tail + "";
      TrimLeftSkips(tail, "");
    } else if IsSpace(s[0]) {
      assert (s + tail)[1..] == s[1..] + tail;
      TrimLeftWithTail(s[1..], tail);
    }
  }

  /** White space added or removed at the end does not change the trimmed string. */
  lemma TrimIgnoresTail(s: string, tail: string)
    requires AllSpace(tail)
    ensures Trim(s + tail) == Trim(s)
  {
    TrimLeftWithTail(s, tail);
    if TrimLeft(s) != "" {
      TrimRightSkips(TrimLeft(s), tail);
    }
  }

  // ----- case folding -----

  function LowerChar(c: char): char {
    if 'A' <= c <= 'Z' then (c as int + 32) as char else c
  }

  function Lower(s: string): (r: string)
    ensures |r| == |s|
    ensures forall i :: 0 <= i < |s| ==> r[i] == LowerChar(s[i])
  {
    seq(|s|, i requires 0 <= i < |s| => LowerChar(s[i]))
  }

  predicate EqualFold(a: string, b: string) {
    Lower(a) == Lower(b)
  }

  lemma EqualFoldIsEquivalence(a: string, b: string, c: string)
    ensures EqualFold(a, a)
    ensures EqualFold(a, b) ==> EqualFold(b, a)
    ensures EqualFold(a, b) && EqualFold(b, c) ==> EqualFold(a, c)
  {
  }

  lemma EqualFoldLength(a: string, b: string)
    requires EqualFold(a, b)
    ensures |a| == |b|
  {
    assert |Lower(a)| == |Lower(b)|;
  }

  lemma DifferentLength(a: string, b: string)
    requires |a| != |b|
    ensures !EqualFold(a, b)
  {
    assert |Lower(a)| != |Lower(b)|;
  }

  /** Case folding keeps white space where it is, so it commutes with trimming. */
  lemma EqualFoldTrimmed(a: string, b: string)
    requires EqualFold(a, b)
    ensures Trimmed(a) <==> Trimmed(b)
  {
    EqualFoldLength(a, b);
    assert forall i :: 0 <= i < |a| ==> Lower(a)[i] == Lower(b)[i];
  }

  // ----- searching -----

  predicate HasPrefix(s: string, p: string) {
    |p| <= |s| && s[..|p|] == p
  }

  predicate HasAt(s: string, p: string, i: int) {
    0 <= i && i + |p| <= |s| && s[i..i + |p|] == p
  }

  /** The position of the first occurrence of p at or after i, or -1. */
  function IndexFrom(s: string, p: string, i: nat): (r: int)
    requires i <= |s|
    ensures r == -1 || (i <= r && HasAt(s, p, r))
    ensures forall k :: i <= k <= |s| && (r == -1 || k < r) ==> !HasAt(s, p, k)
    decreases |s| - i
  {
    if HasAt(s, p, i) then i
    else if i == |s| then -1
    else IndexFrom(s, p, i + 1)
  }

  function Index(s: string, p: string): int {
    IndexFrom(s, p, 0)
  }

  predicate Contains(s: string, p: string) {
    exists i :: 0 <= i <= |s| && HasAt(s, p, i)
  }

  // ----- lines -----

  function Split(s: string, c: char): (r: seq<string>)
    ensures |r| > 0
    ensures forall l :: l in r ==> c !in l
  {
    if s == "" then [""]
    else
      var rest := Split(s[1..], c);
      if s[0] == c then [""] + rest
      else [[s[0]] + rest[0]] + rest[1..]
  }

  function Join(ls: seq<string>, sep: string): string {
    if |ls| == 0 then ""
    else if |ls| == 1 then ls[0]
    else ls[0] + sep + Join(ls[1..], sep)
  }

  lemma {:induction false} SplitFirst(l: string, rest: string, c: char)
    requires c !in l
    ensures Split(l + [c] + rest, c) == [l] + Split(rest, c)
  {
    var s := l + [c] + rest;
    if l == "" {
      assert s[1..] == rest;
    } else {
      assert s[1..] == l[1..] + [c] + rest;
      SplitFirst(l[1..], rest, c);
      assert s[0] == l[0] && [l[0]] + l[1..] == l;
    }
  }

  lemma {:induction false} SplitSingle(l: string, c: char)
    requires c !in l
    ensures Split(l, c) == [l]
  {
    if l != "" {
      SplitSingle(l[1..], c);
      assert [l[0]] + l[1..] == l;
    }
  }

  /** Splitting undoes joining, for lines that do not hold the separator. */
  lemma {:induction false} SplitJoin(ls: seq<string>, c: char)
    requires |ls| > 0
    requires forall l :: l in ls ==> c !in l
    ensures Split(Join(ls, [c]), c) == ls
  {
    if |ls| == 1 {
      SplitSingle(ls[0], c);
    } else {
      SplitJoin(ls[1..], c);
      SplitFirst(ls[0], Join(ls[1..], [c]), c);
    }
  }

  lemma {:induction false} JoinSnoc(ls: seq<string>, last: string, sep: string)
    requires |ls| > 0
    ensures Join(ls + [last], sep) == Join(ls, sep) + sep + last
  {
    var all := ls + [last];
    if |ls| == 1 {
      assert all[1..] == [last];
    } else {
      assert all[1..] == ls[1..] + [last];
      JoinSnoc(ls[1..], last, sep);
    }
  }

  lemma {:induction false} JoinConcat(a: seq<string>, b: seq<string>, sep: string)
    requires |a| > 0 && |b| > 0
    ensures Join(a + b, sep) == Join(a, sep) + sep + Join(b, sep)
  {
    assert (a + b)[1..] == a[1..] + b;
    if |a| > 1 {
      JoinConcat(a[1..], b, sep);
    } else {
      assert a[1..] + b == b;
    }
  }

  lemma JoinHead(x: char, ls: seq<string>, sep: string)
    requires |ls| > 0
    ensures Join([[x] + ls[0]] + ls[1..], sep) == [x] + Join(ls, sep)
  {
    var m := [[x] + ls[0]] + ls[1..];
    assert m[1..] == ls[1..];
    if |ls| > 1 {
      assert [x] + ls[0] + sep + Join(ls[1..], sep) == [x] + (ls[0] + sep + Join(ls[1..], sep));
    }
  }

  /** Joining undoes splitting. */
  lemma {:induction false} JoinSplit(s: string, c: char)
    ensures Join(Split(s, c), [c]) == s
  {
    if s != "" {
      var rest := Split(s[1..], c);
      JoinSplit(s[1..], c);
      if s[0] == c {
        JoinConcat([""], rest, [c]);
      } else {
        JoinHead(s[0], rest, [c]);
      }
    }
  }

  // ----- fields -----

  /** The longest prefix without white space. */
  function Word(s: string): (w: string)
    ensures |w| <= |s| && w == s[..|w|]
    ensures forall i :: 0 <= i < |w| ==> !IsSpace(w[i])
    ensures |w| < |s| ==> IsSpace(s[|w|])
  {
    if s == "" || IsSpace(s[0]) then "" else [s[0]] + Word(s[1..])
  }

  predicate IsField(w: string) {
    w != "" && forall i :: 0 <= i < |w| ==> !IsSpace(w[i])
  }

  predicate AllFields(ws: seq<string>) {
    forall i :: 0 <= i < |ws| ==> IsField(ws[i])
  }

  function Fields(s: string): (r: seq<string>)
    ensures AllFields(r)
    decreases |s|
  {
    var t := TrimLeft(s);
    if t == "" then []
    else
      var w := Word(t);
      [w] + Fields(t[|w|..])
  }

  lemma WordOfJoin(w: string, rest: string)
    requires IsField(w)
    requires rest == "" || IsSpace(rest[0])
    ensures TrimLeft(w + rest) == w + rest
    ensures Word(w + rest) == w
  {
    var s := w + rest;
    assert forall i :: 0 <= i < |w| ==> s[i] == w[i];
    assert rest != "" ==> s[|w|] == rest[0];
    assert |Word(s)| == |w|;
  }

  lemma FieldsCons(w: string, rest: string)
    requires IsField(w)
    requires rest == "" || IsSpace(rest[0])
    ensures Fields(w + rest) == [w] + Fields(rest)
  {
    WordOfJoin(w, rest);
    assert (w + rest)[|w|..] == rest;
  }

  lemma FieldsConsSpace(w: string, rest: string)
    requires IsField(w)
    ensures Fields(w + " " + rest) == [w] + Fields(rest)
  {
    assert w + " " + rest == w + (" " + rest);
    FieldsCons(w, " " + rest);
    FieldsSkip(rest);
  }

  lemma FieldsSkip(s: string)
    ensures Fields(" " + s) == Fields(s)
  {
    assert (" " + s)[1..] == s;
    assert TrimLeft(" " + s) == TrimLeft(s);
  }

  /** Fields undoes joining words with single spaces. */
  lemma {:induction false} FieldsJoin(ws: seq<string>)
    requires AllFields(ws)
    ensures Fields(Join(ws, " ")) == ws
  {
    if |ws| == 1 {
      FieldsSingle(ws[0]);
    } else if |ws| > 1 {
      var w, tail := ws[0], Join(ws[1..], " ");
      calc {
        Fields(Join(ws, " "));
        Fields(w + " " + tail);
        { FieldsConsSpace(w, tail); }
        [w] + Fields(tail);
        { FieldsJoin(ws[1..]); }
        [w] + ws[1..];
        ws;
      }
    }
  }

  lemma FieldsSingle(w: string)
    requires IsField(w)
    ensures Fields(w) == [w]
  {
    assert w + "" == w;
    FieldsCons(w, "");
    assert Fields("") == [];
  }

  lemma {:induction false} JoinOfFieldsIsTrimmed(ws: seq<string>)
    requires |ws| > 0
    requires AllFields(ws)
    ensures var s := Join(ws, " "); Trimmed(s) && s != "" && s[0] == ws[0][0]
  {
    if |ws| > 1 {
      JoinOfFieldsIsTrimmed(ws[1..]);
      var tail := Join(ws[1..], " ");
      var s := ws[0] + " " + tail;
      assert s[|s| - 1] == tail[|tail| - 1];
    }
  }

  // ----- single characters -----

  /** The letters have their small forms, and no other character changes. */
  lemma CaseOfLetters(i: nat, c: char)
    requires i < 26 && (c < 'A' || c > 'Z')
    ensures LowerChar(('A' as int + i) as char) == ('a' as int + i) as char && LowerChar(c) == c
  {
  }

  /** White space is what separates words: the blank, and the control characters from tab to carriage return. */
  lemma WhiteSpace(c: char)
    ensures IsSpace(c) <==> c == ' ' || 9 <= c as int <= 13
  {
  }
}
