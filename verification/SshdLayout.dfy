/**
 The layout part of the sshd_config rewriter, over abstract line rules: which lines open or close the managed
 block, which are refused, which start a Match section and which are blank. It finds the lines outside managed
 blocks and lays them out around a fresh block.
 */
module SshdLayout {
  import opened Text

  datatype Error =
    | UnsafeExecutable
    | NestedBlock
    | UnmatchedEnd
    | ReviewListenAddress(line: string)
    | ReviewKeysCommand(field: string)
    | UnfinishedBlock

  datatype Result<+T> = Ok(value: T) | Err(error: Error)

  datatype Kind = Opens | Closes | Refused(error: Error) | Kept

  datatype Rules = Rules(kind: string -> Kind, isMatch: string -> bool, isBlank: string -> bool)

  // ----- scanning -----

  function Prepend(kept: seq<string>, r: Result<seq<string>>): Result<seq<string>> {
    if r.Ok? then Ok(kept + r.value) else r
  }

  /** Drops the managed blocks and checks the lines outside them; `inside` is the scanner's state. */
  function Clean(rules: Rules, lines: seq<string>, inside: bool): Result<seq<string>> {
    if |lines| == 0 then
      if inside then Err(UnfinishedBlock) else Ok([])
    else
      var rest := lines[1..];
      match rules.kind(lines[0])
      case Opens => if inside then Err(NestedBlock) else Clean(rules, rest, true)
      case Closes => if inside then Clean(rules, rest, false) else Err(UnmatchedEnd)
      case Refused(error) => if inside then Clean(rules, rest, true) else Err(error)
      case Kept => if inside then Clean(rules, rest, true) else Prepend([lines[0]], Clean(rules, rest, false))
  }

  /** The lines outside managed blocks, in order, with no check at all. */
  function Foreign(rules: Rules, lines: seq<string>, inside: bool): seq<string> {
    if |lines| == 0 then []
    else
      var rest := lines[1..];
      match rules.kind(lines[0])
      case Opens => Foreign(rules, rest, true)
      case Closes => Foreign(rules, rest, false)
      case _ => if inside then Foreign(rules, rest, true) else [lines[0]] + Foreign(rules, rest, false)
  }

  /** The marker lines alternate, starting with an opening one (a closing one if `inside`), and end outside. */
  predicate Balanced(rules: Rules, lines: seq<string>, inside: bool) {
    if |lines| == 0 then !inside
    else if rules.kind(lines[0]).Opens? then !inside && Balanced(rules, lines[1..], true)
    else if rules.kind(lines[0]).Closes? then inside && Balanced(rules, lines[1..], false)
    else Balanced(rules, lines[1..], inside)
  }

  predicate AllKept(rules: Rules, lines: seq<string>) {
    forall i :: 0 <= i < |lines| ==> rules.kind(lines[i]).Kept?
  }

  /** A text is accepted exactly when its markers pair up and nothing outside the blocks is refused. */
  lemma {:induction false} CleanAccepts(rules: Rules, lines: seq<string>, inside: bool)
    ensures Clean(rules, lines, inside).Ok?
       <==> Balanced(rules, lines, inside) && AllKept(rules, Foreign(rules, lines, inside))
    ensures Clean(rules, lines, inside).Ok?
        ==> Clean(rules, lines, inside).value == Foreign(rules, lines, inside)
  {
    if |lines| > 0 {
      var rest := lines[1..];
      match rules.kind(lines[0])
      case Opens => CleanAccepts(rules, rest, true);
      case Closes => CleanAccepts(rules, rest, false);
      case Refused(_) =>
        CleanAccepts(rules, rest, inside);
        if !inside {
          assert Foreign(rules, lines, inside)[0] == lines[0];
        }
      case Kept =>
        CleanAccepts(rules, rest, inside);
        if !inside {
          var f := Foreign(rules, rest, false);
          assert forall i :: 0 <= i < |f| ==> f[i] == ([lines[0]] + f)[i + 1];
        }
    }
  }

  lemma {:induction false} CleanKept(rules: Rules, kept: seq<string>, rest: seq<string>)
    requires AllKept(rules, kept)
    ensures Clean(rules, kept + rest, false) == Prepend(kept, Clean(rules, rest, false))
  {
    if |kept| == 0 {
      assert kept + rest == rest;
      assert forall v: seq<string> :: [] + v == v;
    } else {
      assert (kept + rest)[1..] == kept[1..] + rest;
      CleanKept(rules, kept[1..], rest);
      var r := Clean(rules, rest, false);
      if r.Ok? {
        assert [kept[0]] + (kept[1..] + r.value) == kept + r.value;
      }
    }
  }

  lemma {:induction false} CleanSkips(rules: Rules, body: seq<string>, rest: seq<string>)
    requires forall i :: 0 <= i < |body| ==> !rules.kind(body[i]).Opens? && !rules.kind(body[i]).Closes?
    ensures Clean(rules, body + rest, true) == Clean(rules, rest, true)
  {
    if |body| == 0 {
      assert body + rest == rest;
    } else {
      assert (body + rest)[1..] == body[1..] + rest;
      CleanSkips(rules, body[1..], rest);
    }
  }

  // ----- layout -----

  function FirstMatch(rules: Rules, lines: seq<string>): (r: nat)
    ensures r <= |lines|
    ensures forall i :: 0 <= i < r ==> !rules.isMatch(lines[i])
    ensures r < |lines| ==> rules.isMatch(lines[r])
  {
    if |lines| == 0 || rules.isMatch(lines[0]) then 0 else 1 + FirstMatch(rules, lines[1..])
  }

  function DropTrailingBlank(rules: Rules, lines: seq<string>): (r: seq<string>)
    ensures |r| <= |lines| && r == lines[..|r|]
    ensures |r| > 0 ==> !rules.isBlank(r[|r| - 1])
    ensures forall i :: |r| <= i < |lines| ==> rules.isBlank(lines[i])
  {
    if |lines| > 0 && rules.isBlank(lines[|lines| - 1]) then DropTrailingBlank(rules, lines[..|lines| - 1]) else lines
  }

  function DropLeadingBlank(rules: Rules, lines: seq<string>): (r: seq<string>)
    ensures |r| <= |lines| && r == lines[|lines| - |r|..]
    ensures |r| > 0 ==> !rules.isBlank(r[0])
    ensures forall i :: 0 <= i < |lines| - |r| ==> rules.isBlank(lines[i])
  {
    if |lines| > 0 && rules.isBlank(lines[0]) then DropLeadingBlank(rules, lines[1..]) else lines
  }

  function Head(rules: Rules, cleaned: seq<string>): seq<string> {
    DropTrailingBlank(rules, cleaned[..FirstMatch(rules, cleaned)])
  }

  function Tail(rules: Rules, cleaned: seq<string>): seq<string> {
    DropLeadingBlank(rules, cleaned[FirstMatch(rules, cleaned)..])
  }

  function Separator(rules: Rules, head: seq<string>): seq<string> {
    if |head| > 0 && !rules.isBlank(head[|head| - 1]) then [""] else []
  }

  function OutputLines(rules: Rules, cleaned: seq<string>, block: seq<string>): seq<string> {
    var head := Head(rules, cleaned);
    head + Separator(rules, head) + block + Tail(rules, cleaned)
  }

  // ----- the end of the text -----

  function StripCR(s: string): (r: string)
    ensures |r| <= |s| && r == s[..|r|]
    ensures r == "" || r[|r| - 1] != '\r'
    ensures forall i :: |r| <= i < |s| ==> s[i] == '\r'
  {
    if s != "" && s[|s| - 1] == '\r' then StripCR(s[..|s| - 1]) else s
  }

  lemma StripCRStable(s: string)
    ensures StripCR(StripCR(s)) == StripCR(s)
  {
  }

  /** The lines without trailing lines of carriage returns, and without carriage returns at the very end. */
  function Core(lines: seq<string>): (r: seq<string>)
    requires |lines| > 0
    ensures 0 < |r| <= |lines|
  {
    var n := |lines| - 1;
    var last := StripCR(lines[n]);
    if last == "" && n > 0 then Core(lines[..n]) else lines[..n] + [last]
  }

  /** A first line with some content stops the trimming, so whatever stands before it is untouched. */
  lemma {:induction false} CoreAppend(front: seq<string>, tail: seq<string>)
    requires |tail| > 0 && StripCR(tail[0]) != ""
    ensures Core(front + tail) == front + Core(tail)
  {
    var all := front + tail;
    var n := |tail| - 1;
    assert all[|all| - 1] == tail[n];
    assert all[..|all| - 1] == front + tail[..n];
    if n > 0 && StripCR(tail[n]) == "" {
      CoreAppend(front, tail[..n]);
    }
  }

  /** The core is the first lines, the last of them stripped; behind it there are only carriage returns. */
  lemma {:induction false} CoreShape(lines: seq<string>)
    requires |lines| > 0
    ensures var n := |Core(lines)| - 1; Core(lines) == lines[..n] + [StripCR(lines[n])]
    ensures forall i :: |Core(lines)| <= i < |lines| ==> StripCR(lines[i]) == ""
  {
    var n := |lines| - 1;
    if n > 0 && StripCR(lines[n]) == "" {
      var front := lines[..n];
      CoreShape(front);
      var m := |Core(front)| - 1;
      assert front[..m] == lines[..m] && front[m] == lines[m];
    }
  }

  lemma CoreKeepsFirst(tail: seq<string>)
    requires |tail| > 0 && StripCR(tail[0]) != ""
    ensures var c := Core(tail); StripCR(c[0]) == StripCR(tail[0]) && (|c| > 1 ==> c[0] == tail[0])
    ensures forall i :: 0 <= i < |Core(tail)| ==> Core(tail)[i] == tail[i] || Core(tail)[i] == StripCR(tail[i])
    ensures forall i :: 0 <= i < |Core(tail)| - 1 ==> Core(tail)[i] == tail[i]
    ensures forall i :: |Core(tail)| <= i < |tail| ==> StripCR(tail[i]) == ""
  {
    var n := |Core(tail)| - 1;
    CoreShape(tail);
    StripCRStable(tail[n]);
    assert Core(tail)[n] == StripCR(tail[n]);
    assert n > 0 ==> Core(tail)[0] == tail[0];
  }

  lemma {:induction false} CoreStable(tail: seq<string>)
    requires |tail| > 0 && StripCR(tail[0]) != ""
    ensures Core(Core(tail)) == Core(tail)
    ensures Core(Core(tail) + [""]) == Core(tail)
  {
    var n := |tail| - 1;
    if n > 0 && StripCR(tail[n]) == "" {
      CoreStable(tail[..n]);
    } else {
      var c := tail[..n] + [StripCR(tail[n])];
      StripCRStable(tail[n]);
      assert c[|c| - 1] == StripCR(tail[n]) && c[..n] == tail[..n];
      assert Core(c) == c;
      assert (c + [""])[..|c|] == c;
    }
  }

  // ----- rebuilding the layout -----

  /** What the fresh block and the rules must agree on. */
  ghost predicate Coherent(rules: Rules, block: seq<string>) {
    var n := |block|;
    && n >= 3 && block[n - 1] == ""
    && rules.kind(block[0]).Opens? && rules.kind(block[n - 2]).Closes?
    && (forall i :: 1 <= i < n - 2 ==> !rules.kind(block[i]).Opens? && !rules.kind(block[i]).Closes?)
    && StripCR(block[n - 2]) == block[n - 2] != ""
    && rules.kind("").Kept? && rules.isBlank("") && !rules.isMatch("")
    && (forall l :: rules.isMatch(l) ==> !rules.isBlank(l))
    && (forall l {:trigger StripCR(l)} ::
          && rules.kind(StripCR(l)) == rules.kind(l)
          && rules.isMatch(StripCR(l)) == rules.isMatch(l)
          && rules.isBlank(StripCR(l)) == rules.isBlank(l))
  }

  lemma MatchHasContent(rules: Rules, block: seq<string>, l: string)
    requires Coherent(rules, block) && rules.isMatch(l)
    ensures StripCR(l) != ""
  {
    assert rules.isMatch(StripCR(l)) == rules.isMatch(l);
  }

  /** The block itself is dropped by the scanner, up to the blank line that ends it. */
  lemma CleanBlock(rules: Rules, block: seq<string>, rest: seq<string>)
    requires Coherent(rules, block)
    ensures Clean(rules, block + rest, false) == Prepend([""], Clean(rules, rest, false))
  {
    var n := |block|;
    var body := block[1..n - 2];
    var after := [block[n - 2], ""] + rest;
    assert block + rest == [block[0]] + (body + after);
    assert (block + rest)[1..] == body + after;
    CleanSkips(rules, body, after);
    assert after[1..] == [""] + rest;
    assert ([""] + rest)[1..] == rest;
  }

  lemma {:induction false} FirstMatchSkips(rules: Rules, front: seq<string>, tail: seq<string>)
    requires forall i :: 0 <= i < |front| ==> !rules.isMatch(front[i])
    requires |tail| > 0 ==> rules.isMatch(tail[0])
    ensures FirstMatch(rules, front + tail) == |front|
  {
    if |front| > 0 {
      assert (front + tail)[1..] == front[1..] + tail;
      FirstMatchSkips(rules, front[1..], tail);
    }
  }

  lemma {:induction false} DropTrailingSkips(rules: Rules, head: seq<string>, blanks: seq<string>)
    requires |head| > 0 ==> !rules.isBlank(head[|head| - 1])
    requires forall i :: 0 <= i < |blanks| ==> rules.isBlank(blanks[i])
    ensures DropTrailingBlank(rules, head + blanks) == head
  {
    var all := head + blanks;
    if |blanks| == 0 {
      assert all == head;
    } else {
      assert all[..|all| - 1] == head + blanks[..|blanks| - 1];
      DropTrailingSkips(rules, head, blanks[..|blanks| - 1]);
    }
  }

  /** Laying out `head`, blank lines and `tail` again gives `head`, the block and `tail`. */
  lemma Relayout(rules: Rules, head: seq<string>, blanks: seq<string>, tail: seq<string>, block: seq<string>)
    requires Coherent(rules, block)
    requires forall i :: 0 <= i < |head| ==> !rules.isMatch(head[i])
    requires |head| > 0 ==> !rules.isBlank(head[|head| - 1])
    requires forall i :: 0 <= i < |blanks| ==> blanks[i] == ""
    requires |tail| > 0 ==> rules.isMatch(tail[0])
    ensures OutputLines(rules, head + blanks + tail, block)
         == head + Separator(rules, head) + block + tail
  {
    var front := head + blanks;
    FirstMatchSkips(rules, front, tail);
    var all := front + tail;
    assert all[..|front|] == front && all[|front|..] == tail;
    DropTrailingSkips(rules, head, blanks);
    assert DropLeadingBlank(rules, tail) == tail;
  }

  /** A suffix that starts at a Match line is never shortened at its front. */
  lemma TailStartsAtMatch(rules: Rules, cleaned: seq<string>, block: seq<string>)
    requires Coherent(rules, block)
    ensures Tail(rules, cleaned) == cleaned[FirstMatch(rules, cleaned)..]
  {
  }

  /** What a reread text holds behind its head. */
  function RereadTail(tail: seq<string>): seq<string> {
    if |tail| == 0 then [] else Core(tail) + [""]
  }

  /** What the scanner makes of a text laid out as `head`, the block and `tail`. */
  function RereadOf(rules: Rules, head: seq<string>, tail: seq<string>): seq<string> {
    head + Separator(rules, head) + [""] + RereadTail(tail)
  }

  function Reread(rules: Rules, cleaned: seq<string>): seq<string> {
    RereadOf(rules, Head(rules, cleaned), Tail(rules, cleaned))
  }

  lemma CoreOfOutput(rules: Rules, head: seq<string>, tail: seq<string>, block: seq<string>)
    requires Coherent(rules, block)
    requires |tail| > 0 ==> rules.isMatch(tail[0])
    ensures Core(head + block + tail)
         == if |tail| == 0 then head + block[..|block| - 1] else head + block + Core(tail)
  {
    if |tail| == 0 {
      var all := head + block + tail;
      var m := |all| - 1;
      assert all[m] == "" && all[..m] == head + block[..|block| - 1];
      var short := all[..m];
      assert short[|short| - 1] == block[|block| - 2];
      assert short[..|short| - 1] + [block[|block| - 2]] == short;
    } else {
      MatchHasContent(rules, block, tail[0]);
      CoreAppend(head + block, tail);
    }
  }

  lemma CleanAround(rules: Rules, front: seq<string>, block: seq<string>, last: seq<string>)
    requires Coherent(rules, block) && AllKept(rules, front) && AllKept(rules, last)
    ensures Clean(rules, front + block + last, false) == Ok(front + [""] + last)
  {
    assert last + [] == last && front + block + last == front + (block + last);
    assert Clean(rules, [], false) == Ok([]);
    CleanKept(rules, last, []);
    CleanBlock(rules, block, last);
    CleanKept(rules, front, block + last);
    assert front + ([""] + last) == front + [""] + last;
  }

  lemma CoreIsKept(rules: Rules, tail: seq<string>, block: seq<string>)
    requires Coherent(rules, block) && AllKept(rules, tail)
    requires |tail| > 0 && rules.isMatch(tail[0])
    ensures AllKept(rules, Core(tail) + [""])
    ensures rules.isMatch(Core(tail)[0])
  {
    MatchHasContent(rules, block, tail[0]);
    CoreKeepsFirst(tail);
    assert rules.isMatch(StripCR(tail[0])) == rules.isMatch(tail[0]);
    forall i | 0 <= i < |Core(tail)| ensures rules.kind(Core(tail)[i]).Kept? {
      assert rules.kind(StripCR(tail[i])) == rules.kind(tail[i]);
    }
  }

  lemma HeadIsKept(rules: Rules, cleaned: seq<string>, block: seq<string>)
    requires Coherent(rules, block) && AllKept(rules, cleaned)
    ensures AllKept(rules, Head(rules, cleaned) + Separator(rules, Head(rules, cleaned)))
    ensures AllKept(rules, Tail(rules, cleaned))
  {
  }

  lemma CleanOfOutput(rules: Rules, front: seq<string>, tail: seq<string>, block: seq<string>)
    requires Coherent(rules, block) && AllKept(rules, front) && AllKept(rules, tail)
    requires |tail| > 0 ==> rules.isMatch(tail[0])
    ensures Clean(rules, Core(front + block + tail) + [""], false)
         == Ok(front + [""] + if |tail| == 0 then [] else Core(tail) + [""])
  {
    CoreOfOutput(rules, front, tail, block);
    if |tail| == 0 {
      CleanAround(rules, front, block, []);
      LastOfBlock(front, block);
    } else {
      CoreIsKept(rules, tail, block);
      CleanAround(rules, front, block, Core(tail) + [""]);
      Regrouped(front + block, Core(tail), [""]);
    }
  }

  lemma RereadIsClean(rules: Rules, cleaned: seq<string>, block: seq<string>)
    requires Coherent(rules, block) && AllKept(rules, cleaned)
    ensures Clean(rules, Core(OutputLines(rules, cleaned, block)) + [""], false) == Ok(Reread(rules, cleaned))
  {
    var head, tail := Head(rules, cleaned), Tail(rules, cleaned);
    TailStartsAtMatch(rules, cleaned, block);
    HeadIsKept(rules, cleaned, block);
    var sep := Separator(rules, head);
    CleanOfOutput(rules, head + sep, tail, block);
  }

  lemma CoreOfRelayout(rules: Rules, front: seq<string>, tail: seq<string>, block: seq<string>)
    requires Coherent(rules, block) && AllKept(rules, tail)
    requires |tail| > 0 && rules.isMatch(tail[0])
    ensures Core(front + block + (Core(tail) + [""])) == Core(front + block + tail)
  {
    CoreIsKept(rules, tail, block);
    CoreOfOutput(rules, front, tail, block);
    CoreOfOutput(rules, front, Core(tail) + [""], block);
    MatchHasContent(rules, block, tail[0]);
    CoreStable(tail);
  }

  lemma RelayoutBlank(rules: Rules, head: seq<string>, tail: seq<string>, block: seq<string>)
    requires Coherent(rules, block)
    requires forall i :: 0 <= i < |head| ==> !rules.isMatch(head[i])
    requires |head| > 0 ==> !rules.isBlank(head[|head| - 1])
    requires |tail| > 0 ==> rules.isMatch(tail[0])
    ensures OutputLines(rules, head + Separator(rules, head) + [""] + tail, block)
            == head + Separator(rules, head) + block + tail
  {
    var sep := Separator(rules, head);
    Regrouped(head, sep, [""]);
    Relayout(rules, head, sep + [""], tail, block);
  }

  lemma CoreOfRereadTail(rules: Rules, front: seq<string>, tail: seq<string>, block: seq<string>)
    requires Coherent(rules, block) && AllKept(rules, tail)
    requires |tail| > 0 ==> rules.isMatch(tail[0])
    ensures |RereadTail(tail)| > 0 ==> rules.isMatch(RereadTail(tail)[0])
    ensures Core(front + block + RereadTail(tail)) == Core(front + block + tail)
  {
    if |tail| == 0 {
      assert tail == [];
    } else {
      CoreIsKept(rules, tail, block);
      CoreOfRelayout(rules, front, tail, block);
    }
  }

  lemma RelayoutOf(rules: Rules, head: seq<string>, tail: seq<string>, block: seq<string>)
    requires Coherent(rules, block) && AllKept(rules, tail)
    requires forall i :: 0 <= i < |head| ==> !rules.isMatch(head[i])
    requires |head| > 0 ==> !rules.isBlank(head[|head| - 1])
    requires |tail| > 0 ==> rules.isMatch(tail[0])
    ensures Core(OutputLines(rules, RereadOf(rules, head, tail), block))
         == Core(head + Separator(rules, head) + block + tail)
  {
    CoreOfRereadTail(rules, head + Separator(rules, head), tail, block);
    RelayoutBlank(rules, head, RereadTail(tail), block);
  }

  lemma HeadHasNoMatch(rules: Rules, cleaned: seq<string>)
    ensures var head := Head(rules, cleaned);
            && (forall i :: 0 <= i < |head| ==> !rules.isMatch(head[i]))
            && (|head| > 0 ==> !rules.isBlank(head[|head| - 1]))
  {
    var front := cleaned[..FirstMatch(rules, cleaned)];
    var head := DropTrailingBlank(rules, front);
    forall i | 0 <= i < |head| ensures !rules.isMatch(head[i]) {
      assert head[i] == front[i] == cleaned[i];
    }
  }

  lemma TailIsMatched(rules: Rules, cleaned: seq<string>, block: seq<string>)
    requires Coherent(rules, block)
    ensures |Tail(rules, cleaned)| > 0 ==> rules.isMatch(Tail(rules, cleaned)[0])
  {
    TailStartsAtMatch(rules, cleaned, block);
    var k := FirstMatch(rules, cleaned);
    assert k < |cleaned| ==> cleaned[k..][0] == cleaned[k];
  }

  /** Laying out the reread lines gives the same text lines again. */
  lemma RelayoutIsStable(rules: Rules, cleaned: seq<string>, block: seq<string>)
    requires Coherent(rules, block) && AllKept(rules, cleaned)
    ensures Core(OutputLines(rules, Reread(rules, cleaned), block)) == Core(OutputLines(rules, cleaned, block))
  {
    HeadHasNoMatch(rules, cleaned);
    TailIsMatched(rules, cleaned, block);
    HeadIsKept(rules, cleaned, block);
    RelayoutOf(rules, Head(rules, cleaned), Tail(rules, cleaned), block);
  }

  // ----- what rereading keeps -----

  predicate AllOf(p: string -> bool, lines: seq<string>) {
    forall i :: 0 <= i < |lines| ==> p(lines[i])
  }

  lemma AllOfConcat(p: string -> bool, a: seq<string>, b: seq<string>)
    requires AllOf(p, a) && AllOf(p, b)
    ensures AllOf(p, a + b)
  {
  }

  lemma CoreKeeps(rules: Rules, tail: seq<string>, p: string -> bool)
    requires |tail| > 0 && StripCR(tail[0]) != ""
    requires AllOf(p, tail) && AllOf(x => p(StripCR(x)), tail)
    ensures AllOf(p, Core(tail))
  {
    CoreKeepsFirst(tail);
  }

  /** Every line read back is blank, or a line laid out, possibly without its final carriage returns. */
  lemma RereadKeeps(rules: Rules, cleaned: seq<string>, block: seq<string>, p: string -> bool)
    requires Coherent(rules, block) && p("")
    requires AllOf(p, cleaned) && AllOf(x => p(StripCR(x)), cleaned)
    ensures AllOf(p, Reread(rules, cleaned))
  {
    TailStartsAtMatch(rules, cleaned, block);
    HeadKeeps(rules, cleaned, p);
    TailKeeps(rules, cleaned, block, p);
    RereadOfKeeps(rules, Head(rules, cleaned), Tail(rules, cleaned), block, p);
  }

  lemma HeadKeeps(rules: Rules, cleaned: seq<string>, p: string -> bool)
    requires AllOf(p, cleaned)
    ensures AllOf(p, Head(rules, cleaned))
  {
    var h, m := Head(rules, cleaned), FirstMatch(rules, cleaned);
    assert h == cleaned[..m][..|h|];
  }

  lemma TailKeeps(rules: Rules, cleaned: seq<string>, block: seq<string>, p: string -> bool)
    requires Coherent(rules, block)
    requires AllOf(p, cleaned) && AllOf(x => p(StripCR(x)), cleaned)
    ensures AllOf(p, Tail(rules, cleaned)) && AllOf(x => p(StripCR(x)), Tail(rules, cleaned))
  {
    TailStartsAtMatch(rules, cleaned, block);
  }

  lemma RereadOfKeeps(rules: Rules, head: seq<string>, tail: seq<string>, block: seq<string>, p: string -> bool)
    requires Coherent(rules, block) && p("") && AllOf(p, head)
    requires |tail| > 0 ==> rules.isMatch(tail[0])
    requires AllOf(p, tail) && AllOf(x => p(StripCR(x)), tail)
    ensures AllOf(p, RereadOf(rules, head, tail))
  {
    var sep := Separator(rules, head);
    AllOfConcat(p, head, sep);
    AllOfConcat(p, head + sep, [""]);
    if |tail| > 0 {
      MatchHasContent(rules, block, tail[0]);
      CoreKeeps(rules, tail, p);
      AllOfConcat(p, Core(tail), [""]);
      AllOfConcat(p, head + sep + [""], Core(tail) + [""]);
    }
  }

  function NonBlank(rules: Rules, lines: seq<string>): seq<string> {
    if |lines| == 0 then []
    else
      var n := |lines| - 1;
      NonBlank(rules, lines[..n]) + if rules.isBlank(lines[n]) then [] else [lines[n]]
  }

  lemma {:induction false} NonBlankConcat(rules: Rules, a: seq<string>, b: seq<string>)
    ensures NonBlank(rules, a + b) == NonBlank(rules, a) + NonBlank(rules, b)
  {
    if |b| == 0 {
      assert a + b == a;
    } else {
      var n := |b| - 1;
      assert (a + b)[..|a| + n] == a + b[..n];
      NonBlankConcat(rules, a, b[..n]);
    }
  }

  lemma {:induction false} NonBlankOfBlanks(rules: Rules, lines: seq<string>)
    requires forall i :: 0 <= i < |lines| ==> rules.isBlank(lines[i])
    ensures NonBlank(rules, lines) == []
  {
    if |lines| > 0 {
      NonBlankOfBlanks(rules, lines[..|lines| - 1]);
    }
  }

  /** Equal line by line, except that carriage returns at the end of the last line do not count. */
  predicate SameUpToFinalCR(a: seq<string>, b: seq<string>) {
    && |a| == |b|
    && (forall i :: 0 <= i < |a| - 1 ==> a[i] == b[i])
    && (|a| > 0 ==> StripCR(a[|a| - 1]) == StripCR(b[|b| - 1]))
  }

  lemma {:induction false} NonBlankOfCore(rules: Rules, tail: seq<string>, block: seq<string>)
    requires Coherent(rules, block) && |tail| > 0
    ensures SameUpToFinalCR(NonBlank(rules, Core(tail)), NonBlank(rules, tail))
  {
    var n := |tail| - 1;
    var last := StripCR(tail[n]);
    assert rules.isBlank(last) == rules.isBlank(tail[n]);
    if last == "" && n > 0 {
      NonBlankOfCore(rules, tail[..n], block);
    } else {
      StripCRStable(tail[n]);
      assert Core(tail)[..n] == tail[..n] && Core(tail)[n] == last;
    }
  }

  lemma NonBlankOfFront(rules: Rules, lines: seq<string>)
    ensures NonBlank(rules, DropTrailingBlank(rules, lines)) == NonBlank(rules, lines)
  {
    var head := DropTrailingBlank(rules, lines);
    var gap := lines[|head|..];
    NonBlankOfBlanks(rules, gap);
    NonBlankConcat(rules, head, gap);
    assert lines == head + gap;
  }

  lemma NonBlankOfCleaned(rules: Rules, cleaned: seq<string>, block: seq<string>)
    requires Coherent(rules, block)
    ensures NonBlank(rules, cleaned) == NonBlank(rules, Head(rules, cleaned)) + NonBlank(rules, Tail(rules, cleaned))
  {
    var m := FirstMatch(rules, cleaned);
    TailStartsAtMatch(rules, cleaned, block);
    assert cleaned == cleaned[..m] + cleaned[m..];
    NonBlankConcat(rules, cleaned[..m], cleaned[m..]);
    NonBlankOfFront(rules, cleaned[..m]);
  }

  lemma NonBlankOfReread(rules: Rules, head: seq<string>, tail: seq<string>, block: seq<string>)
    requires Coherent(rules, block)
    ensures NonBlank(rules, RereadOf(rules, head, tail))
         == NonBlank(rules, head) + if |tail| == 0 then [] else NonBlank(rules, Core(tail))
  {
    var sep := Separator(rules, head);
    NonBlankOfBlanks(rules, sep);
    NonBlankOfBlanks(rules, [""]);
    NonBlankConcat(rules, head, sep);
    NonBlankConcat(rules, head + sep, [""]);
    if |tail| == 0 {
      assert RereadOf(rules, head, tail) == head + sep + [""];
    } else {
      NonBlankConcat(rules, Core(tail), [""]);
      NonBlankConcat(rules, head + sep + [""], Core(tail) + [""]);
    }
  }

  lemma SameAfter(front: seq<string>, a: seq<string>, b: seq<string>)
    requires SameUpToFinalCR(a, b)
    ensures SameUpToFinalCR(front + a, front + b)
  {
  }

  /** The non-blank lines outside the block survive a rebuild, in order. */
  lemma RereadNonBlank(rules: Rules, cleaned: seq<string>, block: seq<string>)
    requires Coherent(rules, block)
    ensures SameUpToFinalCR(NonBlank(rules, Reread(rules, cleaned)), NonBlank(rules, cleaned))
  {
    var head, tail := Head(rules, cleaned), Tail(rules, cleaned);
    NonBlankOfCleaned(rules, cleaned, block);
    NonBlankOfReread(rules, head, tail, block);
    if |tail| == 0 {
      assert tail == [] && NonBlank(rules, tail) == [];
      SameAfter(NonBlank(rules, head), [], []);
    } else {
      NonBlankOfCore(rules, tail, block);
      SameAfter(NonBlank(rules, head), NonBlank(rules, Core(tail)), NonBlank(rules, tail));
    }
  }

  /** What stands before line `at` ends in one empty line behind a line that is not blank. */
  predicate Spaced(rules: Rules, lines: seq<string>, at: nat) {
    at <= |lines| && (at > 0 ==> at >= 2 && lines[at - 1] == "" && !rules.isBlank(lines[at - 2]))
  }

  /** The block stands at `at`, every other line is neither marker nor refused, and no Match line precedes it. */
  predicate LaidOut(rules: Rules, lines: seq<string>, block: seq<string>, at: nat) {
    && at + |block| <= |lines|
    && lines[at..at + |block|] == block
    && AllKept(rules, lines[..at]) && AllKept(rules, lines[at + |block|..])
    && (forall i :: 0 <= i < at ==> !rules.isMatch(lines[i]))
    && Spaced(rules, lines, at)
  }

  lemma LaidOutAround(rules: Rules, front: seq<string>, block: seq<string>, last: seq<string>)
    requires AllKept(rules, front) && AllKept(rules, last)
    requires forall i :: 0 <= i < |front| ==> !rules.isMatch(front[i])
    requires Spaced(rules, front, |front|)
    ensures LaidOut(rules, front + block + last, block, |front|)
  {
    var lines := front + block + last;
    assert lines[..|front|] == front && lines[|front| + |block|..] == last;
    assert lines[|front|..|front| + |block|] == block;
    assert forall i :: 0 <= i < |front| ==> lines[i] == front[i];
  }

  lemma LaidOutFor(rules: Rules, front: seq<string>, tail: seq<string>, block: seq<string>)
    requires Coherent(rules, block) && AllKept(rules, front) && AllKept(rules, tail)
    requires forall i :: 0 <= i < |front| ==> !rules.isMatch(front[i])
    requires Spaced(rules, front, |front|)
    requires |tail| > 0 ==> rules.isMatch(tail[0])
    ensures LaidOut(rules, Core(front + block + tail) + [""], block, |front|)
  {
    CoreOfOutput(rules, front, tail, block);
    if |tail| > 0 {
      CoreIsKept(rules, tail, block);
      LaidOutAround(rules, front, block, Core(tail) + [""]);
      Regrouped(front + block, Core(tail), [""]);
    } else {
      LaidOutAround(rules, front, block, []);
      LastOfBlock(front, block);
    }
  }

  lemma Regrouped(a: seq<string>, b: seq<string>, c: seq<string>)
    ensures a + b + c == a + (b + c)
  {
  }

  lemma LastOfBlock(front: seq<string>, block: seq<string>)
    requires |block| > 0 && block[|block| - 1] == ""
    ensures front + block[..|block| - 1] + [""] == front + block + []
  {
    assert block[..|block| - 1] + [""] == block;
    Regrouped(front, block[..|block| - 1], [""]);
  }

  /** What stands before the block. */
  function Front(rules: Rules, cleaned: seq<string>): seq<string> {
    Head(rules, cleaned) + Separator(rules, Head(rules, cleaned))
  }

  lemma FrontIsSpaced(rules: Rules, cleaned: seq<string>, block: seq<string>)
    requires Coherent(rules, block)
    ensures Spaced(rules, Front(rules, cleaned), |Front(rules, cleaned)|)
    ensures forall i :: 0 <= i < |Front(rules, cleaned)| ==> !rules.isMatch(Front(rules, cleaned)[i])
  {
    HeadHasNoMatch(rules, cleaned);
    var head := Head(rules, cleaned);
    if |head| > 0 {
      assert Front(rules, cleaned) == head + [""];
      assert (head + [""])[|head|] == "" && (head + [""])[|head| - 1] == head[|head| - 1];
    }
  }

  lemma OutputIsLaidOut(rules: Rules, cleaned: seq<string>, block: seq<string>)
    requires Coherent(rules, block) && AllKept(rules, cleaned)
    ensures exists at: nat :: LaidOut(rules, Core(OutputLines(rules, cleaned, block)) + [""], block, at)
  {
    var front := Front(rules, cleaned);
    FrontIsSpaced(rules, cleaned, block);
    TailIsMatched(rules, cleaned, block);
    HeadIsKept(rules, cleaned, block);
    LaidOutFor(rules, front, Tail(rules, cleaned), block);
    assert LaidOut(rules, Core(OutputLines(rules, cleaned, block)) + [""], block, |front|);
  }
}
