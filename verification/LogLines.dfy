/** What the readers of the service log take from a line, given by the parts of the line. */
module LogLines {
  import opened Basics
  import opened Text
  import opened LogReaders

  /** The marker first occurs behind `pre`. */
  predicate FirstAt(pre: string, marker: string, payload: string) {
    forall k :: 0 <= k < |pre| ==> !HasAt(pre + marker + payload, marker, k)
  }

  lemma FirstIsFound(pre: string, marker: string, payload: string)
    requires FirstAt(pre, marker, payload)
    ensures Index(pre + marker + payload, marker) == |pre|
    ensures (pre + marker + payload)[|pre| + |marker|..] == payload
  {
    var s := pre + marker + payload;
    assert HasAt(s, marker, |pre|);
    assert HasAt(s, marker, Index(s, marker));
  }

  lemma AbsentIsNotFound(s: string, marker: string)
    requires !Contains(s, marker)
    ensures Index(s, marker) == -1
  {
  }

  /** An opening event is read from the record behind its marker. */
  lemma OpenIsRead(decode: string -> Option<(string, string)>, pre: string, payload: string)
    requires FirstAt(pre, "TCP OPEN ", payload)
    ensures LineReader(decode).change(pre + "TCP OPEN " + payload) ==
              match decode(Trim(payload))
              case None => None
              case Some(e) => Some(Opened(e.0, e.1))
  {
    FirstIsFound(pre, "TCP OPEN ", payload);
  }

  /** So is a closing event, on a line without an opening one. */
  lemma CloseIsRead(decode: string -> Option<(string, string)>, pre: string, payload: string)
    requires FirstAt(pre, "TCP CLOSE ", payload) && !Contains(pre + "TCP CLOSE " + payload, "TCP OPEN ")
    ensures LineReader(decode).change(pre + "TCP CLOSE " + payload) ==
              match decode(Trim(payload))
              case None => None
              case Some(e) => Some(Closed(e.0))
  {
    AbsentIsNotFound(pre + "TCP CLOSE " + payload, "TCP OPEN ");
    FirstIsFound(pre, "TCP CLOSE ", payload);
  }

  /** Other lines say nothing of a connection. */
  lemma OtherLineIsNoEvent(decode: string -> Option<(string, string)>, line: string)
    requires !Contains(line, "TCP OPEN ") && !Contains(line, "TCP CLOSE ")
    ensures LineReader(decode).change(line) == None
  {
    AbsentIsNotFound(line, "TCP OPEN ");
    AbsentIsNotFound(line, "TCP CLOSE ");
  }

  lemma FirstFieldIs(gap: string, w: string, rest: string)
    requires AllSpace(gap) && IsField(w) && (rest == "" || IsSpace(rest[0]))
    ensures FirstField(gap + w + rest) == w
  {
    assert gap + w + rest == gap + (w + rest);
    TrimLeftSkips(gap, w + rest);
    WordOfJoin(w, rest);
    TrimRightKeepsWord(w, rest);
    var m: nat :| m <= |rest| && TrimRight(w + rest) == w + rest[..m];
    FieldsCons(w, rest[..m]);
  }

  lemma {:induction false} TrimRightKeepsWord(w: string, rest: string)
    requires IsField(w)
    ensures exists m: nat :: m <= |rest| && TrimRight(w + rest) == w + rest[..m]
    decreases |rest|
  {
    var n := |rest| - 1;
    if rest != "" && IsSpace(rest[n]) {
      assert (w + rest)[..|w + rest| - 1] == w + rest[..n];
      TrimRightKeepsWord(w, rest[..n]);
      var m: nat :| m <= n && TrimRight(w + rest[..n]) == w + rest[..n][..m];
      assert rest[..n][..m] == rest[..m];
    } else {
      assert rest[..|rest|] == rest;
    }
  }

  /** The assignment is the word behind `public=`, on a line of the SSH preset. */
  lemma AssignmentIsRead(decode: string -> Option<(string, string)>, pre: string, gap: string, w: string, rest: string)
    requires FirstAt(pre, "public=", gap + w + rest) && Contains(pre + "public=" + (gap + w + rest), "preset=SSH")
    requires AllSpace(gap) && IsField(w) && (rest == "" || IsSpace(rest[0]))
    ensures LineReader(decode).assignment(pre + "public=" + (gap + w + rest)) == w
  {
    FirstIsFound(pre, "public=", gap + w + rest);
    FirstFieldIs(gap, w, rest);
  }

  lemma OtherLineHasNoAssignment(decode: string -> Option<(string, string)>, line: string)
    requires !Contains(line, "preset=SSH") || !Contains(line, "public=")
    ensures LineReader(decode).assignment(line) == ""
  {
    if !Contains(line, "public=") {
      AbsentIsNotFound(line, "public=");
    }
  }

  /** The service starts where a line says so, in one language or the other. */
  lemma StartIsRead(decode: string -> Option<(string, string)>, line: string)
    ensures LineReader(decode).isStart(line)
            <==> Contains(line, "正在启动 1CatTunnel Windows 服务") || Contains(line, "starting 1CatTunnel Windows service")
  {
  }
}
