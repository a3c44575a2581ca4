/**
 The rotating log of the service. File 0 is the log being written, files 1 to `backups` are older ones, the highest
 number the oldest. Every file operation may fail; a rename is done or not done.
 */
module RotatingLog {
  type Files = map<nat, string>

  function Content(files: Files, k: nat): string {
    if k in files then files[k] else ""
  }

  /** The retained log: the files from number `k` down to the current one. */
  function Retained(files: Files, k: nat): string {
    Content(files, k) + if k == 0 then "" else Retained(files, k - 1)
  }

  predicate IsSuffix(s: string, of: string) {
    |s| <= |of| && of[|of| - |s|..] == s
  }

  lemma SuffixOfTail(s: string, dropped: string)
    ensures IsSuffix(s, dropped + s)
  {
  }

  lemma SuffixTransitive(a: string, b: string, c: string)
    requires IsSuffix(a, b) && IsSuffix(b, c)
    ensures IsSuffix(a, c)
  {
    assert c[|c| - |a|..] == c[|c| - |b|..][|b| - |a|..];
  }

  lemma SuffixAppend(a: string, b: string, more: string)
    requires IsSuffix(a, b)
    ensures IsSuffix(a + more, b + more)
  {
    assert (b + more)[|b| - |a|..] == b[|b| - |a|..] + more;
  }

  lemma {:induction false} RetainedFrame(f: Files, g: Files, k: nat)
    requires forall i :: 0 <= i <= k ==> Content(f, i) == Content(g, i)
    ensures Retained(f, k) == Retained(g, k)
  {
    if k > 0 {
      RetainedFrame(f, g, k - 1);
    }
  }

  function Renamed(files: Files, i: nat): Files
    requires i in files
  {
    files[i + 1 := files[i]] - {i}
  }

  lemma RenamedContent(files: Files, i: nat, k: nat)
    requires i in files && i + 1 !in files
    ensures Content(Renamed(files, i), k) ==
            if k == i then "" else if k == i + 1 then Content(files, i) else Content(files, k)
  {
  }

  /** The files below number `k`. */
  function Newer(files: Files, k: nat): string {
    if k == 0 then "" else Retained(files, k - 1)
  }

  lemma RetainedSplit(files: Files, k: nat)
    ensures Retained(files, k) == Content(files, k) + Newer(files, k)
    ensures Content(files, k) == "" ==> Retained(files, k) == Newer(files, k)
  {
  }

  lemma NewerFrame(f: Files, g: Files, k: nat)
    requires forall i :: 0 <= i < k ==> Content(f, i) == Content(g, i)
    ensures Newer(f, k) == Newer(g, k)
  {
    if k > 0 {
      RetainedFrame(f, g, k - 1);
    }
  }

  lemma RenamedAtTop(files: Files, i: nat)
    requires i in files && i + 1 !in files
    ensures Retained(Renamed(files, i), i + 1) == Retained(files, i + 1)
  {
    var g := Renamed(files, i);
    forall k | 0 <= k < i ensures Content(g, k) == Content(files, k) {
      RenamedContent(files, i, k);
    }
    NewerFrame(files, g, i);
    RenamedContent(files, i, i);
    RenamedContent(files, i, i + 1);
    RetainedSplit(files, i + 1);
    RetainedSplit(files, i);
    RetainedSplit(g, i + 1);
    RetainedSplit(g, i);
  }

  /** Moving a file to the next, unused number changes nothing of the retained log. */
  lemma {:induction false} RenameKeepsRetained(files: Files, i: nat, k: nat)
    requires i < k && i in files && i + 1 !in files
    ensures Retained(Renamed(files, i), k) == Retained(files, k)
  {
    if i + 1 < k {
      RenameKeepsRetained(files, i, k - 1);
      RenamedContent(files, i, k);
    } else {
      RenamedAtTop(files, i);
    }
  }

  function Opened(files: Files): Files {
    files[0 := Content(files, 0)]
  }

  lemma OpenedRetained(files: Files, k: nat)
    ensures Retained(Opened(files), k) == Retained(files, k)
    ensures k > 0 ==> Retained(Opened(files) - {k}, k) == Retained(files - {k}, k)
  {
    RetainedFrame(files, Opened(files), k);
    if k > 0 {
      RetainedFrame(files - {k}, Opened(files) - {k}, k);
    }
  }

  lemma RemoveOldestRetained(files: Files, k: nat)
    ensures Retained(files, k) == Content(files, k) + Retained(files - {k}, k)
  {
    NewerFrame(files, files - {k}, k);
    RetainedSplit(files, k);
    RetainedSplit(files - {k}, k);
  }

  lemma {:induction false} AppendRetained(files: Files, more: string, k: nat)
    ensures Retained(files[0 := Content(files, 0) + more], k) == Retained(files, k) + more
  {
    if k > 0 {
      AppendRetained(files, more, k - 1);
    }
  }

  predicate Bounded(files: Files, b: nat) {
    forall k :: k in files ==> |files[k]| <= b
  }

  predicate Numbered(files: Files, backups: nat) {
    forall k :: k in files ==> k <= backups
  }

  /** The files from number `low` on have moved up by one since they were `before`; the others stayed. */
  ghost predicate MovedUp(before: Files, files: Files, low: nat) {
    && (forall k :: k > low ==> (k in files <==> k - 1 in before) && (k in files ==> files[k] == before[k - 1]))
    && low !in files
    && (forall k :: 0 <= k < low ==> (k in files <==> k in before) && (k in files ==> files[k] == before[k]))
  }

  lemma MovesOneMore(before: Files, files: Files, low: nat)
    requires low > 0 && MovedUp(before, files, low)
    ensures MovedUp(before, if low - 1 in files then Renamed(files, low - 1) else files, low - 1)
  {
  }

  /** Which operations fail. A write accepts at most `accepts` bytes. */
  datatype Faults = Faults(
    close: bool, remove: bool, stat: nat -> bool, rename: nat -> bool, open: bool, info: bool, accepts: nat)

  ghost predicate NoFaults(f: Faults) {
    && !f.close && !f.remove && !f.open && !f.info
    && (forall i :: !f.stat(i)) && (forall i :: !f.rename(i))
  }

  class RotatingFileWriter {
    const maxBytes: nat
    const backups: nat
    var files: Files
    var open: bool
    /** The handle was lost in a close that failed: every later operation on it fails too. */
    var dead: bool
    var size: nat
    /** What was retained at the start, and all bytes written since. */
    ghost var history: string

    ghost predicate Valid()
      reads this
    {
      && maxBytes > 0 && backups >= 1
      && Numbered(files, backups)
      && (open ==> 0 in files && size == |files[0]|) && (dead ==> open)
      && IsSuffix(Retained(files, backups), history)
    }

    constructor (files: Files, maxBytes: nat, backups: nat)
      requires maxBytes > 0 && backups >= 1 && Numbered(files, backups)
      ensures Valid() && !open && !dead && this.files == files && this.maxBytes == maxBytes && this.backups == backups
      ensures history == Retained(files, backups)
    {
      this.files, this.maxBytes, this.backups := files, maxBytes, backups;
      open, dead, size := false, false, 0;
      history := Retained(files, backups);
    }

    /** The writer is ready, with a full log rotated away; on an error it is closed and nothing has been written. */
    method Start(f: Faults) returns (ok: bool)
      requires Valid() && !open
      modifies this
      ensures Valid() && history == old(history)
      ensures ok ==> open && !dead && size < maxBytes
      ensures !ok ==> !open
      ensures forall b :: Bounded(old(files), b) ==> Bounded(files, b)
      ensures ok ==> Retained(files, backups) == Retained(old(files), backups)
                     || Retained(files, backups) == Retained(old(files) - {backups}, backups)
    {
      OpenedRetained(files, backups);
      ok := OpenAppend(f);
      if ok && size >= maxBytes {
        ok := RotateLocked(f);
        if !ok {
          Close();
        }
      }
    }

    method OpenAppend(f: Faults) returns (ok: bool)
      requires Valid() && !open
      modifies this`files, this`open, this`size
      ensures Valid()
      ensures ok <==> !f.open && !f.info
      ensures open <==> ok
      ensures files == if f.open then old(files) else Opened(old(files))
      ensures Retained(files, backups) == Retained(old(files), backups)
    {
      if f.open {
        return false;
      }
      OpenedRetained(files, backups);
      files := Opened(files);
      if f.info {
        return false;
      }
      open, size := true, |files[0]|;
      ok := true;
    }

    /** Renames one backup upwards, if it exists. */
    method ShiftOne(index: nat, f: Faults, ghost before: Files) returns (ok: bool)
      requires Valid() && !open && 1 <= index < backups && MovedUp(before, files, index + 1)
      modifies this`files
      ensures Valid()
      ensures Retained(files, backups) == Retained(old(files), backups)
      ensures ok ==> MovedUp(before, files, index)
      ensures !f.stat(index) && !f.rename(index) ==> ok
      ensures 0 in files <==> 0 in old(files)
      ensures 0 in files ==> files[0] == old(files)[0]
      ensures forall b :: Bounded(old(files), b) ==> Bounded(files, b)
    {
      if f.stat(index) {
        return false;
      }
      MovesOneMore(before, files, index + 1);
      if index in files {
        if f.rename(index) {
          return false;
        }
        RenameKeepsRetained(files, index, backups);
        files := Renamed(files, index);
      }
      ok := true;
    }

    /** Renames the backups upwards, highest first, and stops at the first failure. */
    method ShiftBackups(f: Faults) returns (ok: bool)
      requires Valid() && !open && backups !in files
      modifies this`files
      ensures Valid()
      ensures Retained(files, backups) == Retained(old(files), backups)
      ensures ok ==> MovedUp(old(files), files, 1)
      ensures (forall i :: !f.stat(i)) && (forall i :: !f.rename(i)) ==> ok
      ensures 0 in files <==> 0 in old(files)
      ensures 0 in files ==> files[0] == old(files)[0]
      ensures forall b :: Bounded(old(files), b) ==> Bounded(files, b)
    {
      var index := backups - 1;
      while index >= 1
        invariant 0 <= index < backups
        invariant Valid() && MovedUp(old(files), files, index + 1)
        invariant Retained(files, backups) == Retained(old(files), backups)
        invariant 0 in files <==> 0 in old(files)
        invariant 0 in files ==> files[0] == old(files)[0]
        invariant forall b :: Bounded(old(files), b) ==> Bounded(files, b)
      {
        ok := ShiftOne(index, f, old(files));
        if !ok {
          return;
        }
        index := index - 1;
      }
      ok := true;
    }

    /** Makes room: drops the oldest backup, moves the others up and the log behind them. */
    method MoveAll(f: Faults) returns (ok: bool)
      requires Valid() && !open
      modifies this`files
      ensures Valid()
      ensures ok ==> MovedUp(old(files) - {backups}, files, 0)
                     && Retained(files, backups) == Retained(old(files) - {backups}, backups)
      ensures !ok ==> Retained(files, backups) == Retained(old(files), backups)
                      || Retained(files, backups) == Retained(old(files) - {backups}, backups)
      ensures NoFaults(f) ==> ok
      ensures forall b :: Bounded(old(files), b) ==> Bounded(files, b)
    {
      if f.remove {
        return false;
      }
      DropOldest();
      assert forall b :: Bounded(old(files), b) ==> Bounded(files, b);
      ok := ShiftBackups(f);
      assert forall b :: Bounded(old(files), b) ==> Bounded(files, b);
      if ok {
        MovesOneMore(old(files) - {backups}, files, 1);
        if f.stat(0) {
          return false;
        }
        if 0 in files {
          if f.rename(0) {
            return false;
          }
          RenameKeepsRetained(files, 0, backups);
          files := Renamed(files, 0);
        }
      }
    }

    method DropOldest()
      requires Valid() && !open
      modifies this`files
      ensures Valid() && files == old(files) - {backups}
    {
      RemoveOldestRetained(files, backups);
      SuffixOfTail(Retained(files - {backups}, backups), Content(files, backups));
      SuffixTransitive(Retained(files - {backups}, backups), Retained(files, backups), history);
      files := files - {backups};
    }

    /** A rotation drops the oldest backup and nothing else, and leaves an empty log; a failed one loses at most the
        oldest backup. One that cannot close the log leaves a dead handle. */
    method RotateLocked(f: Faults) returns (ok: bool)
      requires Valid()
      modifies this
      ensures Valid() && history == old(history)
      ensures ok ==> open && !dead && size == 0
                     && Retained(files, backups) == Retained(old(files) - {backups}, backups)
      ensures !ok ==> Retained(files, backups) == Retained(old(files), backups)
                      || Retained(files, backups) == Retained(old(files) - {backups}, backups)
      ensures ok ==> 0 in files && files[0] == ""
                     && forall k :: 1 <= k <= backups ==>
                          (k in files <==> k - 1 in old(files)) && (k in files ==> files[k] == old(files)[k - 1])
      ensures NoFaults(f) && !old(dead) ==> ok
      ensures dead <==> old(dead) || (old(open) && f.close)
      ensures dead ==> !ok && files == old(files)
      ensures forall b :: Bounded(old(files), b) ==> Bounded(files, b)
    {
      if open {
        if dead || f.close {
          dead := true;
          return false;
        }
        open := false;
      }
      var moved := MoveAll(f);
      var reopened := OpenAppend(f);
      ok := moved && reopened;
    }

    /** Appends the payload, after a rotation if the log would grow beyond the limit. `n` bytes were written. */
    method Write(payload: string, f: Faults) returns (n: nat, ok: bool)
      requires Valid()
      modifies this
      ensures Valid()
      ensures n <= |payload| && history == old(history) + payload[..n]
      ensures ok ==> n == |payload|
      ensures !old(open) || old(dead) ==> n == 0 && !ok && files == old(files)
      ensures old(dead) ==> dead
      ensures old(open) && !old(dead) && NoFaults(f) && f.accepts >= |payload| ==> ok
      ensures var kept := if old(size) > 0 && old(size) + |payload| > maxBytes
                          then Retained(old(files) - {backups}, backups) else Retained(old(files), backups);
              n > 0 ==> Retained(files, backups) == kept + payload[..n]
      ensures forall b :: b >= maxBytes && b >= |payload| && Bounded(old(files), b) ==> Bounded(files, b)
    {
      if !open {
        return 0, false;
      }
      if size > 0 && size + |payload| > maxBytes {
        ok := RotateLocked(f);
        if !ok {
          return 0, false;
        }
      }
      if dead {
        return 0, false;
      }
      n := Append(payload, f.accepts);
      ok := n == |payload|;
    }

    /** The file takes the first part of the payload that it accepts. */
    method Append(payload: string, accepts: nat) returns (n: nat)
      requires Valid() && open
      modifies this`files, this`size, this`history
      ensures Valid()
      ensures n == (if accepts < |payload| then accepts else |payload|) && history == old(history) + payload[..n]
      ensures files == old(files)[0 := old(files)[0] + payload[..n]]
      ensures Retained(files, backups) == Retained(old(files), backups) + payload[..n]
    {
      n := if accepts < |payload| then accepts else |payload|;
      AppendRetained(files, payload[..n], backups);
      SuffixAppend(Retained(files, backups), history, payload[..n]);
      files := files[0 := files[0] + payload[..n]];
      size := size + n;
      history := history + payload[..n];
    }

    method Close()
      requires Valid()
      modifies this`open, this`dead
      ensures Valid() && !open && !dead
    {
      open, dead := false, false;
    }
  }
}
