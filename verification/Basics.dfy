/** What several modules share: optional values, and lists whose elements are normalised and filtered. */
module Basics {
  datatype Option<+T> = None | Some(value: T)

  /** Normalises every element and keeps those that are acceptable afterwards. */
  function Normalized<T>(f: T -> T, ok: T -> bool, s: seq<T>): (r: seq<T>)
    ensures forall i :: 0 <= i < |r| ==> ok(r[i])
    ensures |r| <= |s|
  {
    if |s| == 0 then []
    else (if ok(f(s[0])) then [f(s[0])] else []) + Normalized(f, ok, s[1..])
  }

  lemma {:induction false} NormalizedFixed<T>(f: T -> T, ok: T -> bool, s: seq<T>)
    requires forall i :: 0 <= i < |s| ==> f(s[i]) == s[i] && ok(s[i])
    ensures Normalized(f, ok, s) == s
  {
    if |s| > 0 {
      NormalizedFixed(f, ok, s[1..]);
    }
  }

  lemma {:induction false} NormalizedElements<T>(f: T -> T, ok: T -> bool, s: seq<T>, i: nat)
    requires i < |Normalized(f, ok, s)|
    ensures exists k :: 0 <= k < |s| && Normalized(f, ok, s)[i] == f(s[k])
  {
    var skip := if ok(f(s[0])) then 1 else 0;
    if i < skip {
      assert Normalized(f, ok, s)[i] == f(s[0]);
    } else {
      NormalizedElements(f, ok, s[1..], i - skip);
      var k :| 0 <= k < |s[1..]| && Normalized(f, ok, s[1..])[i - skip] == f(s[1..][k]);
      assert s[1..][k] == s[k + 1];
    }
  }

  /** Normalising twice is normalising once, when it is for one element. */
  lemma NormalizedIdempotent<T(!new)>(f: T -> T, ok: T -> bool, s: seq<T>)
    requires forall x :: f(f(x)) == f(x)
    ensures Normalized(f, ok, Normalized(f, ok, s)) == Normalized(f, ok, s)
  {
    var r := Normalized(f, ok, s);
    forall i | 0 <= i < |r| ensures f(r[i]) == r[i] {
      NormalizedElements(f, ok, s, i);
      var k :| 0 <= k < |s| && r[i] == f(s[k]);
      assert f(f(s[k])) == f(s[k]);
    }
    NormalizedFixed(f, ok, r);
  }

  method NormalizeList<T>(f: T -> T, ok: T -> bool, s: seq<T>) returns (r: seq<T>)
    ensures r == Normalized(f, ok, s)
  {
    r := [];
    assert s[0..] == s;
    for i := 0 to |s|
      invariant Normalized(f, ok, s) == r + Normalized(f, ok, s[i..])
    {
      assert s[i..][1..] == s[i + 1..];
      var x := f(s[i]);
      if ok(x) {
        r := r + [x];
      }
    }
  }

  lemma {:induction false} NormalizedConcat<T>(f: T -> T, ok: T -> bool, a: seq<T>, b: seq<T>)
    ensures Normalized(f, ok, a + b) == Normalized(f, ok, a) + Normalized(f, ok, b)
  {
    if |a| == 0 {
      assert a + b == b;
    } else {
      assert (a + b)[1..] == a[1..] + b;
      NormalizedConcat(f, ok, a[1..], b);
    }
  }

  /** Read from the other end: the last element decides about itself alone. */
  lemma NormalizedSnoc<T>(f: T -> T, ok: T -> bool, s: seq<T>, x: T)
    ensures Normalized(f, ok, s + [x]) == Normalized(f, ok, s) + if ok(f(x)) then [f(x)] else []
  {
    NormalizedConcat(f, ok, s, [x]);
  }

  /** If every element is acceptable, each is kept in its place. */
  lemma {:induction false} NormalizedAll<T>(f: T -> T, ok: T -> bool, s: seq<T>)
    requires forall i :: 0 <= i < |s| ==> ok(f(s[i]))
    ensures |Normalized(f, ok, s)| == |s|
    ensures forall i :: 0 <= i < |s| ==> Normalized(f, ok, s)[i] == f(s[i])
  {
    if |s| > 0 {
      NormalizedAll(f, ok, s[1..]);
    }
  }

  /** No acceptable element is lost. */
  lemma {:induction false} NormalizedKeeps<T>(f: T -> T, ok: T -> bool, s: seq<T>, k: nat)
    requires k < |s| && ok(f(s[k]))
    ensures f(s[k]) in Normalized(f, ok, s)
  {
    if k > 0 {
      NormalizedKeeps(f, ok, s[1..], k - 1);
    }
  }
}
