/**
  The three LINQ operators the services apply to a loaded list: `Where`,
  `Count(predicate)` and `FirstOrDefault(predicate)` (the latter as the index
  of the first match, so that callers can also update that element in place).
*/
module Seqs {
  import opened Wrappers

  /** `i` is the position of the first element of `s` satisfying `p`. */
  predicate IsFirst<T>(s: seq<T>, i: int, p: T -> bool)
  {
    0 <= i < |s| && p(s[i]) && forall j :: 0 <= j < i ==> !p(s[j])
  }

  /** `s.Where(p)`: the elements of `s` satisfying `p`, in the order of `s`. */
  function Filter<T>(s: seq<T>, p: T -> bool): (r: seq<T>)
    ensures |r| <= |s|
    ensures forall i :: 0 <= i < |r| ==> r[i] in s && p(r[i])
    ensures forall i :: 0 <= i < |s| && p(s[i]) ==> s[i] in r
  {
    if s == [] then []
    else
      assert s == [s[0]] + s[1..];
      if p(s[0]) then [s[0]] + Filter(s[1..], p) else Filter(s[1..], p)
  }

  /** Filtering distributes over concatenation: the stored order is kept. */
  lemma {:induction false} FilterAppend<T>(a: seq<T>, b: seq<T>, p: T -> bool)
    ensures Filter(a + b, p) == Filter(a, p) + Filter(b, p)
  {
    if a == [] {
      assert a + b == b;
    } else {
      assert (a + b)[0] == a[0];
      assert (a + b)[1..] == a[1..] + b;
      FilterAppend(a[1..], b, p);
    }
  }

  /** `s.Count(p)`: how many elements of `s` satisfy `p`. */
  function Count<T>(s: seq<T>, p: T -> bool): (n: nat)
    ensures n <= |s|
    ensures n == |Filter(s, p)|
    ensures n == 0 <==> forall i :: 0 <= i < |s| ==> !p(s[i])
  {
    if s == [] then 0
    else
      assert forall i :: 1 <= i < |s| ==> s[i] == s[1..][i - 1];
      (if p(s[0]) then 1 else 0) + Count(s[1..], p)
  }

  lemma {:induction false} CountAppend<T>(a: seq<T>, b: seq<T>, p: T -> bool)
    ensures Count(a + b, p) == Count(a, p) + Count(b, p)
  {
    FilterAppend(a, b, p);
  }

  /** Replacing one element changes the count by what the old and new elements contribute. */
  lemma {:induction false} CountUpdate<T>(s: seq<T>, i: nat, y: T, p: T -> bool)
    requires i < |s|
    ensures Count(s[i := y], p) == Count(s, p) - (if p(s[i]) then 1 else 0) + (if p(y) then 1 else 0)
  {
    if i == 0 {
      assert s[i := y][1..] == s[1..];
    } else {
      assert s[i := y][1..] == s[1..][i - 1 := y];
      CountUpdate(s[1..], i - 1, y, p);
    }
  }

  /** Counting `q` among the elements that satisfy `p` is counting their conjunction `pq`. */
  lemma {:induction false} CountOfFilter<T>(s: seq<T>, p: T -> bool, q: T -> bool, pq: T -> bool)
    requires forall x :: pq(x) == (p(x) && q(x))
    ensures Count(Filter(s, p), q) == Count(s, pq)
  {
    if s != [] {
      CountOfFilter(s[1..], p, q, pq);
      if p(s[0]) {
        assert ([s[0]] + Filter(s[1..], p))[1..] == Filter(s[1..], p);
      }
    }
  }

  /** `s.FirstOrDefault(p)`, as the index of the match. */
  function FirstIndex<T>(s: seq<T>, p: T -> bool): (r: Option<nat>)
    ensures r.Some? ==> IsFirst(s, r.value, p)
    ensures r.None? <==> forall j :: 0 <= j < |s| ==> !p(s[j])
  {
    if s == [] then None
    else if p(s[0]) then Some(0)
    else
      match FirstIndex(s[1..], p)
      case None => None
      case Some(k) => Some(k + 1)
  }

  /** The first match is unique: any position with the first-match property is the one found. */
  lemma FirstIndexUnique<T>(s: seq<T>, i: int, p: T -> bool)
    requires IsFirst(s, i, p)
    ensures FirstIndex(s, p) == Some(i)
  {
  }

  /** Appending never moves an existing first match; otherwise the new element may become it. */
  lemma FirstIndexAppend<T>(s: seq<T>, x: T, p: T -> bool)
    ensures FirstIndex(s + [x], p) ==
      if FirstIndex(s, p).Some? then FirstIndex(s, p)
      else if p(x) then Some(|s|)
      else None
  {
    var t := s + [x];
    match FirstIndex(s, p)
    case Some(i) =>
      assert IsFirst(t, i, p);
      FirstIndexUnique(t, i, p);
    case None =>
      if p(x) {
        assert IsFirst(t, |s|, p);
        FirstIndexUnique(t, |s|, p);
      } else {
        assert forall j :: 0 <= j < |t| ==> !p(t[j]) by {
          forall j | 0 <= j < |t| ensures !p(t[j]) {
            if j < |s| { assert t[j] == s[j]; }
          }
        }
      }
  }

  /** Rewriting the first match with a value that still matches keeps it the first match. */
  lemma FirstIndexUpdate<T>(s: seq<T>, i: int, y: T, p: T -> bool)
    requires IsFirst(s, i, p) && p(y)
    ensures FirstIndex(s[i := y], p) == Some(i)
  {
    assert IsFirst(s[i := y], i, p);
    FirstIndexUnique(s[i := y], i, p);
  }
}
