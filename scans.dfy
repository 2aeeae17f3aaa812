/** Scanning a sequence: the elements after the first one that satisfies a test, at most a
    given number of them, each mapped to its printed form. Tracing.getContext is such a scan. */
module Scans {
  import opened Outcomes

  /** `f` applied to every element, in order. */
  function Map<X, Y>(s: seq<X>, f: X -> Y): (r: seq<Y>)
    ensures |r| == |s|
    ensures forall i | 0 <= i < |s| :: r[i] == f(s[i])
  {
    seq(|s|, i requires 0 <= i < |s| => f(s[i]))
  }

  lemma MapSnoc<X, Y>(s: seq<X>, f: X -> Y, from: nat, index: nat)
    requires from <= index < |s|
    ensures Map(s[from..index + 1], f) == Map(s[from..index], f) + [f(s[index])]
  {
    var a := Map(s[from..index + 1], f);
    var b := Map(s[from..index], f) + [f(s[index])];
    forall i | 0 <= i < |a|
      ensures a[i] == b[i]
    {
      assert s[from..index + 1][i] == s[from + i];
    }
  }

  /** One more step of a scan that has started: the next element's image is appended. */
  lemma ScanStep<X, Y>(head: Y, s: seq<X>, f: X -> Y, from: nat, index: nat, taken: seq<Y>)
    requires from <= index < |s|
    requires taken == [head] + Map(s[from..index], f)
    ensures taken + [f(s[index])] == [head] + Map(s[from..index + 1], f)
  {
    MapSnoc(s, f, from, index);
  }

  lemma MapPrefix<X, Y>(s: seq<X>, f: X -> Y, from: nat, to: nat)
    requires from <= to <= |s|
    ensures Map(s[from..to], f) == Map(s[from..], f)[..to - from]
  {
    var a := Map(s[from..to], f);
    var b := Map(s[from..], f)[..to - from];
    forall i | 0 <= i < |a|
      ensures a[i] == b[i]
    {
      assert s[from..to][i] == s[from..][i];
    }
  }

  /** The index of the first element satisfying `p`, if any. */
  function FirstIndex<X>(s: seq<X>, p: X -> bool): (k: Option<nat>)
    ensures k.Some? ==> k.value < |s| && p(s[k.value])
    ensures k.Some? ==> forall j | 0 <= j < k.value :: !p(s[j])
    ensures k.None? <==> forall j | 0 <= j < |s| :: !p(s[j])
  {
    if s == [] then None
    else if p(s[0]) then Some(0)
    else match FirstIndex(s[1..], p)
      case None => None
      case Some(k) => Some(k + 1)
  }

  /** No element of a prefix satisfies `p` exactly when FirstIndex finds none in it. */
  lemma NoneBefore<X>(s: seq<X>, p: X -> bool, index: nat)
    requires index <= |s|
    ensures FirstIndex(s[..index], p).None? <==> forall j | 0 <= j < index :: !p(s[j])
  {
    var before := s[..index];
    assert forall j | 0 <= j < index :: before[j] == s[j];
  }

  /** Scanning one more element: the first match of the longer prefix. */
  lemma FirstIndexExtend<X>(s: seq<X>, p: X -> bool, index: nat)
    requires index < |s| && FirstIndex(s[..index], p).None?
    ensures p(s[index]) ==> FirstIndex(s, p) == Some(index)
    ensures !p(s[index]) ==> FirstIndex(s[..index + 1], p).None?
  {
    NoneBefore(s, p, index);
    NoneBefore(s, p, index + 1);
  }

  /** The elements after the first one satisfying `p`; none when there is no such element. */
  function After<X>(s: seq<X>, p: X -> bool): seq<X>
  {
    match FirstIndex(s, p)
    case None => []
    case Some(k) => s[k + 1..]
  }

  /** The first `max` elements; none when max is zero or negative. */
  function Take<X>(s: seq<X>, max: int): (r: seq<X>)
    ensures max <= 0 ==> r == []
    ensures 0 <= max ==> |r| <= max
    ensures max >= |s| ==> r == s
    ensures 0 <= max <= |s| ==> r == s[..max]
  {
    if max <= 0 then [] else if max >= |s| then s else s[..max]
  }

  /** A head, then at most `max` of the elements after the first one satisfying `p`, each
      passed through `f`. */
  function Bounded<X, Y>(head: Y, s: seq<X>, p: X -> bool, f: X -> Y, max: int): seq<Y>
  {
    [head] + Take(Map(After(s, p), f), max)
  }

  /** Where the scan stops after the element at `k` that satisfies `p` first: either the
      sequence is exhausted or `max` elements have been taken. Both give the bounded rest. */
  lemma ScanEndsStarted<X, Y>(s: seq<X>, p: X -> bool, f: X -> Y, max: int, k: nat, index: nat)
    requires k < index <= |s|
    requires FirstIndex(s, p) == Some(k)
    requires index - (k + 1) == max || (index == |s| && index - (k + 1) <= max)
    ensures Map(s[k + 1..index], f) == Take(Map(After(s, p), f), max)
  {
    MapPrefix(s, f, k + 1, index);
    if index == |s| {
      assert s[k + 1..index] == s[k + 1..];
    }
  }

  /** Where the scan stops before any element satisfying `p`: `max` allows none, or there is
      none. Both leave nothing. */
  lemma ScanEndsUnstarted<X, Y>(s: seq<X>, p: X -> bool, f: X -> Y, max: int, index: nat)
    requires index <= |s|
    requires FirstIndex(s[..index], p).None?
    requires max <= 0 || index == |s|
    ensures Take(Map(After(s, p), f), max) == []
  {
    if max > 0 {
      assert s[..index] == s;
    }
  }

  /** The head comes first, at most `max` elements follow, and none without an element
      satisfying `p`. */
  lemma BoundedShape<X, Y>(head: Y, s: seq<X>, p: X -> bool, f: X -> Y, max: int)
    ensures var c := Bounded(head, s, p, f, max);
      && |c| >= 1 && c[0] == head
      && (max >= 0 ==> |c| <= max + 1)
      && (FirstIndex(s, p).None? ==> c == [head])
  {
  }

  /** The elements after the head are the images of those right after the first element at
      `k` satisfying `p`, in order. */
  lemma BoundedInOrder<X, Y>(head: Y, s: seq<X>, p: X -> bool, f: X -> Y, max: int, k: nat)
    requires FirstIndex(s, p) == Some(k)
    ensures var c := Bounded(head, s, p, f, max);
      forall i | 1 <= i < |c| :: k + i < |s| && c[i] == f(s[k + i])
  {
    var c := Bounded(head, s, p, f, max);
    var rest := s[k + 1..];
    var r := Take(Map(rest, f), max);
    assert c == [head] + r;
    forall i | 1 <= i < |c|
      ensures k + i < |s| && c[i] == f(s[k + i])
    {
      assert c[i] == r[i - 1];
      assert r[i - 1] == Map(rest, f)[i - 1];
      assert rest[i - 1] == s[k + i];
    }
  }

  /** A larger bound only adds elements. */
  lemma BoundedMonotone<X, Y>(head: Y, s: seq<X>, p: X -> bool, f: X -> Y, max: int, larger: int)
    requires max <= larger
    ensures var c := Bounded(head, s, p, f, max);
      var d := Bounded(head, s, p, f, larger);
      |c| <= |d| && d[..|c|] == c
  {
    var all := Map(After(s, p), f);
    var c := Bounded(head, s, p, f, max);
    var d := Bounded(head, s, p, f, larger);
    assert d[..|c|] == [head] + Take(all, larger)[..|c| - 1];
  }
}
