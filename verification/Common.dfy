/** Vocabulary shared by the models: optional values and order-preserving filtering. */
module Common {

  datatype Option<+T> = None | Some(value: T)

  /** JavaScript's `Array.prototype.filter`: the elements that satisfy `p`, in order. */
  function Filter<T(!new)>(s: seq<T>, p: T -> bool): (r: seq<T>)
    ensures |r| <= |s|
    ensures forall x :: x in r <==> x in s && p(x)
  {
    if s == [] then []
    else
      var front := Filter(s[..|s| - 1], p);
      var last := s[|s| - 1];
      assert s == s[..|s| - 1] + [last];
      if p(last) then front + [last] else front
  }

  ghost predicate Distinct<T>(s: seq<T>) {
    forall i, j :: 0 <= i < j < |s| ==> s[i] != s[j]
  }

  lemma {:induction false} FilterDistinct<T(!new)>(s: seq<T>, p: T -> bool)
    requires Distinct(s)
    ensures Distinct(Filter(s, p))
  {
    if s != [] {
      var front := s[..|s| - 1];
      FilterDistinct(front, p);
      assert forall x :: x in Filter(front, p) ==> x in front;
      assert forall x :: x in front ==> x != s[|s| - 1];
    }
  }

  lemma {:induction false} FilterSnoc<T(!new)>(s: seq<T>, x: T, p: T -> bool)
    ensures Filter(s + [x], p) == Filter(s, p) + (if p(x) then [x] else [])
  {
  }

  lemma {:induction false} FilterAll<T(!new)>(s: seq<T>, p: T -> bool)
    requires forall x :: x in s ==> p(x)
    ensures Filter(s, p) == s
  {
    if s != [] {
      assert s == s[..|s| - 1] + [s[|s| - 1]];
      FilterAll(s[..|s| - 1], p);
    }
  }

  lemma {:induction false} FilterNone<T(!new)>(s: seq<T>, p: T -> bool)
    requires forall x :: x in s ==> !p(x)
    ensures Filter(s, p) == []
  {
    if s != [] {
      FilterNone(s[..|s| - 1], p);
    }
  }

  /** Filtering again with a predicate that agrees on the elements gives the same sequence. */
  lemma {:induction false} FilterExt<T(!new)>(s: seq<T>, p: T -> bool, q: T -> bool)
    requires forall x :: x in s ==> p(x) == q(x)
    ensures Filter(s, p) == Filter(s, q)
  {
    if s != [] {
      FilterExt(s[..|s| - 1], p, q);
    }
  }

  lemma {:induction false} FilterFilter<T(!new)>(s: seq<T>, p: T -> bool, q: T -> bool, both: T -> bool)
    requires forall x :: x in s ==> both(x) == (p(x) && q(x))
    ensures Filter(Filter(s, p), q) == Filter(s, both)
  {
    if s != [] {
      var front, last := s[..|s| - 1], s[|s| - 1];
      FilterFilter(front, p, q, both);
      if p(last) {
        FilterSnoc(Filter(front, p), last, q);
      }
    }
  }

  lemma {:induction false} FilterConcat<T(!new)>(s: seq<T>, t: seq<T>, p: T -> bool)
    ensures Filter(s + t, p) == Filter(s, p) + Filter(t, p)
  {
    if t == [] {
      assert s + t == s;
    } else {
      var front, last := t[..|t| - 1], t[|t| - 1];
      FilterConcat(s, front, p);
      assert (s + t)[..|s + t| - 1] == s + front;
    }
  }

  /** JavaScript's `indexOf`: the first position of `x`, or none. */
  function IndexOf<T(==)>(s: seq<T>, x: T): (r: Option<nat>)
    ensures r.Some? ==> r.value < |s| && s[r.value] == x && forall i :: 0 <= i < r.value ==> s[i] != x
    ensures r.None? <==> x !in s
  {
    if s == [] then None
    else if s[0] == x then Some(0)
    else
      match IndexOf(s[1..], x)
      case None => None
      case Some(i) => Some(i + 1)
  }

  function NotEqual<T(==)>(x: T): T -> bool {
    (y: T) => y != x
  }

  /** In a duplicate-free sequence, cutting out `x` where it stands is filtering it out. */
  lemma {:induction false} SpliceIsFilter<T(!new)>(s: seq<T>, i: nat)
    requires Distinct(s) && i < |s|
    ensures Filter(s, NotEqual(s[i])) == s[..i] + s[i + 1..]
  {
    var front, last := s[..|s| - 1], s[|s| - 1];
    if i == |s| - 1 {
      FilterAll(front, NotEqual(last));
      assert s[..i] + s[i + 1..] == front;
    } else {
      SpliceIsFilter(front, i);
      assert front[i] == s[i] != last;
      CutSnoc(front, last, i);
      assert s == front + [last];
    }
  }

  lemma CutSnoc<T>(front: seq<T>, last: T, i: nat)
    requires i < |front|
    ensures (front + [last])[..i] + (front + [last])[i + 1..] == front[..i] + front[i + 1..] + [last]
  {
  }

  lemma {:induction false} IndexOfIsFirst<T>(s: seq<T>, x: T, p: nat)
    requires p < |s| && s[p] == x
    ensures IndexOf(s, x).Some? && IndexOf(s, x).value <= p
  {
  }
}
