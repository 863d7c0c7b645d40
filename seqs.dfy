/** List operations as Java streams and JavaScript arrays use them: filter and map. */
module Seqs {

  /** r is obtained from s by deleting elements, keeping the order of the rest. */
  predicate IsSubsequence<T(==)>(r: seq<T>, s: seq<T>)
    decreases |s|
  {
    r == [] || (s != [] && ((r[0] == s[0] && IsSubsequence(r[1..], s[1..])) || IsSubsequence(r, s[1..])))
  }

  /** The elements of s satisfying p, in their order in s (Array.filter, Stream.filter). */
  function Filter<T>(p: T -> bool, s: seq<T>): (r: seq<T>)
    ensures |r| <= |s|
    ensures forall i :: 0 <= i < |r| ==> p(r[i])
  {
    if s == [] then [] else (if p(s[0]) then [s[0]] else []) + Filter(p, s[1..])
  }

  /** An element is kept exactly when it is in s and satisfies p. */
  lemma {:induction false} FilterMembership<T>(p: T -> bool, s: seq<T>, x: T)
    ensures x in Filter(p, s) <==> x in s && p(x)
  {
    if s != [] {
      FilterMembership(p, s[1..], x);
      assert s == [s[0]] + s[1..];
    }
  }

  /** Filtering keeps the surviving elements in their original order. */
  lemma {:induction false} FilterIsSubsequence<T>(p: T -> bool, s: seq<T>)
    ensures IsSubsequence(Filter(p, s), s)
  {
    if s != [] {
      FilterIsSubsequence(p, s[1..]);
      var r := Filter(p, s);
      if p(s[0]) {
        assert r[0] == s[0] && r[1..] == Filter(p, s[1..]);
      } else {
        assert r == Filter(p, s[1..]);
      }
    }
  }

  /** A filter that every element passes keeps the whole list. */
  lemma {:induction false} FilterAll<T>(p: T -> bool, s: seq<T>)
    requires forall i :: 0 <= i < |s| ==> p(s[i])
    ensures Filter(p, s) == s
  {
    if s != [] {
      FilterAll(p, s[1..]);
    }
  }

  /** Filtering distributes over concatenation. */
  lemma {:induction false} FilterConcat<T>(p: T -> bool, a: seq<T>, b: seq<T>)
    ensures Filter(p, a + b) == Filter(p, a) + Filter(p, b)
  {
    if a == [] {
      assert a + b == b;
    } else {
      var ab := a + b;
      assert ab[0] == a[0] && ab[1..] == a[1..] + b;
      FilterConcat(p, a[1..], b);
      calc {
        Filter(p, ab);
        (if p(a[0]) then [a[0]] else []) + Filter(p, a[1..] + b);
        (if p(a[0]) then [a[0]] else []) + (Filter(p, a[1..]) + Filter(p, b));
        ((if p(a[0]) then [a[0]] else []) + Filter(p, a[1..])) + Filter(p, b);
      }
    }
  }

  /** Applying f to every element, keeping length and order (Array.map, Stream.map). */
  function Map<T, U>(f: T -> U, s: seq<T>): (r: seq<U>)
    ensures |r| == |s|
    ensures forall i :: 0 <= i < |s| ==> r[i] == f(s[i])
  {
    if s == [] then [] else [f(s[0])] + Map(f, s[1..])
  }

  /** A non-empty sequence holds its first element. */
  lemma HeadIsMember<T>(s: seq<T>)
    ensures s != [] ==> s[0] in s
  {
  }

  /** A sequence with no element is empty. */
  lemma EmptyIfNoMember<T>(s: seq<T>)
    requires forall x :: x !in s
    ensures s == []
  {
    HeadIsMember(s);
  }

  /** Every element's image is in the mapped sequence. */
  lemma MapContains<T, U>(f: T -> U, s: seq<T>)
    ensures forall x :: x in s ==> f(x) in Map(f, s)
  {
    forall x | x in s ensures f(x) in Map(f, s) {
      var i :| 0 <= i < |s| && s[i] == x;
      assert Map(f, s)[i] == f(x);
    }
  }

  /** FilterMembership for every element at once. */
  lemma FilterMembershipAll<T>(p: T -> bool, s: seq<T>)
    ensures forall x :: x in Filter(p, s) <==> x in s && p(x)
  {
    forall x ensures x in Filter(p, s) <==> x in s && p(x) {
      FilterMembership(p, s, x);
    }
  }

  /** Mapping the survivors of a filter keeps them in the order of the mapped whole. */
  lemma {:induction false} MapFilterIsSubsequence<T, U>(f: T -> U, p: T -> bool, s: seq<T>)
    ensures IsSubsequence(Map(f, Filter(p, s)), Map(f, s))
  {
    if s != [] {
      MapFilterIsSubsequence(f, p, s[1..]);
      var r := Map(f, Filter(p, s));
      assert Map(f, s)[1..] == Map(f, s[1..]);
      if p(s[0]) {
        assert Filter(p, s) == [s[0]] + Filter(p, s[1..]);
        assert r[0] == f(s[0]) && r[1..] == Map(f, Filter(p, s[1..]));
      } else {
        assert Filter(p, s) == Filter(p, s[1..]);
      }
    }
  }
}
