/** Facts about the sequences that stand for the kernel's linked lists. */
module SeqLists {

  datatype Option<+T> = None | Some(value: T)

  ghost predicate NoDup<T>(s: seq<T>) {
    forall i, j :: 0 <= i < j < |s| ==> s[i] != s[j]
  }

  /** The list without the first occurrence of `x`: what LLIST_REMOVE leaves of a list. */
  function Remove<T(==)>(s: seq<T>, x: T): (r: seq<T>)
    ensures x !in s ==> r == s
    ensures x in s ==> |r| == |s| - 1
    ensures forall y :: y in r ==> y in s
    ensures forall y :: y in s && y != x ==> y in r
  {
    if s == [] then []
    else if s[0] == x then s[1..]
    else [s[0]] + Remove(s[1..], x)
  }

  /**
    How a list `s` reads after LLIST_REMOVE took `x` off it through another list's head and
    LLIST_ADD put it at the end of list `r`: without `x`, unless `s` starts with it, for
    then its head still points to `x`, which is now in the ring of `r`.
   */
  function Unhooked<T(==)>(s: seq<T>, x: T, r: seq<T>): seq<T> {
    if s != [] && s[0] == x then [x] + r else Remove(s, x)
  }

  function IndexOf<T(==)>(s: seq<T>, x: T): (i: nat)
    requires x in s
    ensures i < |s| && s[i] == x && x !in s[..i]
  {
    if s[0] == x then 0 else 1 + IndexOf(s[1..], x)
  }

  lemma {:induction false} RemoveAt<T>(s: seq<T>, i: nat)
    requires i < |s| && NoDup(s)
    ensures Remove(s, s[i]) == s[..i] + s[i + 1..]
  {
    if i == 0 {
      assert s[..0] + s[1..] == s[1..];
    } else {
      var rest := s[1..];
      assert s[0] != s[i];
      RemoveAt(rest, i - 1);
      assert Remove(s, s[i]) == [s[0]] + (rest[..i - 1] + rest[i..]);
      assert s[..i] == [s[0]] + rest[..i - 1] && s[i + 1..] == rest[i..];
    }
  }

  lemma {:induction false} RemoveNoDup<T>(s: seq<T>, x: T)
    requires NoDup(s)
    ensures NoDup(Remove(s, x)) && x !in Remove(s, x)
  {
    if x in s {
      var i :| 0 <= i < |s| && s[i] == x;
      RemoveAt(s, i);
    }
  }

  /** The first member of the list that satisfies `p`, as the kernel's do/while searches find it. */
  ghost function First<T>(s: seq<T>, p: T -> bool): (r: Option<T>)
    ensures r.Some? ==> r.value in s && p(r.value)
    ensures r.None? ==> forall x :: x in s ==> !p(x)
  {
    if s == [] then None
    else if p(s[0]) then Some(s[0])
    else First(s[1..], p)
  }

  lemma {:induction false} FirstFound<T>(s: seq<T>, p: T -> bool, i: nat)
    requires i < |s| && p(s[i])
    requires forall k :: 0 <= k < i ==> !p(s[k])
    ensures First(s, p) == Some(s[i])
  {
    if i > 0 {
      assert !p(s[0]);
      FirstFound(s[1..], p, i - 1);
    }
  }

  /** Nothing before the member a search returns would have done. */
  lemma {:induction false} FirstLeads<T>(s: seq<T>, p: T -> bool, x: T)
    requires First(s, p) == Some(x)
    ensures x in s && p(x) && forall k :: 0 <= k < IndexOf(s, x) ==> !p(s[k])
  {
    if s[0] != x {
      FirstLeads(s[1..], p, x);
      forall k | 0 <= k < IndexOf(s, x) ensures !p(s[k]) {
        if k > 0 { assert s[k] == s[1..][k - 1]; }
      }
    }
  }

  lemma {:induction false} FirstSame<T>(s: seq<T>, p: T -> bool, q: T -> bool)
    requires forall x :: x in s ==> p(x) == q(x)
    ensures First(s, p) == First(s, q)
  {
    if s != [] {
      assert s[0] in s;
      FirstSame(s[1..], p, q);
    }
  }

  lemma SmallerSet<T>(a: set<T>, b: set<T>)
    requires a < b
    ensures |a| < |b|
  {
    var c := b - a;
    assert b == a + c && a !! c;
    assert c != {};
  }

  lemma SubsetSize<T>(a: set<T>, b: set<T>)
    requires a <= b
    ensures |a| <= |b|
  {
    if a != b { SmallerSet(a, b); }
  }

  lemma {:induction false} SizeBelow(a: set<nat>, n: nat)
    requires forall i :: i in a ==> i < n
    ensures |a| <= n
  {
    if a != {} { SizeBelow(a - {n - 1}, n - 1); }
  }

  lemma {:induction false} SetSize<T>(s: seq<T>)
    requires NoDup(s)
    ensures |set y | y in s| == |s|
  {
    if s != [] {
      var rest := s[1..];
      assert s == [s[0]] + rest;
      SetSize(rest);
      assert (set y | y in s) == (set y | y in rest) + {s[0]};
    }
  }

  lemma {:induction false} SetSizeMost<T>(s: seq<T>)
    ensures |set y | y in s| <= |s|
  {
    if s != [] {
      SetSizeMost(s[1..]);
      assert (set y | y in s) == {s[0]} + set y | y in s[1..];
    }
  }
}
