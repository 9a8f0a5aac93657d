/** The Redis list commands the library uses, on sequences whose left end comes first. */
module RedisLists {
  ghost predicate NoDup<T>(s: seq<T>) {
    forall i, j :: 0 <= i < j < |s| ==> s[i] != s[j]
  }

  function Reverse<T>(s: seq<T>): (r: seq<T>)
    ensures |r| == |s|
    ensures forall i :: 0 <= i < |s| ==> r[i] == s[|s| - 1 - i]
  {
    if |s| == 0 then [] else Reverse(s[1..]) + [s[0]]
  }

  /** The elements of `s` outside `xs`, in order. */
  function Without<T(==, !new)>(s: seq<T>, xs: set<T>): (r: seq<T>)
    ensures forall x :: x in r <==> x in s && x !in xs
  {
    if |s| == 0 then [] else (if s[0] in xs then [] else [s[0]]) + Without(s[1..], xs)
  }

  /** LREM key 0 value: every occurrence goes. */
  function RemoveAll<T(==, !new)>(s: seq<T>, x: T): (r: seq<T>)
    ensures forall y :: y in r <==> y in s && y != x
  {
    Without(s, {x})
  }

  /** LREM key -1 value: the occurrence nearest the right end goes. */
  function RemoveLast<T(==, !new)>(s: seq<T>, x: T): (r: seq<T>)
    ensures forall y :: y in r ==> y in s
    ensures forall y :: y in s && y != x ==> y in r
  {
    if |s| == 0 then []
    else if s[|s| - 1] == x then s[..|s| - 1]
    else RemoveLast(s[..|s| - 1], x) + [s[|s| - 1]]
  }

  /** LRANGE key -count -1: the `count` elements nearest the right end. */
  function Window<T>(s: seq<T>, count: nat): seq<T> {
    if count >= |s| then s else s[|s| - count..]
  }

  lemma {:induction false} WithoutConcat<T(!new)>(a: seq<T>, b: seq<T>, xs: set<T>)
    ensures Without(a + b, xs) == Without(a, xs) + Without(b, xs)
  {
    if |a| == 0 {
      assert a + b == b;
    } else {
      assert (a + b)[1..] == a[1..] + b;
      WithoutConcat(a[1..], b, xs);
    }
  }

  lemma {:induction false} WithoutReverse<T(!new)>(s: seq<T>, xs: set<T>)
    ensures Without(Reverse(s), xs) == Reverse(Without(s, xs))
  {
    if |s| != 0 {
      WithoutReverse(s[1..], xs);
      WithoutConcat(Reverse(s[1..]), [s[0]], xs);
      assert [s[0]][1..] == [];
      var kept := if s[0] in xs then [] else [s[0]];
      assert Without(s, xs) == kept + Without(s[1..], xs);
      ReverseConcat(kept, Without(s[1..], xs));
    }
  }

  lemma {:induction false} WithoutTwice<T(!new)>(s: seq<T>, xs: set<T>, ys: set<T>)
    ensures Without(Without(s, xs), ys) == Without(s, xs + ys)
  {
    if |s| != 0 {
      WithoutTwice(s[1..], xs, ys);
      var kept := if s[0] in xs then [] else [s[0]];
      WithoutConcat(kept, Without(s[1..], xs), ys);
      assert [s[0]][1..] == [];
    }
  }

  lemma {:induction false} WithoutNothing<T(!new)>(s: seq<T>, xs: set<T>)
    requires forall x :: x in xs ==> x !in s
    ensures Without(s, xs) == s
  {
    if |s| != 0 {
      assert s[0] in s && forall x :: x in s[1..] ==> x in s;
      WithoutNothing(s[1..], xs);
    }
  }

  lemma RemovePushed<T(!new)>(s: seq<T>, x: T)
    ensures RemoveAll([x] + s, x) == RemoveAll(s, x)
  {
    assert ([x] + s)[1..] == s;
  }

  lemma ReverseConcat<T>(a: seq<T>, b: seq<T>)
    ensures Reverse(a + b) == Reverse(b) + Reverse(a)
  {
  }

  lemma NoDupWithout<T(!new)>(s: seq<T>, xs: set<T>)
    requires NoDup(s)
    ensures NoDup(Without(s, xs))
  {
    if |s| != 0 {
      assert NoDup(s[1..]);
      NoDupWithout(s[1..], xs);
    }
  }

  /** On a list without repetitions the two removals agree. */
  lemma {:induction false} RemoveLastIsRemoveAll<T(!new)>(s: seq<T>, x: T)
    requires NoDup(s)
    ensures RemoveLast(s, x) == RemoveAll(s, x)
  {
    if |s| != 0 {
      var front, last := s[..|s| - 1], s[|s| - 1];
      assert s == front + [last];
      WithoutConcat(front, [last], {x});
      assert [last][1..] == [];
      if last == x {
        assert Without(s, {x}) == Without(front, {x}) + [];
        WithoutNothing(front, {x});
      } else {
        assert Without(s, {x}) == Without(front, {x}) + [last];
        assert NoDup(front);
        RemoveLastIsRemoveAll(front, x);
      }
    }
  }
}
