/**
 Sequence helpers that mirror the Python list operations the urn learner uses:
 counting the copies of a label (a filtered list comprehension), removing the
 first copy of a label (`list.remove`), and repeating a list (what `create_urns`
 builds when an urn type is listed more than once).
 */
module Lists {

  /** Number of copies of `x` in `s`: the length of `[b for b in s if b == x]`. */
  function Count<T(==)>(s: seq<T>, x: T): nat
  {
    if |s| == 0 then 0 else (if s[0] == x then 1 else 0) + Count(s[1..], x)
  }

  /** `Count` agrees with the multiplicity of `x` in the multiset of `s`. */
  lemma {:induction false} CountIsMultiplicity<T>(s: seq<T>, x: T)
    ensures Count(s, x) == multiset(s)[x]
  {
    if |s| > 0 {
      CountIsMultiplicity(s[1..], x);
      assert s == [s[0]] + s[1..];
    }
  }

  /** A label occurs in `s` exactly when it has at least one copy. */
  lemma CountPositive<T>(s: seq<T>, x: T)
    ensures Count(s, x) > 0 <==> x in s
  {
    CountIsMultiplicity(s, x);
  }

  /** Appending `y` adds one copy of `y` and leaves the count of every other label alone. */
  lemma CountSnocAt<T>(s: seq<T>, y: T, x: T)
    ensures Count(s + [y], x) == Count(s, x) + (if x == y then 1 else 0)
  {
    CountIsMultiplicity(s + [y], x);
    CountIsMultiplicity(s, x);
    assert multiset(s + [y]) == multiset(s) + multiset{y};
  }

  /** `CountSnocAt` for every label at once. */
  lemma CountSnoc<T>(s: seq<T>, y: T)
    ensures forall x :: Count(s + [y], x) == Count(s, x) + (if x == y then 1 else 0)
  {
    forall x
      ensures Count(s + [y], x) == Count(s, x) + (if x == y then 1 else 0)
    {
      CountSnocAt(s, y, x);
    }
  }

  /** Extending a list never takes a copy of any label away. */
  lemma CountPrefix<T>(p: seq<T>, s: seq<T>, x: T)
    requires p <= s
    ensures Count(p, x) <= Count(s, x)
  {
    assert s == p + s[|p|..];
    assert multiset(s) == multiset(p) + multiset(s[|p|..]);
    CountIsMultiplicity(p, x);
    CountIsMultiplicity(s, x);
  }

  /** The set of labels occurring in `s`. */
  function Elements<T>(s: seq<T>): set<T>
  {
    set x | x in s
  }

  /** No label occurs twice. */
  predicate Distinct<T(==)>(s: seq<T>)
  {
    forall i, j :: 0 <= i < j < |s| ==> s[i] != s[j]
  }

  /** A label of a list without repetitions has exactly one copy. */
  lemma {:induction false} DistinctCountOne<T>(s: seq<T>, x: T)
    requires Distinct(s)
    requires x in s
    ensures Count(s, x) == 1
  {
    assert Distinct(s[1..]) by {
      forall i, j | 0 <= i < j < |s[1..]|
        ensures s[1..][i] != s[1..][j]
      {
        assert s[1..][i] == s[i + 1] && s[1..][j] == s[j + 1];
      }
    }
    if s[0] == x {
      assert x !in s[1..] by {
        forall i | 0 <= i < |s[1..]|
          ensures s[1..][i] != x
        {
          assert s[1..][i] == s[i + 1];
        }
      }
      CountPositive(s[1..], x);
    } else {
      assert x in s[1..];
      DistinctCountOne(s[1..], x);
    }
  }

  /** Position of the first copy of `x`: the position `list.remove` deletes. */
  function FirstIndex<T(==)>(s: seq<T>, x: T): (i: nat)
    requires x in s
    ensures i < |s| && s[i] == x
    ensures x !in s[..i]
  {
    if s[0] == x then 0
    else
      var k := FirstIndex(s[1..], x);
      assert s[..k + 1] == [s[0]] + s[1..][..k];
      k + 1
  }

  /**
   `list.remove(x)`: deletes the first copy of `x`. Python raises ValueError
   when `x` is absent, so the caller must know it is present.
   */
  function RemoveFirst<T(==)>(s: seq<T>, x: T): (r: seq<T>)
    requires x in s
    ensures r == s[..FirstIndex(s, x)] + s[FirstIndex(s, x) + 1..]
  {
    if s[0] == x then s[1..]
    else
      var k := FirstIndex(s[1..], x);
      assert s[..k + 1] == [s[0]] + s[1..][..k];
      assert s[k + 2..] == s[1..][k + 1..];
      [s[0]] + RemoveFirst(s[1..], x)
  }

  /** Removing the first copy of `x` takes exactly one copy of `x` and no other label. */
  lemma RemoveFirstCount<T>(s: seq<T>, x: T)
    requires x in s
    ensures multiset(RemoveFirst(s, x)) == multiset(s) - multiset{x}
    ensures |RemoveFirst(s, x)| == |s| - 1
    ensures Count(RemoveFirst(s, x), x) == Count(s, x) - 1
    ensures forall y :: y != x ==> Count(RemoveFirst(s, x), y) == Count(s, y)
  {
    var i := FirstIndex(s, x);
    var r := RemoveFirst(s, x);
    assert s == s[..i] + [x] + s[i + 1..];
    assert multiset(s) == multiset(s[..i]) + multiset{x} + multiset(s[i + 1..]);
    assert multiset(r) == multiset(s[..i]) + multiset(s[i + 1..]);
    CountIsMultiplicity(r, x);
    CountIsMultiplicity(s, x);
    forall y | y != x
      ensures Count(r, y) == Count(s, y)
    {
      CountIsMultiplicity(r, y);
      CountIsMultiplicity(s, y);
    }
  }

  /** `s` concatenated `n` times. */
  function Repeat<T>(s: seq<T>, n: nat): seq<T>
  {
    if n == 0 then [] else Repeat(s, n - 1) + s
  }

  /** A repetition holds the labels of `s`, and nothing else, as soon as `n` is positive. */
  lemma {:induction false} RepeatMembership<T>(s: seq<T>, n: nat, x: T)
    ensures x in Repeat(s, n) <==> n > 0 && x in s
  {
    if n > 0 {
      RepeatMembership(s, n - 1, x);
    }
  }

  /**
   A list that contains every label of a list without repetitions is at
   least as long as that list.
   */
  lemma {:induction false} CoverLength<T>(labels: seq<T>, s: seq<T>)
    requires Distinct(labels)
    requires forall x :: x in labels ==> x in s
    ensures |s| >= |labels|
  {
    if |labels| > 0 {
      var head := labels[0];
      var s' := RemoveFirst(s, head);
      RemoveFirstCount(s, head);
      forall x | x in labels[1..]
        ensures x in s'
      {
        var j :| 0 <= j < |labels[1..]| && labels[1..][j] == x;
        assert labels[j + 1] == x;
        assert x != head;
        assert x in labels;
        assert multiset(s)[x] > 0;
        assert multiset(s')[x] == multiset(s)[x];
      }
      CoverLength(labels[1..], s');
    }
  }

  /** Positions of `s` holding `x`. */
  function Positions<T(==)>(s: seq<T>, x: T): set<nat>
  {
    set i: nat | i < |s| && s[i] == x
  }

  /** There are exactly as many positions holding `x` as copies of `x`. */
  lemma {:induction false} PositionsCount<T>(s: seq<T>, x: T)
    ensures |Positions(s, x)| == Count(s, x)
  {
    if |s| == 0 {
      assert Positions(s, x) == {};
    } else {
      var n := |s| - 1;
      var p := s[..n];
      PositionsCount(p, x);
      assert s == p + [s[n]];
      CountSnocAt(p, s[n], x);
      if s[n] == x {
        assert Positions(s, x) == Positions(p, x) + {n};
        assert n !in Positions(p, x);
      } else {
        assert Positions(s, x) == Positions(p, x);
      }
    }
  }
}
