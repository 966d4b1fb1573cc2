/** Lists without repetition, the set of a list, and lists of lists. */
module Sequences {
  predicate Distinct<T(==)>(s: seq<T>) {
    forall i, j :: 0 <= i < j < |s| ==> s[i] != s[j]
  }

  function SetOf<T(==)>(s: seq<T>): set<T> {
    set x | x in s
  }

  predicate Below(ids: seq<nat>, n: nat) {
    forall k | 0 <= k < |ids| :: ids[k] < n
  }

  ghost predicate Ascending(xs: seq<nat>) {
    forall i, j :: 0 <= i < j < |xs| ==> xs[i] < xs[j]
  }

  // Lists in the order of their first elements.
  ghost predicate FirstsAscend(lists: seq<seq<nat>>) {
    && (forall k | 0 <= k < |lists| :: lists[k] != [])
    && (forall k, l :: 0 <= k < l < |lists| ==> lists[k][0] < lists[l][0])
  }

  lemma AscendingWithout(kept: seq<nat>, x: nat, rest: seq<nat>)
    requires Ascending(kept + [x] + rest)
    ensures Ascending(kept + rest)
  {
    var before, after := kept + [x] + rest, kept + rest;
    forall i | 0 <= i < |after| ensures after[i] == before[if i < |kept| then i else i + 1] {}
  }

  lemma SliceOfSlice<T>(s: seq<T>, from: nat, to: nat, lo: nat, hi: nat)
    requires from <= to <= |s| && lo <= hi <= to - from
    ensures s[from..to][lo..hi] == s[from + lo..from + hi]
  {
    var part := s[from..to];
    forall i | 0 <= i < hi - lo ensures part[lo..hi][i] == s[from + lo..from + hi][i] {}
  }

  lemma SetOfOneMore<T>(s: seq<T>, i: nat)
    requires i < |s|
    ensures SetOf(s[..i + 1]) == SetOf(s[..i]) + {s[i]}
    ensures Distinct(s) ==> s[i] !in SetOf(s[..i])
  {
  }

  // Taking one element out of a list without repetition.
  lemma DistinctWithout<T>(kept: seq<T>, x: T, rest: seq<T>)
    requires Distinct(kept + [x] + rest)
    ensures Distinct(kept + rest) && x !in kept + rest && SetOf(kept + [x] + rest) == SetOf(kept + rest) + {x}
  {
    var before, after := kept + [x] + rest, kept + rest;
    assert before[|kept|] == x;
    forall i | 0 <= i < |after| ensures after[i] == before[if i < |kept| then i else i + 1] {}
    forall i, j | 0 <= i < j < |after| ensures after[i] != after[j] {
      assert before[if i < |kept| then i else i + 1] != before[if j < |kept| then j else j + 1];
    }
    forall y ensures y in before <==> y in after || y == x {
      if y in after {
        var i :| 0 <= i < |after| && after[i] == y;
        assert before[if i < |kept| then i else i + 1] == y;
      }
    }
  }

  lemma {:induction false} DistinctIsMultiplicity<T>(xs: seq<T>)
    ensures Distinct(xs) <==> forall x :: multiset(xs)[x] <= 1
    decreases |xs|
  {
    if xs != [] {
      var rest := xs[1..];
      DistinctIsMultiplicity(rest);
      assert xs == [xs[0]] + rest;
      assert forall x :: multiset(xs)[x] == multiset(rest)[x] + if x == xs[0] then 1 else 0;
      assert Distinct(xs) <==> Distinct(rest) && xs[0] !in rest by {
        if Distinct(rest) && xs[0] !in rest {
          forall i, j | 0 <= i < j < |xs| ensures xs[i] != xs[j] {
            assert xs[j] == rest[j - 1];
          }
        }
        if Distinct(xs) {
          assert forall j | 0 <= j < |rest| :: rest[j] == xs[j + 1];
        }
      }
    }
  }

  lemma {:induction false} TwiceIsTwoPlaces<T>(s: seq<T>, x: T)
    requires multiset(s)[x] >= 2
    ensures exists i, j :: 0 <= i < j < |s| && s[i] == x && s[j] == x
    decreases |s|
  {
    assert s == [s[0]] + s[1..];
    if s[0] == x {
      assert x in multiset(s[1..]);
      var j :| 0 <= j < |s| - 1 && s[1..][j] == x;
      assert s[0] == x && s[j + 1] == x;
    } else {
      TwiceIsTwoPlaces(s[1..], x);
      var i, j :| 0 <= i < j < |s| - 1 && s[1..][i] == x && s[1..][j] == x;
      assert s[i + 1] == x && s[j + 1] == x;
    }
  }

  ghost predicate Pairwise<T(!new)>(s: seq<T>, related: (T, T) -> bool) {
    forall i, j :: 0 <= i < j < |s| ==> related(s[i], s[j])
  }

  // A symmetric relation between any two elements does not depend on their order.
  lemma PairwiseInAnyOrder<T(!new)>(s: seq<T>, t: seq<T>, related: (T, T) -> bool)
    requires multiset(s) == multiset(t) && Pairwise(s, related)
    requires forall x, y :: related(x, y) ==> related(y, x)
    ensures Pairwise(t, related)
  {
    forall i, j | 0 <= i < j < |t| ensures related(t[i], t[j]) {
      if t[i] == t[j] {
        assert t == t[..j] + [t[j]] + t[j + 1..] && t[i] in t[..j];
        assert multiset(t)[t[i]] >= 2;
        TwiceIsTwoPlaces(s, t[i]);
      } else {
        assert t[i] in multiset(s) && t[j] in multiset(s);
        var k :| 0 <= k < |s| && s[k] == t[i];
        var l :| 0 <= l < |s| && s[l] == t[j];
        if k < l { assert related(s[k], s[l]); } else { assert related(s[l], s[k]); }
      }
    }
  }

  lemma CancelOne<T>(a: multiset<T>, b: multiset<T>, x: T)
    requires a + multiset{x} == b + multiset{x}
    ensures a == b
  {
    assert a == (a + multiset{x}) - multiset{x};
    assert b == (b + multiset{x}) - multiset{x};
  }

  lemma TakeOutAt<T>(s: seq<T>, k: nat)
    requires k < |s|
    ensures multiset(s) == multiset(s[..k] + s[k + 1..]) + multiset{s[k]}
  {
    assert s == s[..k] + [s[k]] + s[k + 1..];
  }

  // The place of the first element of the one list in the other.
  lemma TakeOut<T>(s: seq<T>, t: seq<T>) returns (k: nat)
    requires t != [] && multiset(s) == multiset(t)
    ensures k < |s| && s[k] == t[0] && multiset(s[..k] + s[k + 1..]) == multiset(t[1..])
  {
    assert t[0] in multiset(s);
    k :| 0 <= k < |s| && s[k] == t[0];
    TakeOutAt(s, k);
    TakeOutAt(t, 0);
    assert t[..0] + t[1..] == t[1..];
    CancelOne(multiset(s[..k] + s[k + 1..]), multiset(t[1..]), t[0]);
  }

  lemma MembersInAnyOrder<T(!new)>(s: seq<T>, t: seq<T>)
    requires multiset(s) == multiset(t)
    ensures |s| == |t| && forall x :: x in s <==> x in t
  {
    assert |s| == |multiset(s)| && |t| == |multiset(t)|;
    forall x ensures x in s <==> x in t {
      assert x in s <==> x in multiset(s);
      assert x in t <==> x in multiset(t);
    }
  }

  // ----- sorting by a key -----------------------------------------------------------

  function Inserted<T>(x: T, s: seq<T>, key: T -> nat): seq<T> {
    if s == [] || key(x) <= key(s[0]) then [x] + s else [s[0]] + Inserted(x, s[1..], key)
  }

  // Elements with the same key keep their order.
  function SortedBy<T>(s: seq<T>, key: T -> nat): seq<T> {
    if s == [] then [] else Inserted(s[0], SortedBy(s[1..], key), key)
  }

  ghost predicate KeysRise<T>(s: seq<T>, key: T -> nat) {
    forall i, j :: 0 <= i < j < |s| ==> key(s[i]) <= key(s[j])
  }

  lemma HeadIsFirst<T(!new)>(s: seq<T>, key: T -> nat)
    requires KeysRise(s, key) && s != []
    ensures KeysRise(s[1..], key) && forall x | x in s :: key(s[0]) <= key(x)
  {
  }

  lemma PutInFront<T(!new)>(x: T, s: seq<T>, key: T -> nat)
    requires KeysRise(s, key) && forall y | y in s :: key(x) <= key(y)
    ensures KeysRise([x] + s, key)
  {
  }

  lemma {:induction false} InsertedIsSorted<T(!new)>(x: T, s: seq<T>, key: T -> nat)
    requires KeysRise(s, key)
    ensures KeysRise(Inserted(x, s, key), key)
    ensures multiset(Inserted(x, s, key)) == multiset([x] + s)
  {
    hide KeysRise;
    if s == [] {
      PutInFront(x, s, key);
    } else {
      HeadIsFirst(s, key);
      if key(x) <= key(s[0]) {
        PutInFront(x, s, key);
      } else {
        InsertedIsSorted(x, s[1..], key);
        var rest := Inserted(x, s[1..], key);
        MembersInAnyOrder(rest, [x] + s[1..]);
        forall y | y in rest ensures key(s[0]) <= key(y) {
          assert y == x || y in s;
        }
        PutInFront(s[0], rest, key);
        assert s == [s[0]] + s[1..];
      }
    }
  }

  /** Sorting loses nothing and puts smaller keys first. */
  lemma {:induction false} SortedByIsSorted<T(!new)>(s: seq<T>, key: T -> nat)
    ensures KeysRise(SortedBy(s, key), key) && multiset(SortedBy(s, key)) == multiset(s)
  {
    if s != [] {
      SortedByIsSorted(s[1..], key);
      InsertedIsSorted(s[0], SortedBy(s[1..], key), key);
      assert s == [s[0]] + s[1..];
      assert multiset([s[0]] + SortedBy(s[1..], key)) == multiset{s[0]} + multiset(SortedBy(s[1..], key));
    }
  }

  function Flatten<T>(xss: seq<seq<T>>): seq<T> {
    if xss == [] then [] else xss[0] + Flatten(xss[1..])
  }

  lemma {:induction false} FlattenMembers<T>(xss: seq<seq<T>>)
    ensures forall x :: x in Flatten(xss) <==> exists i :: 0 <= i < |xss| && x in xss[i]
  {
    if xss != [] {
      FlattenMembers(xss[1..]);
      forall x ensures x in Flatten(xss) <==> exists i :: 0 <= i < |xss| && x in xss[i] {
        if x in Flatten(xss[1..]) {
          var i :| 0 <= i < |xss| - 1 && x in xss[1..][i];
          assert x in xss[i + 1];
        }
        if exists i :: 0 <= i < |xss| && x in xss[i] {
          var i :| 0 <= i < |xss| && x in xss[i];
          if i > 0 { assert x in xss[1..][i - 1]; }
        }
      }
    }
  }

  lemma FlattenUnfolds<T>(xss: seq<seq<T>>)
    ensures Flatten(xss) == if xss == [] then [] else xss[0] + Flatten(xss[1..])
  {
  }

  lemma {:induction false} FlattenConcat<T>(a: seq<seq<T>>, b: seq<seq<T>>)
    ensures Flatten(a + b) == Flatten(a) + Flatten(b)
  {
    hide Flatten;
    FlattenUnfolds(a);
    if a == [] {
      assert a + b == b && [] + Flatten(b) == Flatten(b);
    } else {
      FlattenConcat(a[1..], b);
      FlattenUnfolds(a + b);
      assert (a + b)[0] == a[0] && (a + b)[1..] == a[1..] + b;
      assert a[0] + (Flatten(a[1..]) + Flatten(b)) == a[0] + Flatten(a[1..]) + Flatten(b);
    }
  }

  lemma FlattenOneMore<T>(xss: seq<seq<T>>, xs: seq<T>)
    ensures Flatten(xss + [xs]) == Flatten(xss) + xs
  {
    FlattenConcat(xss, [xs]);
    assert Flatten([xs]) == xs;
  }
}
