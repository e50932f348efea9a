/**
 * The `SORTS` table: the identity, a stable ascending sort by title or author
 * (lodash `sortBy`), and the reverse of the stable ascending sort by comment
 * count or points (`sortBy(...).reverse()`).
 */
module Sorts {
  import opened Hits

  /** Every earlier element is `Leq` every later one. */
  ghost predicate Sorted(f: Field, s: seq<Hit>)
  {
    forall i, j :: 0 <= i < j < |s| ==> Leq(f, s[i], s[j])
  }

  /** Every later element is `Leq` every earlier one. */
  ghost predicate NonIncreasing(f: Field, s: seq<Hit>)
  {
    forall i, j :: 0 <= i < j < |s| ==> Leq(f, s[j], s[i])
  }

  /** The hits of `s`, in order, whose field `f` equals that of `k`. */
  function WithKey(f: Field, s: seq<Hit>, k: Hit): seq<Hit>
  {
    if s == [] then []
    else (if SameKey(f, s[0], k) then [s[0]] else []) + WithKey(f, s[1..], k)
  }

  /**
   * What a stable ascending sort by `f` promises: `r` is sorted, is a
   * permutation of `s`, and lists the hits of every tie class in the order
   * `s` lists them.
   */
  ghost predicate IsStableSortOf(f: Field, r: seq<Hit>, s: seq<Hit>)
  {
    && Sorted(f, r)
    && multiset(r) == multiset(s)
    && forall k :: WithKey(f, r, k) == WithKey(f, s, k)
  }

  /** `s` read back to front. */
  function Reverse(s: seq<Hit>): (r: seq<Hit>)
    ensures |r| == |s|
    ensures forall i :: 0 <= i < |s| ==> r[i] == s[|s| - 1 - i]
  {
    if s == [] then [] else Reverse(s[1..]) + [s[0]]
  }

  /** Places `x` in front of the first hit it does not sort after. */
  function Insert(f: Field, x: Hit, s: seq<Hit>): seq<Hit>
  {
    if s == [] then [x]
    else if Leq(f, x, s[0]) then [x] + s
    else [s[0]] + Insert(f, x, s[1..])
  }

  /** Stable ascending sort by field `f`: the model of lodash `sortBy(list, f)`. */
  function SortBy(f: Field, s: seq<Hit>): seq<Hit>
  {
    if s == [] then [] else Insert(f, s[0], SortBy(f, s[1..]))
  }

  /** The field a non-identity sort key compares. */
  function FieldOf(key: SortKey): Field
    requires key != NONE
  {
    match key
    case TITLE => Title
    case AUTHOR => Author
    case COMMENTS => Comments
    case POINTS => Points
  }

  /** `SORTS[key](list)`. */
  function Sort(key: SortKey, list: seq<Hit>): seq<Hit>
  {
    match key
    case NONE => list
    case TITLE => SortBy(Title, list)
    case AUTHOR => SortBy(Author, list)
    case COMMENTS => Reverse(SortBy(Comments, list))
    case POINTS => Reverse(SortBy(Points, list))
  }

  // ---------------------------------------------------------------------
  // Tie classes

  lemma SameKeyFacts(f: Field, a: Hit, b: Hit, c: Hit)
    ensures SameKey(f, a, a)
    ensures SameKey(f, a, b) ==> SameKey(f, b, a)
    ensures SameKey(f, a, b) && SameKey(f, b, c) ==> SameKey(f, a, c)
  {
  }

  lemma WithKeyCons(f: Field, x: Hit, s: seq<Hit>, k: Hit)
    ensures WithKey(f, [x] + s, k) == (if SameKey(f, x, k) then [x] else []) + WithKey(f, s, k)
  {
  }

  lemma {:induction false} WithKeyAppend(f: Field, a: seq<Hit>, b: seq<Hit>, k: Hit)
    ensures WithKey(f, a + b, k) == WithKey(f, a, k) + WithKey(f, b, k)
  {
    if a == [] {
      assert a + b == b;
    } else {
      assert a + b == [a[0]] + (a[1..] + b);
      WithKeyCons(f, a[0], a[1..] + b, k);
      WithKeyAppend(f, a[1..], b, k);
    }
  }

  lemma {:induction false} WithKeyMember(f: Field, s: seq<Hit>, k: Hit, x: Hit)
    requires x in WithKey(f, s, k)
    ensures x in s && SameKey(f, x, k)
  {
    assert s != [];
    if !(SameKey(f, s[0], k) && x == s[0]) {
      assert x in WithKey(f, s[1..], k);
      WithKeyMember(f, s[1..], k, x);
    }
  }

  // ---------------------------------------------------------------------
  // The stable sort

  lemma {:induction false} InsertSorted(f: Field, x: Hit, s: seq<Hit>)
    requires Sorted(f, s)
    ensures Sorted(f, Insert(f, x, s))
  {
    if s == [] {
    } else if Leq(f, x, s[0]) {
      forall j | 0 < j < |s| ensures Leq(f, x, s[j]) {
        LeqTrans(f, x, s[0], s[j]);
      }
    } else {
      var t := Insert(f, x, s[1..]);
      InsertSorted(f, x, s[1..]);
      InsertMultiset(f, x, s[1..]);
      LeqTotal(f, x, s[0]);
      forall j | 0 <= j < |t| ensures Leq(f, s[0], t[j]) {
        assert t[j] in multiset(t);
        if t[j] != x {
          assert t[j] in multiset(s[1..]);
          var i :| 0 <= i < |s[1..]| && s[1..][i] == t[j];
          assert s[i + 1] == t[j];
        }
      }
    }
  }

  /** Two hits tied with the same hit are tied with each other, so neither sorts after the other. */
  lemma TiedIsLeq(f: Field, x: Hit, y: Hit, k: Hit)
    ensures SameKey(f, x, k) && SameKey(f, y, k) ==> Leq(f, x, y)
  {
    SameKeyFacts(f, y, k, y);
    SameKeyFacts(f, x, k, y);
    LeqBothWays(f, x, y);
  }

  lemma {:induction false} InsertMultiset(f: Field, x: Hit, s: seq<Hit>)
    ensures multiset(Insert(f, x, s)) == multiset(s) + multiset{x}
  {
    if s != [] && !Leq(f, x, s[0]) {
      InsertMultiset(f, x, s[1..]);
      assert s == [s[0]] + s[1..];
    }
  }

  /** `SortBy` returns a permutation of its input. */
  lemma {:induction false} SortByMultiset(f: Field, s: seq<Hit>)
    ensures multiset(SortBy(f, s)) == multiset(s)
  {
    if s != [] {
      SortByMultiset(f, s[1..]);
      InsertMultiset(f, s[0], SortBy(f, s[1..]));
      assert s == [s[0]] + s[1..];
    }
  }

  /** The step of `InsertWithKey` where `x` moves past the head of `s`. */
  lemma InsertWithKeyPassing(f: Field, x: Hit, s: seq<Hit>, k: Hit)
    requires s != [] && !Leq(f, x, s[0])
    requires WithKey(f, Insert(f, x, s[1..]), k)
             == (if SameKey(f, x, k) then [x] else []) + WithKey(f, s[1..], k)
    ensures WithKey(f, Insert(f, x, s), k)
            == (if SameKey(f, x, k) then [x] else []) + WithKey(f, s, k)
  {
    var t := Insert(f, x, s[1..]);
    var w := WithKey(f, s[1..], k);
    var a: seq<Hit> := if SameKey(f, x, k) then [x] else [];
    var b: seq<Hit> := if SameKey(f, s[0], k) then [s[0]] else [];
    assert WithKey(f, Insert(f, x, s), k) == b + (a + w) by {
      assert Insert(f, x, s) == [s[0]] + t;
      WithKeyCons(f, s[0], t, k);
    }
    assert WithKey(f, s, k) == b + w by {
      assert s == [s[0]] + s[1..];
      WithKeyCons(f, s[0], s[1..], k);
    }
    // A hit tied with `x` cannot be passed over on the way in.
    assert a == [] || b == [] by {
      TiedIsLeq(f, x, s[0], k);
    }
    SwapEmptyFront(a, b, w);
  }

  lemma SwapEmptyFront(a: seq<Hit>, b: seq<Hit>, w: seq<Hit>)
    requires a == [] || b == []
    ensures b + (a + w) == a + (b + w)
  {
  }

  lemma {:induction false} InsertWithKey(f: Field, x: Hit, s: seq<Hit>, k: Hit)
    ensures WithKey(f, Insert(f, x, s), k)
            == (if SameKey(f, x, k) then [x] else []) + WithKey(f, s, k)
  {
    if s == [] {
      assert Insert(f, x, s) == [x] + [];
      WithKeyCons(f, x, [], k);
    } else if Leq(f, x, s[0]) {
      WithKeyCons(f, x, s, k);
    } else {
      InsertWithKey(f, x, s[1..], k);
      InsertWithKeyPassing(f, x, s, k);
    }
  }

  lemma {:induction false} SortBySorted(f: Field, s: seq<Hit>)
    ensures Sorted(f, SortBy(f, s))
  {
    if s != [] {
      SortBySorted(f, s[1..]);
      InsertSorted(f, s[0], SortBy(f, s[1..]));
    }
  }

  lemma {:induction false} SortByWithKey(f: Field, s: seq<Hit>, k: Hit)
    ensures WithKey(f, SortBy(f, s), k) == WithKey(f, s, k)
  {
    if s != [] {
      SortByWithKey(f, s[1..], k);
      InsertWithKey(f, s[0], SortBy(f, s[1..]), k);
    }
  }

  /** `SortBy` is a stable ascending sort. */
  lemma SortByIsStableSort(f: Field, s: seq<Hit>)
    ensures IsStableSortOf(f, SortBy(f, s), s)
  {
    SortBySorted(f, s);
    SortByMultiset(f, s);
    forall k ensures WithKey(f, SortBy(f, s), k) == WithKey(f, s, k) {
      SortByWithKey(f, s, k);
    }
  }

  /** The head of a non-empty list opens its own tie class. */
  lemma HeadInOwnClass(f: Field, u: seq<Hit>)
    requires u != []
    ensures WithKey(f, u, u[0]) == [u[0]] + WithKey(f, u[1..], u[0])
  {
  }

  /** With the same tie classes, the head of sorted `t` sorts no later than the head of `u`. */
  lemma HeadNoLater(f: Field, t: seq<Hit>, u: seq<Hit>)
    requires Sorted(f, t) && t != [] && u != []
    requires WithKey(f, t, u[0]) == WithKey(f, u, u[0])
    ensures Leq(f, t[0], u[0])
  {
    HeadInOwnClass(f, u);
    var w := WithKey(f, t, u[0])[0];
    WithKeyMember(f, t, u[0], w);
    var i :| 0 <= i < |t| && t[i] == w;
    LeqBothWays(f, t[0], t[0]);
    assert Leq(f, t[0], w);
    LeqBothWays(f, w, u[0]);
    LeqTrans(f, t[0], w, u[0]);
  }

  /** With the same tie classes, two sorted non-empty lists start with the same hit. */
  lemma HeadsEqual(f: Field, t: seq<Hit>, u: seq<Hit>)
    requires Sorted(f, t) && Sorted(f, u) && t != [] && u != []
    requires WithKey(f, t, u[0]) == WithKey(f, u, u[0])
    requires WithKey(f, t, t[0]) == WithKey(f, u, t[0])
    ensures t[0] == u[0]
  {
    HeadNoLater(f, t, u);
    HeadNoLater(f, u, t);
    LeqBothWays(f, t[0], u[0]);
    SameKeyFacts(f, t[0], u[0], t[0]);
    HeadInOwnClass(f, t);
    assert u == [u[0]] + u[1..];
    WithKeyCons(f, u[0], u[1..], t[0]);
    assert WithKey(f, u, t[0])[0] == u[0];
  }

  /** Removing the same head from both lists keeps their tie classes equal. */
  lemma TailsSameClasses(f: Field, t: seq<Hit>, u: seq<Hit>, k: Hit)
    requires t != [] && u != [] && t[0] == u[0]
    requires WithKey(f, t, k) == WithKey(f, u, k)
    ensures WithKey(f, t[1..], k) == WithKey(f, u[1..], k)
  {
    assert t == [t[0]] + t[1..] && u == [u[0]] + u[1..];
    WithKeyCons(f, t[0], t[1..], k);
    WithKeyCons(f, u[0], u[1..], k);
    var head := if SameKey(f, t[0], k) then [t[0]] else [];
    var a, b := WithKey(f, t[1..], k), WithKey(f, u[1..], k);
    assert head + a == head + b;
    assert (head + a)[|head|..] == a && (head + b)[|head|..] == b;
  }

  /** Two sorted lists with the same tie classes, each in the same order, are equal. */
  lemma {:induction false} SortedSameClassesEqual(f: Field, t: seq<Hit>, u: seq<Hit>)
    requires Sorted(f, t) && Sorted(f, u)
    requires forall k :: WithKey(f, t, k) == WithKey(f, u, k)
    ensures t == u
    decreases |t|
  {
    if t == [] && u != [] {
      HeadInOwnClass(f, u);
    } else if t != [] && u == [] {
      HeadInOwnClass(f, t);
    } else if t != [] {
      HeadsEqual(f, t, u);
      forall k ensures WithKey(f, t[1..], k) == WithKey(f, u[1..], k) {
        TailsSameClasses(f, t, u, k);
      }
      SortedSameClassesEqual(f, t[1..], u[1..]);
      assert t == [t[0]] + t[1..] && u == [u[0]] + u[1..];
    }
  }

  /** The stable ascending sort is unique: `SortBy` is the only result the contract allows. */
  lemma StableSortUnique(f: Field, s: seq<Hit>, r: seq<Hit>)
    requires IsStableSortOf(f, r, s)
    ensures r == SortBy(f, s)
  {
    SortByIsStableSort(f, s);
    SortedSameClassesEqual(f, r, SortBy(f, s));
  }

  // ---------------------------------------------------------------------
  // Reversal

  lemma {:induction false} ReverseMultiset(s: seq<Hit>)
    ensures multiset(Reverse(s)) == multiset(s)
  {
    if s != [] {
      ReverseMultiset(s[1..]);
      assert s == [s[0]] + s[1..];
    }
  }

  lemma {:induction false} ReverseWithKey(f: Field, s: seq<Hit>, k: Hit)
    ensures WithKey(f, Reverse(s), k) == Reverse(WithKey(f, s, k))
  {
    if s != [] {
      ReverseWithKey(f, s[1..], k);
      WithKeyAppend(f, Reverse(s[1..]), [s[0]], k);
      var w := WithKey(f, s[1..], k);
      if SameKey(f, s[0], k) {
        assert ([s[0]] + w)[1..] == w;
        assert WithKey(f, [s[0]], k) == [s[0]];
      } else {
        assert WithKey(f, [s[0]], k) == [];
        assert [] + w == w;
      }
    }
  }

  lemma ReverseOfSortedIsNonIncreasing(f: Field, s: seq<Hit>)
    requires Sorted(f, s)
    ensures NonIncreasing(f, Reverse(s))
  {
  }

  // ---------------------------------------------------------------------
  // The table

  /** Every entry of `SORTS` returns a permutation of its input; NONE returns the input itself. */
  lemma SortIsPermutation(key: SortKey, list: seq<Hit>)
    ensures multiset(Sort(key, list)) == multiset(list)
    ensures key == NONE ==> Sort(key, list) == list
  {
    if key != NONE {
      SortByMultiset(FieldOf(key), list);
    }
    if key == COMMENTS || key == POINTS {
      ReverseMultiset(SortBy(FieldOf(key), list));
    }
  }

  /** TITLE and AUTHOR: sorted ascending by that field, ties in input order. */
  lemma SortAscending(key: SortKey, list: seq<Hit>)
    requires key == TITLE || key == AUTHOR
    ensures IsStableSortOf(FieldOf(key), Sort(key, list), list)
  {
    SortByIsStableSort(FieldOf(key), list);
  }

  /**
   * COMMENTS and POINTS: the reverse of the stable ascending sort, so the
   * result is non-increasing and every tie class comes out in reverse of its
   * input order.
   */
  lemma SortDescending(key: SortKey, list: seq<Hit>)
    requires key == COMMENTS || key == POINTS
    ensures Sort(key, list) == Reverse(SortBy(FieldOf(key), list))
    ensures NonIncreasing(FieldOf(key), Sort(key, list))
    ensures multiset(Sort(key, list)) == multiset(list)
    ensures forall k :: WithKey(FieldOf(key), Sort(key, list), k) == Reverse(WithKey(FieldOf(key), list, k))
  {
    var f := FieldOf(key);
    var s := SortBy(f, list);
    SortByIsStableSort(f, list);
    ReverseOfSortedIsNonIncreasing(f, s);
    ReverseMultiset(s);
    forall k ensures WithKey(f, Reverse(s), k) == Reverse(WithKey(f, list, k)) {
      ReverseWithKey(f, s, k);
    }
  }
}
