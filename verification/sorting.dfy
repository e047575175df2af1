/**
 * Stable sorting by a comparator, as `Array.prototype.sort` behaves since
 * ES2019. A comparator `cmp` is represented by `le(a, b)`, which holds when
 * `cmp(a, b) <= 0`, i.e. when `a` may stay in front of `b`. For a
 * consistent comparator `le` is a total preorder, and the stable sorted
 * permutation is the one `StableSort` computes.
 */
module Sorting {

  ghost predicate TotalPreorder<T(!new)>(le: (T, T) -> bool)
  {
    && (forall a, b :: le(a, b) || le(b, a))
    && (forall a, b, c :: le(a, b) && le(b, c) ==> le(a, c))
  }

  ghost predicate Sorted<T>(s: seq<T>, le: (T, T) -> bool)
  {
    forall i, j :: 0 <= i < j < |s| ==> le(s[i], s[j])
  }

  /** `a` and `b` compare equal: the comparator returns 0 both ways. */
  predicate Tie<T>(le: (T, T) -> bool, a: T, b: T)
  {
    le(a, b) && le(b, a)
  }

  /** The elements of `s` that compare equal to `y`, in their order in `s`. */
  function Ties<T>(s: seq<T>, y: T, le: (T, T) -> bool): (r: seq<T>)
    ensures |r| <= |s|
  {
    if s == [] then [] else (if Tie(le, s[0], y) then [s[0]] else []) + Ties(s[1..], y, le)
  }

  /** Stability: every class of equal elements appears in `r` in the order it has in `s`. */
  ghost predicate SameTies<T(!new)>(r: seq<T>, s: seq<T>, le: (T, T) -> bool)
  {
    forall y :: Ties(r, y, le) == Ties(s, y, le)
  }

  /** Among elements that compare equal, `R` holds of every earlier/later pair. */
  ghost predicate OrderedWithinTies<T>(s: seq<T>, le: (T, T) -> bool, R: (T, T) -> bool)
  {
    forall i, j :: 0 <= i < j < |s| && Tie(le, s[i], s[j]) ==> R(s[i], s[j])
  }

  /** Puts `x` in front of the first element it may precede. */
  function Insert<T>(x: T, s: seq<T>, le: (T, T) -> bool): seq<T>
  {
    if s == [] || le(x, s[0]) then [x] + s else [s[0]] + Insert(x, s[1..], le)
  }

  /** Insertion sort; `s[0]` is inserted in front of every element equal to it. */
  function StableSort<T>(s: seq<T>, le: (T, T) -> bool): seq<T>
  {
    if s == [] then [] else Insert(s[0], StableSort(s[1..], le), le)
  }

  lemma {:induction false} InsertPermutes<T>(x: T, s: seq<T>, le: (T, T) -> bool)
    ensures multiset(Insert(x, s, le)) == multiset(s) + multiset{x}
  {
    if s != [] && !le(x, s[0]) {
      InsertPermutes(x, s[1..], le);
      assert s == [s[0]] + s[1..];
    }
  }

  lemma {:induction false} InsertSorted<T(!new)>(x: T, s: seq<T>, le: (T, T) -> bool)
    requires TotalPreorder(le) && Sorted(s, le)
    ensures Sorted(Insert(x, s, le), le)
  {
    if s == [] || le(x, s[0]) {
      forall k | 0 <= k < |s| ensures le(x, s[k]) {
        if k > 0 { assert le(s[0], s[k]); }
      }
    } else {
      var t := Insert(x, s[1..], le);
      InsertSorted(x, s[1..], le);
      InsertPermutes(x, s[1..], le);
      forall k | 0 <= k < |t| ensures le(s[0], t[k]) {
        assert t[k] in multiset(t);
        if t[k] != x {
          assert t[k] in multiset(s[1..]);
          var m :| 0 <= m < |s[1..]| && s[1..][m] == t[k];
          assert le(s[0], s[m + 1]);
        }
      }
    }
  }

  /** An element that may not precede `z` cannot tie with anything `z` ties with. */
  lemma NotBothTies<T(!new)>(x: T, z: T, y: T, le: (T, T) -> bool)
    requires TotalPreorder(le) && !le(x, z)
    ensures !(Tie(le, x, y) && Tie(le, z, y))
  {
  }

  lemma {:induction false} InsertTies<T(!new)>(x: T, s: seq<T>, y: T, le: (T, T) -> bool)
    requires TotalPreorder(le)
    ensures Ties(Insert(x, s, le), y, le) == (if Tie(le, x, y) then [x] else []) + Ties(s, y, le)
  {
    if s == [] || le(x, s[0]) {
      assert ([x] + s)[1..] == s;
    } else {
      var t := Insert(x, s[1..], le);
      var tx := if Tie(le, x, y) then [x] else [];
      var ts := if Tie(le, s[0], y) then [s[0]] else [];
      calc {
        Ties(Insert(x, s, le), y, le);
        Ties([s[0]] + t, y, le);
        { assert ([s[0]] + t)[1..] == t; }
        ts + Ties(t, y, le);
        { InsertTies(x, s[1..], y, le); }
        ts + (tx + Ties(s[1..], y, le));
        { NotBothTies(x, s[0], y, le); assert ts + tx == tx + ts; }
        tx + (ts + Ties(s[1..], y, le));
        tx + Ties(s, y, le);
      }
    }
  }

  /**
   * The result of `StableSort` is sorted, is a permutation of its input, and
   * keeps every class of equal elements in input order.
   */
  lemma {:induction false} StableSortCorrect<T(!new)>(s: seq<T>, le: (T, T) -> bool)
    requires TotalPreorder(le)
    ensures Sorted(StableSort(s, le), le)
    ensures multiset(StableSort(s, le)) == multiset(s)
    ensures |StableSort(s, le)| == |s|
    ensures SameTies(StableSort(s, le), s, le)
  {
    if s != [] {
      StableSortCorrect(s[1..], le);
      InsertSorted(s[0], StableSort(s[1..], le), le);
      InsertPermutes(s[0], StableSort(s[1..], le), le);
      assert s == [s[0]] + s[1..];
      assert |multiset(StableSort(s, le))| == |multiset(s)|;
      forall y ensures Ties(StableSort(s, le), y, le) == Ties(s, y, le) {
        InsertTies(s[0], StableSort(s[1..], le), y, le);
      }
    }
  }

  /** Every element of `Ties(s, y, le)` comes from some position `i` of `s`. */
  lemma {:induction false} TieComesFrom<T>(s: seq<T>, y: T, le: (T, T) -> bool, b: nat) returns (i: nat)
    requires b < |Ties(s, y, le)|
    ensures i < |s| && s[i] == Ties(s, y, le)[b] && Tie(le, s[i], y)
  {
    var t, tail := Ties(s, y, le), s[1..];
    var rest := Ties(tail, y, le);
    if Tie(le, s[0], y) && b == 0 {
      i := 0;
    } else if Tie(le, s[0], y) {
      assert t == [s[0]] + rest;
      var i' := TieComesFrom(tail, y, le, b - 1);
      i := i' + 1;
    } else {
      assert t == rest;
      var i' := TieComesFrom(tail, y, le, b);
      i := i' + 1;
    }
  }

  /** Every element of `s` that ties with `y` is in `Ties(s, y, le)`, at some position `b`. */
  lemma {:induction false} TieGoesTo<T>(s: seq<T>, y: T, le: (T, T) -> bool, i: nat) returns (b: nat)
    requires i < |s| && Tie(le, s[i], y)
    ensures b < |Ties(s, y, le)| && Ties(s, y, le)[b] == s[i]
  {
    var t, tail := Ties(s, y, le), s[1..];
    var rest := Ties(tail, y, le);
    if i == 0 {
      b := 0;
    } else {
      var b' := TieGoesTo(tail, y, le, i - 1);
      if Tie(le, s[0], y) {
        assert t == [s[0]] + rest;
        b := b' + 1;
      } else {
        assert t == rest;
        b := b';
      }
    }
  }

  /** Two elements of `s` that tie with `y` appear in `Ties(s, y, le)` in the same order, at `a` and `b`. */
  lemma {:induction false} TiesKeepPositions<T>(s: seq<T>, y: T, le: (T, T) -> bool, i: nat, j: nat) returns (a: nat, b: nat)
    requires i < j < |s| && Tie(le, s[i], y) && Tie(le, s[j], y)
    ensures a < b < |Ties(s, y, le)| && Ties(s, y, le)[a] == s[i] && Ties(s, y, le)[b] == s[j]
  {
    var t, tail := Ties(s, y, le), s[1..];
    var rest := Ties(tail, y, le);
    if i == 0 {
      assert t == [s[0]] + rest;
      var m := TieGoesTo(tail, y, le, j - 1);
      a, b := 0, m + 1;
    } else {
      var a', b' := TiesKeepPositions(tail, y, le, i - 1, j - 1);
      if Tie(le, s[0], y) {
        assert t == [s[0]] + rest;
        a, b := a' + 1, b' + 1;
      } else {
        assert t == rest;
        a, b := a', b';
      }
    }
  }

  /** Two positions of `Ties(s, y, le)` come from two positions `i < j` of `s`. */
  lemma {:induction false} TiesComeInOrder<T>(s: seq<T>, y: T, le: (T, T) -> bool, a: nat, b: nat) returns (i: nat, j: nat)
    requires a < b < |Ties(s, y, le)|
    ensures i < j < |s| && s[i] == Ties(s, y, le)[a] && s[j] == Ties(s, y, le)[b]
  {
    var t, tail := Ties(s, y, le), s[1..];
    var rest := Ties(tail, y, le);
    if Tie(le, s[0], y) {
      assert t == [s[0]] + rest;
      if a == 0 {
        var m := TieComesFrom(tail, y, le, b - 1);
        i, j := 0, m + 1;
      } else {
        var i', j' := TiesComeInOrder(tail, y, le, a - 1, b - 1);
        i, j := i' + 1, j' + 1;
      }
    } else {
      assert t == rest;
      var i', j' := TiesComeInOrder(tail, y, le, a, b);
      i, j := i' + 1, j' + 1;
    }
  }

  /**
   * Stability transports any order among equal elements: if `s` orders its
   * equal elements by `R`, so does every `r` with the same ties.
   */
  lemma StableKeepsOrder<T(!new)>(r: seq<T>, s: seq<T>, le: (T, T) -> bool, R: (T, T) -> bool)
    requires TotalPreorder(le) && SameTies(r, s, le) && OrderedWithinTies(s, le, R)
    ensures OrderedWithinTies(r, le, R)
  {
    forall i, j | 0 <= i < j < |r| && Tie(le, r[i], r[j]) ensures R(r[i], r[j]) {
      var y := r[i];
      var a, b := TiesKeepPositions(r, y, le, i, j);
      assert Ties(r, y, le) == Ties(s, y, le);
      var i', j' := TiesComeInOrder(s, y, le, a, b);
    }
  }

  /** Two sorted arrangements of the same elements, where only identical elements tie, start alike. */
  lemma SortedHeadsAgree<T>(a: seq<T>, b: seq<T>, le: (T, T) -> bool)
    requires a != [] && multiset(a) == multiset(b)
    requires Sorted(a, le) && Sorted(b, le)
    requires forall x, y :: x in a && y in a && Tie(le, x, y) ==> x == y
    ensures b != [] && a[0] == b[0]
  {
    assert a[0] in multiset(b);
    var k :| 0 <= k < |b| && b[k] == a[0];
    assert b[0] in multiset(a);
    var m :| 0 <= m < |a| && a[m] == b[0];
    if k > 0 && m > 0 {
      assert le(b[0], b[k]) && le(a[0], a[m]);
      assert Tie(le, a[0], b[0]);
    }
  }

  /** Removing the same first element from two arrangements of the same elements leaves the same elements. */
  lemma TailsPermute<T>(a: seq<T>, b: seq<T>)
    requires a != [] && b != [] && a[0] == b[0] && multiset(a) == multiset(b)
    ensures multiset(a[1..]) == multiset(b[1..])
  {
    assert a == [a[0]] + a[1..];
    assert b == [b[0]] + b[1..];
    assert multiset(a[1..]) == multiset(a) - multiset{a[0]};
    assert multiset(b[1..]) == multiset(b) - multiset{b[0]};
  }

  /**
   * When only identical elements compare equal, sorting has one possible
   * outcome: two sorted arrangements of the same elements are equal.
   */
  lemma {:induction false} SortedUnique<T>(a: seq<T>, b: seq<T>, le: (T, T) -> bool)
    requires multiset(a) == multiset(b)
    requires Sorted(a, le) && Sorted(b, le)
    requires forall x, y :: x in a && y in a && Tie(le, x, y) ==> x == y
    ensures a == b
    decreases |a|
  {
    if a == [] {
      assert |b| == |multiset(b)| == 0;
    } else {
      SortedHeadsAgree(a, b, le);
      TailsPermute(a, b);
      forall x | x in a[1..] ensures x in a {
      }
      SortedUnique(a[1..], b[1..], le);
      assert a == [a[0]] + a[1..];
      assert b == [b[0]] + b[1..];
    }
  }
}
