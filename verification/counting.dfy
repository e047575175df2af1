/**
 * The count-by-key pattern shared by the category, top-attackers and
 * targeted-ports charts: a `forEach` loop fills a plain object with counts,
 * `Object.entries` lists its `[key, count]` pairs, a stable sort orders them
 * by count, largest first, and the ports and attackers charts keep the
 * first ten.
 *
 * Keys are strings, as JavaScript object keys are. `Object.entries` lists
 * the keys that are array indices first, in ascending numeric order, and
 * every other key afterwards in the order it was first added.
 */
module Counting {
  import opened Seqs
  import opened Sorting
  import opened Text

  /** One `[key, count]` pair of `Object.entries`. */
  datatype Entry = Entry(key: string, count: nat)

  /** What a bar chart is given: the `labels` and the `data` arrays. */
  datatype Series = Series(labels: seq<string>, counts: seq<nat>)

  /** The distinct keys of `keys`, in order of first occurrence. */
  function FirstSeen(keys: seq<string>): (r: seq<string>)
    ensures forall i, j :: 0 <= i < j < |r| ==> r[i] != r[j]
    ensures forall k :: k in r <==> k in keys
  {
    if keys == [] then []
    else
      var seen := FirstSeen(keys[..|keys| - 1]);
      var last := keys[|keys| - 1];
      assert keys == keys[..|keys| - 1] + [last];
      if last in seen then seen else seen + [last]
  }

  /** `FirstSeen` has one element per distinct key: its length is the size of `new Set(keys)`. */
  lemma {:induction false} FirstSeenSize(keys: seq<string>)
    ensures |FirstSeen(keys)| == |set k | k in keys|
  {
    if keys != [] {
      var prefix, last := keys[..|keys| - 1], keys[|keys| - 1];
      assert keys == prefix + [last];
      FirstSeenSize(prefix);
      SetOfSnoc(prefix, last);
      if last !in prefix {
        assert last !in (set k | k in prefix);
      } else {
        assert (set k | k in keys) == (set k | k in prefix);
      }
    }
  }

  /** The position of the first `k` in `keys`, or `|keys|` when there is none. */
  function FirstIndex(keys: seq<string>, k: string): (r: nat)
    ensures r <= |keys|
    ensures r < |keys| <==> k in keys
    ensures r < |keys| ==> keys[r] == k
    ensures forall i :: 0 <= i < r ==> keys[i] != k
  {
    if keys == [] then 0 else if keys[0] == k then 0 else 1 + FirstIndex(keys[1..], k)
  }

  lemma {:induction false} FirstIndexSnoc(keys: seq<string>, x: string, k: string)
    requires k in keys + [x]
    ensures FirstIndex(keys + [x], k) == if k in keys then FirstIndex(keys, k) else |keys|
  {
    if keys != [] && keys[0] != k {
      assert (keys + [x])[1..] == keys[1..] + [x];
      FirstIndexSnoc(keys[1..], x, k);
    }
  }

  /** `FirstSeen` lists the keys in the order of their first occurrences. */
  lemma {:induction false} FirstSeenOrder(keys: seq<string>)
    ensures forall i, j :: 0 <= i < j < |FirstSeen(keys)| ==>
              FirstIndex(keys, FirstSeen(keys)[i]) < FirstIndex(keys, FirstSeen(keys)[j])
  {
    if keys != [] {
      var prefix, last := keys[..|keys| - 1], keys[|keys| - 1];
      assert keys == prefix + [last];
      FirstSeenOrder(prefix);
      var seen := FirstSeen(prefix);
      forall k | k in seen ensures FirstIndex(keys, k) == FirstIndex(prefix, k) < |prefix| {
        FirstIndexSnoc(prefix, last, k);
      }
      if last !in seen {
        FirstIndexSnoc(prefix, last, last);
      }
    }
  }

  /**
   * The object the counting loop builds, key by key: a key seen for the
   * first time gets 1, a key seen before gets its count plus one.
   */
  function Tally(keys: seq<string>): (m: map<string, nat>)
    ensures forall k :: k in m <==> k in keys
  {
    if keys == [] then map[]
    else
      var m := Tally(keys[..|keys| - 1]);
      var last := keys[|keys| - 1];
      assert keys == keys[..|keys| - 1] + [last];
      m[last := (if last in m then m[last] else 0) + 1]
  }

  /** Each key's tally is its number of occurrences. */
  lemma {:induction false} TallyCounts(keys: seq<string>, k: string)
    requires k in keys
    ensures k in Tally(keys) && Tally(keys)[k] == multiset(keys)[k]
  {
    var prefix, last := keys[..|keys| - 1], keys[|keys| - 1];
    assert keys == prefix + [last];
    if k in prefix {
      TallyCounts(prefix, k);
    }
  }

  /** One step of the counting loop, on the specifications: what visiting `keys[i]` adds. */
  lemma CountStep(keys: seq<string>, i: nat)
    requires i < |keys|
    ensures var m, seen, key := Tally(keys[..i]), FirstSeen(keys[..i]), keys[i];
      && (key in m <==> key in seen)
      && Tally(keys[..i + 1]) == m[key := (if key in m then m[key] else 0) + 1]
      && FirstSeen(keys[..i + 1]) == if key in seen then seen else seen + [key]
  {
    var next := keys[..i + 1];
    assert next[..|next| - 1] == keys[..i] && next[|next| - 1] == keys[i];
  }

  /**
   * The `forEach` loop of the three count charts: a missing key is first set
   * to 0 (which adds it at the end of the object's key order), then the
   * key's count is incremented. `order` is the object's key order.
   */
  method CountBy(keys: seq<string>) returns (counts: map<string, nat>, order: seq<string>)
    ensures counts == Tally(keys)
    ensures order == FirstSeen(keys)
  {
    counts, order := map[], [];
    for i := 0 to |keys|
      invariant counts == Tally(keys[..i])
      invariant order == FirstSeen(keys[..i])
    {
      var key := keys[i];
      CountStep(keys, i);
      if key !in counts {
        counts := counts[key := 0];
        order := order + [key];
      }
      counts := counts[key := counts[key] + 1];
    }
    assert keys[..|keys|] == keys;
  }

  /** The `[key, count]` pairs of `counts`, in the key order `order`. */
  function Pairs(order: seq<string>, counts: map<string, nat>): (r: seq<Entry>)
    requires forall k :: k in order ==> k in counts
    ensures |r| == |order|
    ensures forall i :: 0 <= i < |r| ==> r[i] == Entry(order[i], counts[order[i]])
  {
    if order == [] then [] else [Entry(order[0], counts[order[0]])] + Pairs(order[1..], counts)
  }

  predicate IsIndexEntry(e: Entry)
  {
    IsArrayIndex(e.key)
  }

  predicate IsNamedEntry(e: Entry)
  {
    !IsArrayIndex(e.key)
  }

  /** Ascending numeric order of array-index keys. */
  predicate ByIndex(a: Entry, b: Entry)
  {
    DigitsValue(a.key) <= DigitsValue(b.key)
  }

  /** The charts' comparator `(a, b) => b[1] - a[1]`, as "returns <= 0". */
  predicate ByCountDesc(a: Entry, b: Entry)
  {
    b.count - a.count <= 0
  }

  /** `Object.entries(counts)` for an object whose keys were added in the order `order`. */
  function ObjectEntries(order: seq<string>, counts: map<string, nat>): seq<Entry>
    requires forall k :: k in order ==> k in counts
  {
    var pairs := Pairs(order, counts);
    StableSort(Filter(pairs, IsIndexEntry), ByIndex) + Filter(pairs, IsNamedEntry)
  }

  /** `Object.entries` of the object the counting loop builds from `keys`. */
  function CountEntries(keys: seq<string>): seq<Entry>
  {
    ObjectEntries(FirstSeen(keys), Tally(keys))
  }

  /** `Object.entries(...).sort((a, b) => b[1] - a[1])`. */
  function SortedCounts(keys: seq<string>): seq<Entry>
  {
    StableSort(CountEntries(keys), ByCountDesc)
  }

  /**
   * The shared body of the three count charts: the counting loop, then
   * `Object.entries(counts).sort((a, b) => b[1] - a[1])`.
   */
  method CountAndSort(keys: seq<string>) returns (sorted: seq<Entry>)
    ensures sorted == SortedCounts(keys)
  {
    var counts, order := CountBy(keys);
    sorted := StableSort(ObjectEntries(order, counts), ByCountDesc);
  }

  /** `.slice(0, k)` of the sorted entries: the `k` most frequent keys. */
  function TopCounts(keys: seq<string>, k: nat): seq<Entry>
  {
    Take(SortedCounts(keys), k)
  }

  /** The keys of `es`, in order (the charts' `labels`). */
  function KeysOf(es: seq<Entry>): (r: seq<string>)
    ensures |r| == |es|
    ensures forall i :: 0 <= i < |es| ==> r[i] == es[i].key
  {
    seq(|es|, i requires 0 <= i < |es| => es[i].key)
  }

  /** The counts of `es`, in order (the charts' `data`). */
  function CountsOf(es: seq<Entry>): (r: seq<nat>)
    ensures |r| == |es|
    ensures forall i :: 0 <= i < |es| ==> r[i] == es[i].count
  {
    seq(|es|, i requires 0 <= i < |es| => es[i].count)
  }

  function SumCounts(es: seq<Entry>): nat
  {
    if es == [] then 0 else es[0].count + SumCounts(es[1..])
  }

  /** The charts' `data` array adds up to the entries' counts. */
  lemma {:induction false} SumOfCountsOf(es: seq<Entry>)
    ensures Sum(CountsOf(es)) == SumCounts(es)
  {
    if es != [] {
      assert CountsOf(es)[1..] == CountsOf(es[1..]);
      SumOfCountsOf(es[1..]);
    }
  }

  ghost predicate DistinctKeys(es: seq<Entry>)
  {
    forall i, j :: 0 <= i < j < |es| ==> es[i].key != es[j].key
  }

  /** Each entry of `es` is a key of `keys` paired with its number of occurrences, and no key appears twice. */
  ghost predicate CountedFrom(es: seq<Entry>, keys: seq<string>)
  {
    && DistinctKeys(es)
    && (forall i :: 0 <= i < |es| ==> es[i].key in keys && es[i].count == multiset(keys)[es[i].key])
  }

  /** `es` holds each distinct key of `keys` exactly once, paired with its number of occurrences. */
  ghost predicate CountOf(es: seq<Entry>, keys: seq<string>)
  {
    CountedFrom(es, keys) && (forall k :: k in keys ==> k in KeysOf(es))
  }

  /** The counts of `es` never increase from one entry to a later one. */
  ghost predicate NonIncreasing(es: seq<Entry>)
  {
    forall i, j :: 0 <= i < j < |es| ==> es[i].count >= es[j].count
  }

  /** The labels and counts projected from counted, non-increasing entries. */
  lemma SeriesOfCounts(es: seq<Entry>, keys: seq<string>)
    requires CountedFrom(es, keys) && NonIncreasing(es)
    ensures var labels, counts := KeysOf(es), CountsOf(es);
      && (forall i :: 0 <= i < |labels| ==> labels[i] in keys && counts[i] == multiset(keys)[labels[i]])
      && (forall i, j :: 0 <= i < j < |labels| ==> labels[i] != labels[j] && counts[i] >= counts[j])
  {
  }

  lemma ByIndexIsPreorder()
    ensures TotalPreorder(ByIndex)
  {
  }

  lemma ByCountDescIsPreorder()
    ensures TotalPreorder(ByCountDesc)
  {
  }

  lemma {:induction false} SumCountsAppend(a: seq<Entry>, b: seq<Entry>)
    ensures SumCounts(a + b) == SumCounts(a) + SumCounts(b)
  {
    if a == [] {
      assert a + b == b;
    } else {
      assert (a + b)[1..] == a[1..] + b;
      SumCountsAppend(a[1..], b);
    }
  }

  /** `b` without its element at position `i`. */
  function RemoveAt(b: seq<Entry>, i: nat): (r: seq<Entry>)
    requires i < |b|
    ensures |r| == |b| - 1
  {
    b[..i] + b[i + 1..]
  }

  /** Removing the element at position `i` takes its count off the total. */
  lemma {:induction false} SumCountsRemove(b: seq<Entry>, i: nat)
    requires i < |b|
    ensures SumCounts(b) == b[i].count + SumCounts(RemoveAt(b, i))
  {
    var before, after := b[..i], b[i + 1..];
    assert b == before + ([b[i]] + after);
    SumCountsAppend(before, [b[i]] + after);
    assert ([b[i]] + after)[1..] == after;
    SumCountsAppend(before, after);
  }

  /** Removing the element at position `i` takes one copy of it off the multiset. */
  lemma MultisetRemove(b: seq<Entry>, i: nat)
    requires i < |b|
    ensures multiset(RemoveAt(b, i)) == multiset(b) - multiset{b[i]}
  {
    assert b == b[..i] + [b[i]] + b[i + 1..];
  }

  /** The total of the counts does not depend on the order of the entries. */
  lemma {:induction false} SumCountsPermutation(a: seq<Entry>, b: seq<Entry>)
    requires multiset(a) == multiset(b)
    ensures SumCounts(a) == SumCounts(b)
    decreases |a|
  {
    if a != [] {
      assert a[0] in multiset(b);
      var i :| 0 <= i < |b| && b[i] == a[0];
      SumCountsRemove(a, 0);
      SumCountsRemove(b, i);
      MultisetRemove(a, 0);
      MultisetRemove(b, i);
      SumCountsPermutation(RemoveAt(a, 0), RemoveAt(b, i));
    }
  }

  lemma {:induction false} TwoCopies(s: seq<Entry>, x: Entry)
    requires multiset(s)[x] >= 2
    ensures exists i, j :: 0 <= i < j < |s| && s[i] == x && s[j] == x
  {
    assert s == [s[0]] + s[1..];
    if s[0] == x {
      assert x in multiset(s[1..]);
      var j :| 0 <= j < |s[1..]| && s[1..][j] == x;
      assert s[j + 1] == x;
    } else {
      TwoCopies(s[1..], x);
      var i, j :| 0 <= i < j < |s[1..]| && s[1..][i] == x && s[1..][j] == x;
      assert s[i + 1] == x && s[j + 1] == x;
    }
  }

  /** Two positions of a sequence hold two copies of the element, so it occurs at least twice. */
  lemma TwoPositions(b: seq<Entry>, i: nat, j: nat)
    requires i < j < |b| && b[i] == b[j]
    ensures multiset(b)[b[i]] >= 2
  {
    assert b == b[..j] + b[j..];
    assert b[i] in multiset(b[..j]) && b[j] in multiset(b[j..]);
  }

  lemma PermutationKeepsDistinctKeys(a: seq<Entry>, b: seq<Entry>)
    requires multiset(a) == multiset(b) && DistinctKeys(a)
    ensures DistinctKeys(b)
  {
    forall i, j | 0 <= i < j < |b| ensures b[i].key != b[j].key {
      assert b[i] in multiset(a) && b[j] in multiset(a);
      var m :| 0 <= m < |a| && a[m] == b[i];
      var n :| 0 <= n < |a| && a[n] == b[j];
      if b[i] == b[j] {
        TwoPositions(b, i, j);
        TwoCopies(a, b[i]);
      }
    }
  }

  /** Reordering entries keeps them a correct count of `keys`, with the same length and total. */
  lemma PermutationKeepsCounts(a: seq<Entry>, b: seq<Entry>, keys: seq<string>)
    requires multiset(a) == multiset(b) && CountOf(a, keys)
    ensures CountOf(b, keys) && |b| == |a| && SumCounts(b) == SumCounts(a)
  {
    PermutationKeepsDistinctKeys(a, b);
    forall i | 0 <= i < |b| ensures b[i].key in keys && b[i].count == multiset(keys)[b[i].key] {
      assert b[i] in multiset(a);
    }
    forall k | k in keys ensures k in KeysOf(b) {
      var m :| 0 <= m < |a| && KeysOf(a)[m] == k;
      assert a[m] in multiset(b);
      var n :| 0 <= n < |b| && b[n] == a[m];
      assert KeysOf(b)[n] == k;
    }
    assert |multiset(a)| == |multiset(b)|;
    SumCountsPermutation(a, b);
  }

  lemma {:induction false} PairsSnoc(order: seq<string>, k: string, counts: map<string, nat>)
    requires forall x :: x in order + [k] ==> x in counts
    ensures Pairs(order + [k], counts) == Pairs(order, counts) + [Entry(k, counts[k])]
  {
  }

  /** Adding one occurrence of `x` adds one to the total exactly when `x` is listed. */
  lemma {:induction false} PairsSumAddOne(order: seq<string>, c: map<string, nat>, c': map<string, nat>, x: string)
    requires forall i, j :: 0 <= i < j < |order| ==> order[i] != order[j]
    requires forall k :: k in order ==> k in c && k in c' && c'[k] == c[k] + (if k == x then 1 else 0)
    ensures SumCounts(Pairs(order, c')) == SumCounts(Pairs(order, c)) + (if x in order then 1 else 0)
  {
    if order != [] {
      PairsSumAddOne(order[1..], c, c', x);
      assert order[0] !in order[1..];
    }
  }

  /** Counting `keys` accounts for every element exactly once. */
  lemma {:induction false} FirstSeenSum(keys: seq<string>)
    ensures SumCounts(Pairs(FirstSeen(keys), Tally(keys))) == |keys|
  {
    if keys != [] {
      var prefix, last := keys[..|keys| - 1], keys[|keys| - 1];
      assert keys == prefix + [last];
      FirstSeenSum(prefix);
      var seen := FirstSeen(prefix);
      PairsSumAddOne(seen, Tally(prefix), Tally(keys), last);
      if last !in seen {
        PairsSnoc(seen, last, Tally(keys));
        SumCountsAppend(Pairs(seen, Tally(keys)), [Entry(last, 1)]);
      }
    }
  }

  /** The pairs in first-seen order are a correct count of `keys`. */
  lemma FirstSeenCounts(keys: seq<string>)
    ensures CountOf(Pairs(FirstSeen(keys), Tally(keys)), keys)
    ensures SumCounts(Pairs(FirstSeen(keys), Tally(keys))) == |keys|
  {
    var seen := FirstSeen(keys);
    var pairs := Pairs(seen, Tally(keys));
    forall i | 0 <= i < |pairs| ensures pairs[i].key in keys && pairs[i].count == multiset(keys)[pairs[i].key] {
      TallyCounts(keys, seen[i]);
    }
    assert KeysOf(pairs) == seen;
    FirstSeenSum(keys);
  }

  /** `Object.entries` lists every pair of the object exactly once. */
  lemma ObjectEntriesPermutes(order: seq<string>, counts: map<string, nat>)
    requires forall k :: k in order ==> k in counts
    ensures multiset(ObjectEntries(order, counts)) == multiset(Pairs(order, counts))
  {
    var pairs := Pairs(order, counts);
    ByIndexIsPreorder();
    StableSortCorrect(Filter(pairs, IsIndexEntry), ByIndex);
    FilterPartition(pairs, IsIndexEntry, IsNamedEntry);
  }

  /** When no key is an array index, `Object.entries` keeps insertion order. */
  lemma ObjectEntriesInsertionOrder(order: seq<string>, counts: map<string, nat>)
    requires forall k :: k in order ==> k in counts && !IsArrayIndex(k)
    ensures ObjectEntries(order, counts) == Pairs(order, counts)
  {
    var pairs := Pairs(order, counts);
    FilterAll(pairs, IsNamedEntry);
    FilterNone(pairs, IsIndexEntry);
  }

  /** When every key is an array index, `Object.entries` lists them in ascending numeric order. */
  lemma ObjectEntriesAscending(order: seq<string>, counts: map<string, nat>)
    requires forall k :: k in order ==> k in counts && IsArrayIndex(k)
    ensures Sorted(ObjectEntries(order, counts), ByIndex)
  {
    var pairs := Pairs(order, counts);
    FilterAll(pairs, IsIndexEntry);
    FilterNone(pairs, IsNamedEntry);
    ByIndexIsPreorder();
    StableSortCorrect(pairs, ByIndex);
  }

  /** `Object.entries` of the counting object: one entry per distinct key, with its count. */
  lemma CountEntriesCorrect(keys: seq<string>)
    ensures CountOf(CountEntries(keys), keys)
    ensures |CountEntries(keys)| == |FirstSeen(keys)|
    ensures SumCounts(CountEntries(keys)) == |keys|
  {
    FirstSeenCounts(keys);
    ObjectEntriesPermutes(FirstSeen(keys), Tally(keys));
    PermutationKeepsCounts(Pairs(FirstSeen(keys), Tally(keys)), CountEntries(keys), keys);
  }

  /**
   * After the sort: still one entry per distinct key with its count,
   * non-increasing by count, and entries with equal counts in the order
   * `Object.entries` gave them.
   */
  lemma SortedCountsCorrect(keys: seq<string>)
    ensures CountOf(SortedCounts(keys), keys)
    ensures |SortedCounts(keys)| == |FirstSeen(keys)|
    ensures SumCounts(SortedCounts(keys)) == |keys|
    ensures NonIncreasing(SortedCounts(keys))
    ensures SameTies(SortedCounts(keys), CountEntries(keys), ByCountDesc)
  {
    CountEntriesCorrect(keys);
    ByCountDescIsPreorder();
    StableSortCorrect(CountEntries(keys), ByCountDesc);
    PermutationKeepsCounts(CountEntries(keys), SortedCounts(keys), keys);
  }

  /** The first `k` of a correct count sorted by count, largest first, keep those properties. */
  lemma TakeCounts(sorted: seq<Entry>, keys: seq<string>, k: nat)
    requires CountOf(sorted, keys) && NonIncreasing(sorted)
    ensures CountedFrom(Take(sorted, k), keys) && NonIncreasing(Take(sorted, k))
  {
  }

  /** A key that the first `k` leave out occurs no more often than the last key kept. */
  lemma TakeLeavesOut(sorted: seq<Entry>, keys: seq<string>, k: nat, x: string)
    requires CountOf(sorted, keys) && NonIncreasing(sorted)
    requires x in keys && x !in KeysOf(Take(sorted, k))
    ensures |Take(sorted, k)| == k
    ensures k > 0 ==> multiset(keys)[x] <= Take(sorted, k)[k - 1].count
  {
    var m :| 0 <= m < |sorted| && KeysOf(sorted)[m] == x;
  }

  /** The first `k` entries add up to at most the total, and to the total when nothing is cut. */
  lemma TakeSum(sorted: seq<Entry>, k: nat)
    ensures SumCounts(Take(sorted, k)) <= SumCounts(sorted)
    ensures k >= |sorted| ==> SumCounts(Take(sorted, k)) == SumCounts(sorted)
  {
    var top := Take(sorted, k);
    assert sorted == top + sorted[|top|..];
    SumCountsAppend(top, sorted[|top|..]);
  }

  /**
   * The top `k`: as many entries as there are distinct keys, up to `k`; each
   * a key of `keys` with its number of occurrences; no key twice;
   * non-increasing by count. The counts add up to at most `|keys|`, and to
   * exactly `|keys|` when no key was cut.
   */
  lemma TopCountsCorrect(keys: seq<string>, k: nat)
    ensures |TopCounts(keys, k)| == Min(k, |FirstSeen(keys)|)
    ensures CountedFrom(TopCounts(keys, k), keys) && NonIncreasing(TopCounts(keys, k))
    ensures SumCounts(TopCounts(keys, k)) <= |keys|
    ensures |FirstSeen(keys)| <= k ==> SumCounts(TopCounts(keys, k)) == |keys|
  {
    SortedCountsCorrect(keys);
    TakeCounts(SortedCounts(keys), keys, k);
    TakeSum(SortedCounts(keys), k);
  }

  /** Every key of the top `k` occurs in `keys`. */
  lemma TopKeysOccur(keys: seq<string>, k: nat, i: nat)
    requires i < |TopCounts(keys, k)|
    ensures TopCounts(keys, k)[i].key in keys
  {
    SortedCountsCorrect(keys);
    TakeCounts(SortedCounts(keys), keys, k);
  }

  /** A key left out of the top `k` was cut: the top is full, and the key occurs no more often than the last key kept. */
  lemma TopCountsLeftOut(keys: seq<string>, k: nat, x: string)
    requires x in keys && x !in KeysOf(TopCounts(keys, k))
    ensures |TopCounts(keys, k)| == k
    ensures k > 0 ==> multiset(keys)[x] <= TopCounts(keys, k)[k - 1].count
  {
    SortedCountsCorrect(keys);
    TakeLeavesOut(SortedCounts(keys), keys, k, x);
  }

  /** A stable sort by count keeps, among entries with equal counts, any order `R` the input had. */
  lemma SortByCountKeepsOrder(entries: seq<Entry>, sorted: seq<Entry>, R: (Entry, Entry) -> bool)
    requires sorted == StableSort(entries, ByCountDesc)
    requires OrderedWithinTies(entries, ByCountDesc, R)
    ensures forall i, j :: 0 <= i < j < |sorted| && sorted[i].count == sorted[j].count ==> R(sorted[i], sorted[j])
  {
    ByCountDescIsPreorder();
    StableSortCorrect(entries, ByCountDesc);
    StableKeepsOrder(sorted, entries, ByCountDesc, R);
    forall i, j | 0 <= i < j < |sorted| && sorted[i].count == sorted[j].count ensures R(sorted[i], sorted[j]) {
      assert Tie(ByCountDesc, sorted[i], sorted[j]);
    }
  }

  /** Without array-index keys, `Object.entries` of the counts lists the keys in first-seen order. */
  lemma CountEntriesInFirstSeenOrder(keys: seq<string>)
    requires forall k :: k in keys ==> !IsArrayIndex(k)
    ensures forall i, j :: 0 <= i < j < |CountEntries(keys)| ==>
              FirstIndex(keys, CountEntries(keys)[i].key) < FirstIndex(keys, CountEntries(keys)[j].key)
  {
    var seen := FirstSeen(keys);
    ObjectEntriesInsertionOrder(seen, Tally(keys));
    FirstSeenOrder(keys);
  }

  /** Keys that are not array indices and tie on count stay in first-seen order. */
  lemma TiesInFirstSeenOrder(keys: seq<string>)
    requires forall k :: k in keys ==> !IsArrayIndex(k)
    ensures forall i, j :: 0 <= i < j < |SortedCounts(keys)| && SortedCounts(keys)[i].count == SortedCounts(keys)[j].count ==>
              FirstIndex(keys, SortedCounts(keys)[i].key) < FirstIndex(keys, SortedCounts(keys)[j].key)
  {
    var entries := CountEntries(keys);
    CountEntriesInFirstSeenOrder(keys);
    var R := (a: Entry, b: Entry) => FirstIndex(keys, a.key) < FirstIndex(keys, b.key);
    assert OrderedWithinTies(entries, ByCountDesc, R);
    SortByCountKeepsOrder(entries, SortedCounts(keys), R);
  }

  /** Array-index keys that tie on count stay in ascending numeric order. */
  lemma TiesInAscendingOrder(keys: seq<string>)
    requires forall k :: k in keys ==> IsArrayIndex(k)
    ensures forall i, j :: 0 <= i < j < |SortedCounts(keys)| && SortedCounts(keys)[i].count == SortedCounts(keys)[j].count ==>
              DigitsValue(SortedCounts(keys)[i].key) <= DigitsValue(SortedCounts(keys)[j].key)
  {
    var entries := CountEntries(keys);
    ObjectEntriesAscending(FirstSeen(keys), Tally(keys));
    assert OrderedWithinTies(entries, ByCountDesc, ByIndex);
    SortByCountKeepsOrder(entries, SortedCounts(keys), ByIndex);
  }
  /** Among the top `k`, array-index keys that tie on count are distinct and in ascending numeric order. */
  lemma TopTiesInAscendingOrder(keys: seq<string>, k: nat)
    requires forall key :: key in keys ==> IsArrayIndex(key)
    ensures forall i, j :: 0 <= i < j < |TopCounts(keys, k)| && TopCounts(keys, k)[i].count == TopCounts(keys, k)[j].count ==>
              TopCounts(keys, k)[i].key != TopCounts(keys, k)[j].key &&
              DigitsValue(TopCounts(keys, k)[i].key) <= DigitsValue(TopCounts(keys, k)[j].key)
  {
    var sorted, top := SortedCounts(keys), TopCounts(keys, k);
    TiesInAscendingOrder(keys);
    TopCountsCorrect(keys, k);
    assert top == sorted[..|top|];
  }
}
