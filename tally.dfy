/** The counting idiom the dashboard uses throughout: a plain JavaScript object filled
    by `counts[k] = (counts[k] || 0) + 1` in a forEach, read back with Object.entries
    (keys in first-insertion order, which is the object's key order as long as no key
    is an array index such as "123"), sorted with a stable Array.prototype.sort by a
    numeric key in descending order and cut with slice(0, n). */
module Tally {
  import opened Common

  datatype Entry<K> = Entry(key: K, count: nat)

  /** Number of occurrences of `k` in `xs`. */
  function Count<K(==,!new)>(xs: seq<K>, k: K): (n: nat)
    ensures n <= |xs|
    ensures n > 0 <==> k in xs
  {
    if xs == [] then 0
    else
      assert xs == xs[..|xs| - 1] + [xs[|xs| - 1]];
      Count(xs[..|xs| - 1], k) + (if xs[|xs| - 1] == k then 1 else 0)
  }

  predicate NoDuplicates<K(==,!new)>(d: seq<K>)
  {
    forall i, j :: 0 <= i < j < |d| ==> d[i] != d[j]
  }

  /** The elements of `xs` in order of first occurrence, each once: the key order of
      an object filled from `xs`, and `[...new Set(xs)]`. */
  function Distinct<K(==,!new)>(xs: seq<K>): (d: seq<K>)
    ensures forall k :: k in d <==> k in xs
    ensures NoDuplicates(d)
    ensures |d| <= |xs|
  {
    if xs == [] then []
    else
      var d := Distinct(xs[..|xs| - 1]);
      assert xs == xs[..|xs| - 1] + [xs[|xs| - 1]];
      if xs[|xs| - 1] in d then d else d + [xs[|xs| - 1]]
  }

  /** The entries of a tally whose keys come in the order `keys`. */
  function Entries<K(==,!new)>(keys: seq<K>, counts: map<K, nat>): (t: seq<Entry<K>>)
    requires forall k :: k in keys ==> k in counts
    ensures |t| == |keys|
    ensures forall i :: 0 <= i < |t| ==> t[i] == Entry(keys[i], counts[keys[i]])
  {
    seq(|keys|, i requires 0 <= i < |keys| => Entry(keys[i], counts[keys[i]]))
  }

  /** What Object.entries returns for an object counting the elements of `xs`, when no
      key is an array index. */
  function TallyOf<K(==,!new)>(xs: seq<K>): (t: seq<Entry<K>>)
    ensures |t| == |Distinct(xs)|
    ensures forall i :: 0 <= i < |t| ==> t[i] == Entry(Distinct(xs)[i], Count(xs, Distinct(xs)[i]))
  {
    var d := Distinct(xs);
    seq(|d|, i requires 0 <= i < |d| => Entry(d[i], Count(xs, d[i])))
  }

  /** The `(counts[k] || 0) + 1` loop: the object's keys in insertion order, and its values. */
  method CountOccurrences<K(==,!new)>(xs: seq<K>) returns (keys: seq<K>, counts: map<K, nat>)
    ensures keys == Distinct(xs)
    ensures forall k :: k in counts <==> k in xs
    ensures forall k :: k in counts ==> counts[k] == Count(xs, k)
  {
    keys, counts := [], map[];
    for i := 0 to |xs|
      invariant keys == Distinct(xs[..i])
      invariant forall k :: k in counts <==> k in xs[..i]
      invariant forall k :: k in counts ==> counts[k] == Count(xs[..i], k)
    {
      var k := xs[i];
      assert xs[..i + 1][..i] == xs[..i];
      if k in counts {
        counts := counts[k := counts[k] + 1];
      } else {
        keys := keys + [k];
        counts := counts[k := 1];
      }
    }
    assert xs[..|xs|] == xs;
  }

  /** Looking a key up in the counting object, `counts[k] || 0`. */
  function Lookup<K(==,!new)>(counts: map<K, nat>, k: K): nat
  {
    if k in counts then counts[k] else 0
  }

  function Keys<K>(t: seq<Entry<K>>): (ks: seq<K>)
    ensures |ks| == |t|
    ensures forall i :: 0 <= i < |t| ==> ks[i] == t[i].key
  {
    seq(|t|, i requires 0 <= i < |t| => t[i].key)
  }

  function SumCounts<K>(t: seq<Entry<K>>): nat
  {
    if t == [] then 0 else SumCounts(t[..|t| - 1]) + t[|t| - 1].count
  }

  /** Sum, over the keys `d`, of the occurrences of each key in `xs`. */
  function CountsOver<K(==,!new)>(xs: seq<K>, d: seq<K>): nat
  {
    if d == [] then 0 else CountsOver(xs, d[..|d| - 1]) + Count(xs, d[|d| - 1])
  }

  lemma {:induction false} CountsOverSnoc<K(!new)>(xs: seq<K>, x: K, d: seq<K>)
    ensures CountsOver(xs + [x], d) == CountsOver(xs, d) + Count(d, x)
  {
    assert (xs + [x])[..|xs|] == xs;
    if d != [] {
      CountsOverSnoc(xs, x, d[..|d| - 1]);
    }
  }

  lemma {:induction false} CountOfDistinct<K(!new)>(d: seq<K>, x: K)
    requires NoDuplicates(d)
    ensures Count(d, x) == if x in d then 1 else 0
  {
    if d != [] {
      var init := d[..|d| - 1];
      assert d == init + [d[|d| - 1]];
      CountOfDistinct(init, x);
      if d[|d| - 1] == x {
        assert x !in init;
      }
    }
  }

  lemma {:induction false} CountsOverDistinct<K(!new)>(xs: seq<K>)
    ensures CountsOver(xs, Distinct(xs)) == |xs|
  {
    if xs != [] {
      var init, x := xs[..|xs| - 1], xs[|xs| - 1];
      assert xs == init + [x];
      var d := Distinct(init);
      CountsOverDistinct(init);
      CountsOverSnoc(init, x, d);
      CountOfDistinct(d, x);
      if x !in d {
        assert (d + [x])[..|d|] == d;
        assert Count(init, x) == 0;
      }
    }
  }

  lemma {:induction false} CountsOverNothing<K(!new)>(d: seq<K>)
    ensures CountsOver([], d) == 0
  {
    if d != [] {
      CountsOverNothing(d[..|d| - 1]);
    }
  }

  /** Counting each of some distinct keys counts no element twice; it counts every
      element when every element is one of the keys. */
  lemma {:induction false} CountsOverBound<K(!new)>(xs: seq<K>, d: seq<K>)
    requires NoDuplicates(d)
    ensures CountsOver(xs, d) <= |xs|
    ensures (forall x :: x in xs ==> x in d) ==> CountsOver(xs, d) == |xs|
  {
    if xs == [] {
      CountsOverNothing(d);
    } else {
      var init, x := xs[..|xs| - 1], xs[|xs| - 1];
      assert xs == init + [x];
      CountsOverBound(init, d);
      CountsOverSnoc(init, x, d);
      CountOfDistinct(d, x);
      assert CountsOver(xs, d) == CountsOver(init, d) + Count(d, x);
      if forall y :: y in xs ==> y in d {
        assert x in d;
        assert forall y :: y in init ==> y in xs;
      }
    }
  }

  lemma {:induction false} SumCountsOfTally<K(!new)>(xs: seq<K>, d: seq<K>)
    ensures SumCounts(seq(|d|, i requires 0 <= i < |d| => Entry(d[i], Count(xs, d[i])))) == CountsOver(xs, d)
  {
    if d != [] {
      var t := seq(|d|, i requires 0 <= i < |d| => Entry(d[i], Count(xs, d[i])));
      var init := d[..|d| - 1];
      assert t[..|t| - 1] == seq(|init|, i requires 0 <= i < |init| => Entry(init[i], Count(xs, init[i])));
      SumCountsOfTally(xs, init);
    }
  }

  /** Every element of `xs` is counted once: the tally's counts add up to |xs|. */
  lemma TallySum<K(!new)>(xs: seq<K>)
    ensures SumCounts(TallyOf(xs)) == |xs|
  {
    SumCountsOfTally(xs, Distinct(xs));
    CountsOverDistinct(xs);
  }

  // ---------------------------------------------------------------------------
  // Stable sort by a numeric key, largest first

  predicate SortedDesc<T>(s: seq<T>, key: T -> real)
  {
    forall i, j :: 0 <= i < j < |s| ==> key(s[i]) >= key(s[j])
  }

  /** Puts `x` in front of the first element whose key is not larger: `x` stays before
      the elements with an equal key, which came after it in the input. */
  function Insert<T>(x: T, s: seq<T>, key: T -> real): (r: seq<T>)
    ensures multiset(r) == multiset(s) + multiset{x}
    ensures |r| == |s| + 1
  {
    if s == [] || key(x) >= key(s[0]) then [x] + s
    else
      assert s == [s[0]] + s[1..];
      [s[0]] + Insert(x, s[1..], key)
  }

  /** Every element of an insertion is bounded when `x` and the input are. */
  lemma InsertBounded<T>(x: T, s: seq<T>, key: T -> real, b: real)
    requires key(x) <= b
    requires forall y :: y in s ==> key(y) <= b
    ensures forall y :: y in Insert(x, s, key) ==> key(y) <= b
  {
    forall y | y in Insert(x, s, key)
      ensures key(y) <= b
    {
      assert y in multiset(Insert(x, s, key));
    }
  }

  lemma {:induction false} InsertSorted<T>(x: T, s: seq<T>, key: T -> real)
    requires SortedDesc(s, key)
    ensures SortedDesc(Insert(x, s, key), key)
  {
    if s != [] && key(x) < key(s[0]) {
      var rest := Insert(x, s[1..], key);
      InsertSorted(x, s[1..], key);
      InsertBounded(x, s[1..], key, key(s[0]));
      var r := [s[0]] + rest;
      assert Insert(x, s, key) == r;
      forall i, j | 0 <= i < j < |r|
        ensures key(r[i]) >= key(r[j])
      {
        if i > 0 {
          assert r[i] == rest[i - 1] && r[j] == rest[j - 1];
        } else {
          assert r[j] == rest[j - 1];
        }
      }
    }
  }

  /** Array.prototype.sort with comparator `(a, b) => key(b) - key(a)`: stable, largest key first. */
  function SortDesc<T>(s: seq<T>, key: T -> real): (r: seq<T>)
    ensures multiset(r) == multiset(s)
    ensures |r| == |s|
    ensures SortedDesc(r, key)
  {
    if s == [] then []
    else
      assert s == [s[0]] + s[1..];
      var rest := SortDesc(s[1..], key);
      InsertSorted(s[0], rest, key);
      Insert(s[0], rest, key)
  }

  /** The head of a descending sort is an element with the greatest key. */
  lemma SortedHeadIsMax<T>(s: seq<T>, key: T -> real)
    requires s != []
    ensures var h := SortDesc(s, key)[0]; h in s && forall q :: q in s ==> key(q) <= key(h)
  {
    var r := SortDesc(s, key);
    assert r[0] in multiset(r);
    forall q | q in s
      ensures key(q) <= key(r[0])
    {
      assert q in multiset(r);
      var k :| 0 <= k < |r| && r[k] == q;
      if k > 0 {
        assert key(r[0]) >= key(r[k]);
      }
    }
  }

  function SumBy<T>(s: seq<T>, f: T -> int): int
  {
    if s == [] then 0 else SumBy(s[..|s| - 1], f) + f(s[|s| - 1])
  }

  lemma SumBySingle<T>(x: T, f: T -> int)
    ensures SumBy([x], f) == f(x)
  {
    assert [x][..0] == [];
  }

  lemma {:induction false} SumByAppend<T>(a: seq<T>, b: seq<T>, f: T -> int)
    ensures SumBy(a + b, f) == SumBy(a, f) + SumBy(b, f)
  {
    if b == [] {
      assert a + b == a;
    } else {
      var c := a + b;
      assert c[..|c| - 1] == a + b[..|b| - 1];
      assert c[|c| - 1] == b[|b| - 1];
      SumByAppend(a, b[..|b| - 1], f);
    }
  }

  lemma {:induction false} SumByInsert<T>(x: T, s: seq<T>, key: T -> real, f: T -> int)
    ensures SumBy(Insert(x, s, key), f) == f(x) + SumBy(s, f)
  {
    SumBySingle(x, f);
    if s == [] || key(x) >= key(s[0]) {
      SumByAppend([x], s, f);
    } else {
      var rest := Insert(x, s[1..], key);
      assert Insert(x, s, key) == [s[0]] + rest;
      assert s == [s[0]] + s[1..];
      SumByInsert(x, s[1..], key, f);
      SumByAppend([s[0]], rest, f);
      SumByAppend([s[0]], s[1..], f);
      SumBySingle(s[0], f);
    }
  }

  /** Sorting does not change a sum over the elements. */
  lemma {:induction false} SumBySort<T>(s: seq<T>, key: T -> real, f: T -> int)
    ensures SumBy(SortDesc(s, key), f) == SumBy(s, f)
  {
    if s != [] {
      var rest := SortDesc(s[1..], key);
      assert SortDesc(s, key) == Insert(s[0], rest, key);
      SumBySort(s[1..], key, f);
      SumByInsert(s[0], rest, key, f);
      assert s == [s[0]] + s[1..];
      SumByAppend([s[0]], s[1..], f);
      SumBySingle(s[0], f);
    }
  }

  // ---------------------------------------------------------------------------
  // The most frequent keys

  function ByCount<K>(e: Entry<K>): real { e.count as real }

  function EntryCount<K>(e: Entry<K>): int { e.count }

  /** The tally sorted by count, most frequent first; keys with equal counts keep
      their first-occurrence order. */
  function SortedTally<K(==,!new)>(xs: seq<K>): seq<Entry<K>>
  {
    SortDesc(TallyOf(xs), ByCount)
  }

  /** Object.entries(counts).sort((a, b) => b.count - a.count).slice(0, n). */
  function TopCountsOf<K(==,!new)>(xs: seq<K>, n: nat): seq<Entry<K>>
  {
    Prefix(SortedTally(xs), n)
  }

  /** Counts the elements of `xs` and keeps the `n` most frequent. */
  method TopCounts<K(==,!new)>(xs: seq<K>, n: nat) returns (top: seq<Entry<K>>)
    ensures top == TopCountsOf(xs, n)
  {
    var keys, counts := CountOccurrences(xs);
    var entries := Entries(keys, counts);
    assert entries == TallyOf(xs);
    top := Prefix(SortDesc(entries, ByCount), n);
  }

  lemma {:induction false} MultisetNoDuplicates<T(!new)>(s: seq<T>, x: T)
    requires NoDuplicates(s)
    ensures multiset(s)[x] <= 1
  {
    if s != [] {
      var init := s[..|s| - 1];
      assert s == init + [s[|s| - 1]];
      MultisetNoDuplicates(init, x);
      if s[|s| - 1] == x {
        assert x !in init;
      }
    }
  }

  lemma {:induction false} SumCountsIsSumBy<K>(t: seq<Entry<K>>)
    ensures SumCounts(t) == SumBy(t, EntryCount)
  {
    if t != [] {
      SumCountsIsSumBy(t[..|t| - 1]);
    }
  }

  lemma {:induction false} SumCountsPrefix<K>(t: seq<Entry<K>>, m: nat)
    requires m <= |t|
    ensures SumCounts(t[..m]) <= SumCounts(t)
  {
    if m < |t| {
      var init := t[..|t| - 1];
      assert t[..m] == init[..m];
      SumCountsPrefix(init, m);
      assert SumCounts(t) == SumCounts(init) + t[|t| - 1].count;
    } else {
      assert t[..m] == t;
    }
  }

  /** Every entry of a sorted tally is a key of `xs` with its true count. */
  lemma SortedTallyEntries<K(!new)>(xs: seq<K>, key: Entry<K> -> real, i: int)
    requires 0 <= i < |SortDesc(TallyOf(xs), key)|
    ensures var e := SortDesc(TallyOf(xs), key)[i]; e.key in xs && e.count == Count(xs, e.key) && e.count >= 1
  {
    var t := TallyOf(xs);
    var e := SortDesc(t, key)[i];
    assert e in multiset(SortDesc(t, key));
    assert e in multiset(t);
    var p :| 0 <= p < |t| && t[p] == e;
  }

  lemma TwiceInMultiset<T>(s: seq<T>, i: int, j: int)
    requires 0 <= i < j < |s| && s[i] == s[j]
    ensures multiset(s)[s[i]] >= 2
  {
    var a, b := s[..j], s[j..];
    assert s == a + b;
    assert a[i] == s[i];
    assert b[0] == s[j];
    assert multiset(s) == multiset(a) + multiset(b);
  }

  /** Sorting a tally keeps its keys distinct. */
  lemma SortedTallyDistinct<K(!new)>(xs: seq<K>, key: Entry<K> -> real)
    ensures NoDuplicates(Keys(SortDesc(TallyOf(xs), key)))
  {
    var t := TallyOf(xs);
    var s := SortDesc(t, key);
    forall i, j | 0 <= i < j < |s|
      ensures s[i].key != s[j].key
    {
      if s[i].key == s[j].key {
        SortedTallyEntries(xs, key, i);
        SortedTallyEntries(xs, key, j);
        TwiceInMultiset(s, i, j);
        MultisetNoDuplicates(t, s[i]);
        assert false;
      }
    }
  }

  /** Every key of `xs` has its entry somewhere in a sorted tally. */
  lemma SortedTallyComplete<K(!new)>(xs: seq<K>, key: Entry<K> -> real, k: K) returns (q: nat)
    requires k in xs
    ensures q < |SortDesc(TallyOf(xs), key)| && SortDesc(TallyOf(xs), key)[q] == Entry(k, Count(xs, k))
  {
    var t := TallyOf(xs);
    var p :| 0 <= p < |Distinct(xs)| && Distinct(xs)[p] == k;
    assert t[p] == Entry(k, Count(xs, k));
    assert t[p] in multiset(SortDesc(t, key));
    q :| 0 <= q < |SortDesc(t, key)| && SortDesc(t, key)[q] == t[p];
  }

  /** The `n` most frequent keys: min(n, number of distinct keys) entries, most
      frequent first, each a key of `xs` with its true number of occurrences, no key twice. */
  lemma TopCountsShape<K(!new)>(xs: seq<K>, n: nat)
    ensures var r := TopCountsOf(xs, n);
      && |r| == Min(n, |Distinct(xs)|)
      && SortedDesc(r, ByCount)
      && (forall i :: 0 <= i < |r| ==> r[i].key in xs && r[i].count == Count(xs, r[i].key) && r[i].count >= 1)
      && NoDuplicates(Keys(r))
  {
    var s := SortedTally(xs);
    var r := TopCountsOf(xs, n);
    assert r == s[..|r|];
    forall i | 0 <= i < |r|
      ensures r[i].key in xs && r[i].count == Count(xs, r[i].key) && r[i].count >= 1
    {
      SortedTallyEntries(xs, ByCount, i);
    }
    SortedTallyDistinct(xs, ByCount);
    assert forall i :: 0 <= i < |r| ==> Keys(r)[i] == Keys(s)[i];
  }

  /** The kept counts add up to at most the number of counted elements, and to all of
      them when nothing is cut. */
  lemma TopCountsSum<K(!new)>(xs: seq<K>, n: nat)
    ensures SumCounts(TopCountsOf(xs, n)) <= |xs|
    ensures n >= |Distinct(xs)| ==> SumCounts(TopCountsOf(xs, n)) == |xs|
  {
    var t := TallyOf(xs);
    var s := SortedTally(xs);
    var r := TopCountsOf(xs, n);
    TallySum(xs);
    SumBySort(t, ByCount, EntryCount);
    SumCountsIsSumBy(t);
    SumCountsIsSumBy(s);
    SumCountsPrefix(s, |r|);
    assert r == s[..|r|];
    if n >= |Distinct(xs)| {
      assert r == s;
    }
  }

  lemma KeyInKeys<K>(t: seq<Entry<K>>, i: int)
    ensures 0 <= i < |t| ==> t[i].key in Keys(t)
  {
    if 0 <= i < |t| {
      assert Keys(t)[i] == t[i].key;
    }
  }

  /** A key left out by the cut occurs no more often than every kept key. */
  lemma TopCountsCut<K(!new)>(xs: seq<K>, n: nat, k: K)
    requires k in xs && k !in Keys(TopCountsOf(xs, n))
    ensures var r := TopCountsOf(xs, n);
      |r| == n && forall i :: 0 <= i < n ==> Count(xs, k) <= r[i].count
  {
    var s := SortedTally(xs);
    var r := TopCountsOf(xs, n);
    assert r == s[..|r|];
    var q := SortedTallyComplete(xs, ByCount, k);
    KeyInKeys(r, q);
    assert q >= |r|;
    forall i | 0 <= i < |r|
      ensures Count(xs, k) <= r[i].count
    {
      assert ByCount(s[i]) >= ByCount(s[q]);
    }
  }
}
