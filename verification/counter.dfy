/**
 * Python's `collections.Counter` as the I2C formatter uses it: `c[k] += 1`
 * on string keys, then `c.most_common()`. A counter is its keys in insertion
 * order (a dict keeps that order) and a map from key to count;
 * `most_common()` sorts the keys by count, highest first, and the sort is
 * stable, so equal counts keep insertion order.
 */
module Tally {

  datatype Counter = Counter(keys: seq<string>, counts: map<string, nat>)

  predicate Distinct(s: seq<string>) {
    forall i, j :: 0 <= i < j < |s| ==> s[i] != s[j]
  }

  /** The keys are exactly the map's domain, each listed once. */
  ghost predicate Valid(c: Counter) {
    Distinct(c.keys) && forall k :: k in c.counts <==> k in c.keys
  }

  const Empty := Counter([], map[])

  /** `c[k] += 1`: a missing key enters at the end with count 1. */
  function Increment(c: Counter, k: string): (r: Counter)
    requires Valid(c)
    ensures Valid(r)
    ensures k in r.counts && r.counts[k] == (if k in c.counts then c.counts[k] + 1 else 1)
    ensures forall j :: j != k ==> (j in r.counts <==> j in c.counts)
    ensures forall j :: j != k && j in c.counts ==> r.counts[j] == c.counts[j]
    ensures r.keys == if k in c.counts then c.keys else c.keys + [k]
  {
    if k in c.counts then Counter(c.keys, c.counts[k := c.counts[k] + 1])
    else Counter(c.keys + [k], c.counts[k := 1])
  }

  /** The counter after counting each of `vals` in turn. */
  function CounterOf(vals: seq<string>): (c: Counter)
    ensures Valid(c)
  {
    if vals == [] then Empty else Increment(CounterOf(vals[..|vals| - 1]), vals[|vals| - 1])
  }

  function Occurrences(vals: seq<string>, k: string): nat {
    if vals == [] then 0
    else Occurrences(vals[..|vals| - 1], k) + (if vals[|vals| - 1] == k then 1 else 0)
  }

  /** Position of the first `k` in `s`. */
  function IndexOf(s: seq<string>, k: string): (i: nat)
    requires k in s
    ensures i < |s| && s[i] == k && k !in s[..i]
  {
    if s[0] == k then 0 else 1 + IndexOf(s[1..], k)
  }

  /** Counting values gives each value's number of occurrences, and lists the
      values in the order of their first occurrence. */
  lemma CounterOfCounts(vals: seq<string>)
    ensures forall k :: k in CounterOf(vals).counts <==> k in vals
    ensures forall k :: k in vals ==> k in CounterOf(vals).counts && CounterOf(vals).counts[k] == Occurrences(vals, k)
    ensures FirstSeenOrder(CounterOf(vals).keys, vals)
  {
    CounterDomain(vals);
    CounterCounts(vals);
    CounterOrder(vals);
  }

  lemma {:induction false} CounterDomain(vals: seq<string>)
    ensures forall k :: k in CounterOf(vals).counts <==> k in vals
  {
    if vals != [] {
      var init := vals[..|vals| - 1];
      var v := vals[|vals| - 1];
      CounterDomain(init);
      Members(init, v, vals);
      IncrementDomain(CounterOf(init), v);
    }
  }

  lemma Members(init: seq<string>, v: string, vals: seq<string>)
    requires vals == init + [v]
    ensures forall k :: k in vals <==> k in init || k == v
  {
  }

  lemma IncrementDomain(c: Counter, v: string)
    requires Valid(c)
    ensures forall k :: k in Increment(c, v).counts <==> k in c.counts || k == v
  {
  }

  lemma {:induction false} CounterCounts(vals: seq<string>)
    ensures forall k :: k in vals ==> k in CounterOf(vals).counts && CounterOf(vals).counts[k] == Occurrences(vals, k)
  {
    if vals != [] {
      var init := vals[..|vals| - 1];
      var v := vals[|vals| - 1];
      CounterCounts(init);
      CounterDomain(init);
      CountStep(CounterOf(init), init, v);
      assert vals == init + [v];
      assert CounterOf(vals) == Increment(CounterOf(init), v);
    }
  }

  /** Counting one more value keeps every count equal to the occurrences. */
  lemma CountStep(c0: Counter, init: seq<string>, v: string)
    requires Valid(c0)
    requires forall k :: k in c0.counts <==> k in init
    requires forall k :: k in init ==> k in c0.counts && c0.counts[k] == Occurrences(init, k)
    ensures forall k :: k in init + [v] ==> k in Increment(c0, v).counts && Increment(c0, v).counts[k] == Occurrences(init + [v], k)
  {
    var vals := init + [v];
    assert vals[..|vals| - 1] == init;
    forall k | k in vals ensures k in Increment(c0, v).counts && Increment(c0, v).counts[k] == Occurrences(vals, k) {
      if k != v {
        assert k in init;
      } else if v !in init {
        OccurrencesAbsent(init, v);
      }
    }
  }

  lemma {:induction false} CounterOrder(vals: seq<string>)
    ensures forall k :: k in CounterOf(vals).keys ==> k in vals
    ensures FirstSeenOrder(CounterOf(vals).keys, vals)
  {
    if vals != [] {
      var init := vals[..|vals| - 1];
      var v := vals[|vals| - 1];
      CounterOrder(init);
      CounterDomain(init);
      var c0 := CounterOf(init);
      assert vals == init + [v];
      OrderStep(init, v, c0.keys);
      if v in c0.counts {
        assert v in init;
      }
    }
  }

  /** `keys` are values of `vals` listed in the order of their first occurrence. */
  predicate FirstSeenOrder(keys: seq<string>, vals: seq<string>) {
    forall i, j :: 0 <= i < j < |keys| ==>
      keys[i] in vals && keys[j] in vals && IndexOf(vals, keys[i]) < IndexOf(vals, keys[j])
  }

  lemma OrderStep(init: seq<string>, v: string, keys: seq<string>)
    requires forall k :: k in keys ==> k in init
    requires FirstSeenOrder(keys, init)
    ensures FirstSeenOrder(keys, init + [v])
    ensures v !in init ==> FirstSeenOrder(keys + [v], init + [v])
  {
    var vals := init + [v];
    forall k | k in init ensures k in vals && IndexOf(vals, k) == IndexOf(init, k) {
      IndexOfAppend(init, v, k);
    }
    if v !in init {
      assert IndexOf(vals, v) == |init|;
      var keys' := keys + [v];
      forall i, j | 0 <= i < j < |keys'|
        ensures keys'[i] in vals && keys'[j] in vals && IndexOf(vals, keys'[i]) < IndexOf(vals, keys'[j])
      {
        assert keys'[i] == keys[i] && keys[i] in init;
        if j < |keys| {
          assert keys'[j] == keys[j];
        }
      }
    }
  }

  lemma {:induction false} OccurrencesAbsent(s: seq<string>, k: string)
    requires k !in s
    ensures Occurrences(s, k) == 0
  {
    if s != [] {
      assert s[..|s| - 1] == s[..|s| - 1];
      assert forall y :: y in s[..|s| - 1] ==> y in s;
      OccurrencesAbsent(s[..|s| - 1], k);
    }
  }

  lemma {:induction false} IndexOfAppend(s: seq<string>, v: string, k: string)
    requires k in s
    ensures IndexOf(s + [v], k) == IndexOf(s, k)
  {
    if s[0] != k {
      assert (s + [v])[1..] == s[1..] + [v];
      IndexOfAppend(s[1..], v, k);
    }
  }

  // ---------------------------------------------------------------------
  // most_common()
  // ---------------------------------------------------------------------

  /** `a` is listed before `b` by `most_common()`: a higher count, or an equal
      count and an earlier key. */
  predicate Ahead(c: Counter, a: string, b: string) {
    a in c.counts && b in c.counts && a in c.keys && b in c.keys
    && (c.counts[a] > c.counts[b]
        || (c.counts[a] == c.counts[b] && IndexOf(c.keys, a) < IndexOf(c.keys, b)))
  }

  predicate Ranked(c: Counter, s: seq<string>) {
    forall i, j :: 0 <= i < j < |s| ==> Ahead(c, s[i], s[j])
  }

  /** Puts `x` after every leading key whose count is at least `x`'s. */
  function InsertByCount(counts: map<string, nat>, x: string, s: seq<string>): (r: seq<string>)
    requires x in counts && forall y :: y in s ==> y in counts
    ensures multiset(r) == multiset(s) + multiset{x}
  {
    if s == [] then [x]
    else if counts[s[0]] >= counts[x] then
      assert s == [s[0]] + s[1..];
      [s[0]] + InsertByCount(counts, x, s[1..])
    else [x] + s
  }

  /** Insertion sort of `keys`, one key at a time in key order. */
  function SortByCount(counts: map<string, nat>, keys: seq<string>): (r: seq<string>)
    requires forall y :: y in keys ==> y in counts
    ensures multiset(r) == multiset(keys)
  {
    if keys == [] then []
    else
      var init := keys[..|keys| - 1];
      assert keys == init + [keys[|keys| - 1]];
      assert forall y :: y in init ==> y in keys;
      var sorted := SortByCount(counts, init);
      SameMembers(sorted, init);
      InsertByCount(counts, keys[|keys| - 1], sorted)
  }

  lemma SameMembers(a: seq<string>, b: seq<string>)
    requires multiset(a) == multiset(b)
    ensures forall y :: y in a <==> y in b
  {
    forall y ensures y in a <==> y in b {
      assert y in a <==> y in multiset(a);
      assert y in b <==> y in multiset(b);
    }
  }

  /** `Counter.most_common()`. */
  function MostCommon(c: Counter): (r: seq<string>)
    requires Valid(c)
    ensures multiset(r) == multiset(c.keys)
  {
    SortByCount(c.counts, c.keys)
  }

  /** Inserting a key that comes after every key of a ranked list keeps it ranked. */
  lemma {:induction false} InsertRanked(c: Counter, x: string, s: seq<string>)
    requires Valid(c) && x in c.keys
    requires forall y :: y in s ==> y in c.keys && IndexOf(c.keys, y) < IndexOf(c.keys, x)
    requires Ranked(c, s)
    ensures Ranked(c, InsertByCount(c.counts, x, s))
  {
    if s != [] {
      if c.counts[s[0]] >= c.counts[x] {
        var rest := s[1..];
        assert forall y :: y in rest ==> y in s;
        TailRanked(c, s);
        InsertRanked(c, x, rest);
        assert Ahead(c, s[0], x);
        KeepFirst(c, x, s);
      } else {
        InsertFirst(c, x, s);
      }
    }
  }

  lemma TailRanked(c: Counter, s: seq<string>)
    requires s != [] && Ranked(c, s)
    ensures Ranked(c, s[1..])
  {
    var rest := s[1..];
    forall i, j | 0 <= i < j < |rest| ensures Ahead(c, rest[i], rest[j]) {
      assert rest[i] == s[i + 1] && rest[j] == s[j + 1];
    }
  }

  /** A first key counted at least as often as `x` stays first, ahead of `x`
      and of the rest. */
  lemma KeepFirst(c: Counter, x: string, s: seq<string>)
    requires Valid(c) && x in c.keys && s != []
    requires Ahead(c, s[0], x)
    requires Ranked(c, s) && Ranked(c, InsertByCount(c.counts, x, s[1..]))
    requires forall y :: y in s ==> y in c.counts
    ensures Ranked(c, InsertByCount(c.counts, x, s))
  {
    var tail := InsertByCount(c.counts, x, s[1..]);
    assert InsertByCount(c.counts, x, s) == [s[0]] + tail;
    InsertMembers(c.counts, x, s[1..]);
    FirstAhead(c, s);
    ConsRanked(c, s[0], tail);
  }

  /** A key ahead of every key of a ranked list can go in front of it. */
  lemma ConsRanked(c: Counter, a: string, t: seq<string>)
    requires Ranked(c, t) && forall y :: y in t ==> Ahead(c, a, y)
    ensures Ranked(c, [a] + t)
  {
    var r := [a] + t;
    forall i, j | 0 <= i < j < |r| ensures Ahead(c, r[i], r[j]) {
      assert r[j] == t[j - 1];
      if i > 0 {
        assert r[i] == t[i - 1];
      }
    }
  }

  /** The inserted list holds the old keys and `x`. */
  lemma InsertMembers(counts: map<string, nat>, x: string, s: seq<string>)
    requires x in counts && forall y :: y in s ==> y in counts
    ensures forall y :: y in InsertByCount(counts, x, s) ==> y in s || y == x
  {
    var r := InsertByCount(counts, x, s);
    forall y | y in r ensures y in s || y == x {
      assert y in multiset(r);
    }
  }

  /** The first key of a ranked list is ahead of its other keys. */
  lemma FirstAhead(c: Counter, s: seq<string>)
    requires s != [] && Ranked(c, s)
    ensures forall y :: y in s[1..] ==> Ahead(c, s[0], y)
  {
    forall y | y in s[1..] ensures Ahead(c, s[0], y) {
      var k :| 0 <= k < |s[1..]| && s[1..][k] == y;
      assert s[k + 1] == y;
    }
  }

  /** A key counted more often than the first goes in front. */
  lemma InsertFirst(c: Counter, x: string, s: seq<string>)
    requires Valid(c) && x in c.keys && s != []
    requires forall y :: y in s ==> y in c.keys
    requires c.counts[s[0]] < c.counts[x]
    requires Ranked(c, s)
    ensures Ranked(c, InsertByCount(c.counts, x, s))
  {
    assert InsertByCount(c.counts, x, s) == [x] + s;
    FirstAhead(c, s);
    assert s == [s[0]] + s[1..];
    ConsRanked(c, x, s);
  }

  /** `most_common()` lists each key once, highest count first, equal counts
      in insertion order. */
  lemma {:induction false} MostCommonRanked(c: Counter)
    requires Valid(c)
    ensures Ranked(c, MostCommon(c))
    ensures |MostCommon(c)| == |c.keys|
    ensures forall k :: k in MostCommon(c) <==> k in c.counts
  {
    SortRankedPrefix(c, |c.keys|);
    assert c.keys[..|c.keys|] == c.keys;
    var r := MostCommon(c);
    assert |r| == |multiset(r)| == |multiset(c.keys)| == |c.keys|;
    forall k ensures k in r <==> k in c.counts {
      assert k in r <==> k in multiset(r);
      assert k in c.keys <==> k in multiset(c.keys);
    }
  }

  lemma {:induction false} SortRankedPrefix(c: Counter, n: nat)
    requires Valid(c) && n <= |c.keys|
    ensures Ranked(c, SortByCount(c.counts, c.keys[..n]))
  {
    if n > 0 {
      var prefix := c.keys[..n];
      var init := c.keys[..n - 1];
      var x := c.keys[n - 1];
      assert prefix[..|prefix| - 1] == init;
      SortRankedPrefix(c, n - 1);
      var s := SortByCount(c.counts, init);
      assert SortByCount(c.counts, prefix) == InsertByCount(c.counts, x, s);
      SameMembers(s, init);
      DistinctIndex(c.keys, n - 1);
      forall y | y in s ensures y in c.keys && IndexOf(c.keys, y) < IndexOf(c.keys, x) {
        var k := IndexOf(init, y);
        assert c.keys[k] == y;
        DistinctIndex(c.keys, k);
      }
      InsertRanked(c, x, s);
    }
  }

  lemma DistinctIndex(s: seq<string>, k: nat)
    requires Distinct(s) && k < |s|
    ensures IndexOf(s, s[k]) == k
  {
  }
}
