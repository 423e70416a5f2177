/**
 * A Python `dict[str, str]` as its entries in insertion order: assigning to
 * a present key replaces its value where it stands, assigning to a new key
 * appends it, and iteration (`.items()`) follows that order.
 */
module Dicts {
  import opened Wrappers

  type Dict = seq<(string, string)>

  function Keys(d: Dict): (ks: seq<string>)
    ensures |ks| == |d|
  {
    seq(|d|, i requires 0 <= i < |d| => d[i].0)
  }

  /** No key is listed twice. */
  predicate Distinct(d: Dict) {
    forall i, j :: 0 <= i < j < |d| ==> d[i].0 != d[j].0
  }

  /** `d.get(k)`. */
  function Get(d: Dict, k: string): (r: Option<string>)
    ensures r.None? <==> k !in Keys(d)
  {
    if d == [] then None
    else
      KeysCons(d);
      if d[0].0 == k then Some(d[0].1) else Get(d[1..], k)
  }

  /** `d[k] = v`: a present key is replaced where it stands, a new key goes
      last. */
  function Put(d: Dict, k: string, v: string): (r: Dict)
    ensures |r| == if k in Keys(d) then |d| else |d| + 1
  {
    if d == [] then [(k, v)]
    else
      KeysCons(d);
      if d[0].0 == k then [(k, v)] + d[1..] else [d[0]] + Put(d[1..], k, v)
  }

  /** The key gets the value. */
  lemma {:induction false} PutGet(d: Dict, k: string, v: string)
    ensures Get(Put(d, k, v), k) == Some(v)
  {
    if d != [] && d[0].0 != k {
      PutGet(d[1..], k, v);
    }
  }

  /** Every other key keeps its own value. */
  lemma {:induction false} PutOther(d: Dict, k: string, v: string, k': string)
    requires k' != k
    ensures Get(Put(d, k, v), k') == Get(d, k')
  {
    if d != [] && d[0].0 != k {
      PutOther(d[1..], k, v, k');
    }
  }

  /** The keys stay in place, a new one joining at the end. */
  lemma {:induction false} PutKeys(d: Dict, k: string, v: string)
    ensures Keys(Put(d, k, v)) == if k in Keys(d) then Keys(d) else Keys(d) + [k]
  {
    if d != [] {
      KeysCons(d);
      var r := Put(d, k, v);
      KeysCons(r);
      if d[0].0 != k {
        PutKeys(d[1..], k, v);
      }
    }
  }

  /** No key is listed twice after an assignment that none was before. */
  lemma {:induction false} PutDistinct(d: Dict, k: string, v: string)
    requires Distinct(d)
    ensures Distinct(Put(d, k, v))
  {
    if d != [] {
      DistinctCons(d);
      KeysCons(d);
      if d[0].0 == k {
        ConsDistinct((k, v), d[1..]);
      } else {
        PutDistinct(d[1..], k, v);
        PutKeys(d[1..], k, v);
        ConsDistinct(d[0], Put(d[1..], k, v));
      }
    }
  }

  lemma KeysCons(d: Dict)
    requires d != []
    ensures Keys(d) == [d[0].0] + Keys(d[1..])
  {
  }

  /** A dict with distinct keys is its first entry before a dict without that key. */
  lemma DistinctCons(d: Dict)
    requires d != []
    ensures Distinct(d) ==> Distinct(d[1..]) && d[0].0 !in Keys(d[1..])
  {
  }

  lemma ConsDistinct(x: (string, string), d: Dict)
    ensures Distinct(d) && x.0 !in Keys(d) ==> Distinct([x] + d)
  {
    if Distinct(d) && x.0 !in Keys(d) {
      forall j | 0 <= j < |d| ensures d[j].0 != x.0 {
        assert Keys(d)[j] == d[j].0;
      }
    }
  }
}
