/**
 * The per-channel statistics both capture summarizers report: how many
 * samples are high, how many edges (changes between neighbouring samples)
 * there are, and the activity word chosen from those counts.
 */
module ChannelStats {

  datatype Activity = Active | AlwaysHigh | AlwaysLow | Static

  /** `s.count(c)` for a single character. */
  function CountChar(s: string, c: char): (n: nat)
    ensures n <= |s|
  {
    if s == [] then 0 else CountChar(s[..|s| - 1], c) + (if s[|s| - 1] == c then 1 else 0)
  }

  /** The number of positions `i >= 1` where `s[i] != s[i - 1]`. */
  function Edges(s: string): (n: nat)
    ensures |s| > 0 ==> n < |s|
    ensures |s| <= 1 ==> n == 0
  {
    if |s| < 2 then 0 else Edges(s[..|s| - 1]) + (if s[|s| - 1] != s[|s| - 2] then 1 else 0)
  }

  /** The activity word: edges first, then all high, then all low. */
  function ActivityOf(high: nat, total: nat, edges: nat): Activity {
    if edges > 0 then Active
    else if high == total then AlwaysHigh
    else if high == 0 then AlwaysLow
    else Static
  }

  predicate IsBits(s: string) {
    forall i :: 0 <= i < |s| ==> s[i] == '0' || s[i] == '1'
  }

  /** Edges of a concatenation: those of each part, plus one where the parts
      meet when the last sample of the first differs from the first of the
      second. */
  lemma {:induction false} EdgesAppend(a: string, b: string)
    ensures Edges(a + b) == Edges(a) + Edges(b) + (if a != [] && b != [] && a[|a| - 1] != b[0] then 1 else 0)
    decreases |b|
  {
    if b == [] {
      assert a + b == a;
    } else {
      var b' := b[..|b| - 1];
      var x := b[|b| - 1];
      assert (a + b)[..|a + b| - 1] == a + b';
      if b' == [] {
        assert b == [x] && a + b' == a;
        if a != [] {
          assert (a + b)[|a + b| - 2] == a[|a| - 1];
        }
      } else {
        EdgesAppend(a, b');
        assert (a + b)[|a + b| - 2] == b'[|b'| - 1];
        assert b'[0] == b[0];
        if |b| >= 2 {
          assert b[..|b| - 1] == b';
        }
      }
    }
  }

  lemma {:induction false} CountAppend(a: string, b: string, c: char)
    ensures CountChar(a + b, c) == CountChar(a, c) + CountChar(b, c)
    decreases |b|
  {
    if b == [] {
      assert a + b == a;
    } else {
      assert (a + b)[..|a + b| - 1] == a + b[..|b| - 1];
      CountAppend(a, b[..|b| - 1], c);
    }
  }

  lemma CountSnoc(s: string, x: char, c: char)
    ensures CountChar(s + [x], c) == CountChar(s, c) + (if x == c then 1 else 0)
  {
    assert (s + [x])[..|s|] == s;
  }

  /** One more sample adds an edge exactly when it differs from the last. */
  lemma EdgesSnoc(s: string, x: char)
    ensures Edges(s + [x]) == Edges(s) + (if s != [] && s[|s| - 1] != x then 1 else 0)
  {
    assert (s + [x])[..|s|] == s;
  }

  /** No edges means every sample equals the first one, and back. */
  lemma {:induction false} NoEdgesConstant(s: string)
    requires s != []
    ensures Edges(s) == 0 <==> forall i :: 0 <= i < |s| ==> s[i] == s[0]
  {
    if |s| >= 2 {
      var init := s[..|s| - 1];
      NoEdgesConstant(init);
      assert forall i :: 0 <= i < |init| ==> init[i] == s[i];
    }
  }

  lemma {:induction false} CountUniform(s: string, c: char)
    ensures (forall i :: 0 <= i < |s| ==> s[i] == c) ==> CountChar(s, c) == |s|
    ensures (forall i :: 0 <= i < |s| ==> s[i] != c) ==> CountChar(s, c) == 0
  {
    if s != [] {
      CountUniform(s[..|s| - 1], c);
    }
  }

  /** A non-empty run of `0`s and `1`s without edges is all high or all low,
      so its activity is never `Static`. */
  lemma BitsNeverStatic(s: string)
    requires IsBits(s) && s != []
    ensures ActivityOf(CountChar(s, '1'), |s|, Edges(s)) != Static
  {
    if Edges(s) == 0 {
      NoEdgesConstant(s);
      CountUniform(s, '1');
    }
  }
}
