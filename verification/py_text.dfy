/**
 * The pieces of Python's `str` and `list` behaviour that the formatters,
 * parsers and builders rely on: whitespace stripping, `splitlines`,
 * `partition`, `split`, `join`, `upper`/`lower`, `int(...)` parsing,
 * decimal and hexadecimal rendering, and slicing with clamped bounds.
 */
module PyText {
  import opened Wrappers

  // ---------------------------------------------------------------------
  // Character classes
  // ---------------------------------------------------------------------

  /** The characters for which Python's `str.isspace()` holds. */
  predicate IsSpace(c: char) {
    var n := c as int;
    (9 <= n <= 13) || (0x1c <= n <= 0x20) || n == 0x85 || n == 0xa0 || n == 0x1680
    || (0x2000 <= n <= 0x200a) || n == 0x2028 || n == 0x2029 || n == 0x202f
    || n == 0x205f || n == 0x3000
  }

  /** The characters at which Python's `str.splitlines()` ends a line. */
  predicate IsLineBreak(c: char) {
    var n := c as int;
    (10 <= n <= 13) || (0x1c <= n <= 0x1e) || n == 0x85 || n == 0x2028 || n == 0x2029
  }

  predicate IsDigit(c: char) { '0' <= c <= '9' }

  predicate IsHexDigit(c: char) { '0' <= c <= '9' || 'a' <= c <= 'f' || 'A' <= c <= 'F' }

  predicate AllDigits(s: string) { forall i :: 0 <= i < |s| ==> IsDigit(s[i]) }

  predicate AllHexDigits(s: string) { forall i :: 0 <= i < |s| ==> IsHexDigit(s[i]) }

  predicate NoSpace(s: string) { forall i :: 0 <= i < |s| ==> !IsSpace(s[i]) }

  // ---------------------------------------------------------------------
  // strip, splitlines
  // ---------------------------------------------------------------------

  function LStrip(s: string): (r: string)
    ensures |r| <= |s| && r == s[|s| - |r|..]
    ensures forall i :: 0 <= i < |s| - |r| ==> IsSpace(s[i])
    ensures r == [] || !IsSpace(r[0])
  {
    if s != [] && IsSpace(s[0]) then LStrip(s[1..]) else s
  }

  function RStrip(s: string): (r: string)
    ensures |r| <= |s| && r == s[..|r|]
    ensures forall i :: |r| <= i < |s| ==> IsSpace(s[i])
    ensures r == [] || !IsSpace(r[|r| - 1])
  {
    if s != [] && IsSpace(s[|s| - 1]) then RStrip(s[..|s| - 1]) else s
  }

  /** Python's `s.strip()`: the result neither starts nor ends with whitespace. */
  function Strip(s: string): (r: string)
    ensures |r| <= |s|
    ensures r == [] || (!IsSpace(r[0]) && !IsSpace(r[|r| - 1]))
  {
    var l := LStrip(s);
    var r := RStrip(l);
    assert r != [] ==> r[0] == l[0];
    r
  }

  /** Stripping a string that holds no whitespace leaves it unchanged. */
  lemma StripNoSpace(s: string)
    requires NoSpace(s)
    ensures Strip(s) == s
  {
    var l := LStrip(s);
    assert l == s by {
      if s != [] { assert !IsSpace(s[0]); }
    }
    if s != [] { assert !IsSpace(s[|s| - 1]); }
  }

  /** Index of the first line break in `s`, or `|s|` when there is none. */
  function FirstBreak(s: string): (i: nat)
    ensures i <= |s|
    ensures i < |s| ==> IsLineBreak(s[i])
    ensures forall j :: 0 <= j < i ==> !IsLineBreak(s[j])
  {
    if s == [] || IsLineBreak(s[0]) then 0 else 1 + FirstBreak(s[1..])
  }

  /**
   * Python's `s.splitlines()`: "\r\n" is one break, every other break
   * character ends a line on its own, and a final break adds no empty line.
   */
  function SplitLines(s: string): (lines: seq<string>)
    ensures forall k, j :: 0 <= k < |lines| && 0 <= j < |lines[k]| ==> !IsLineBreak(lines[k][j])
    ensures s == [] <==> lines == []
    decreases |s|
  {
    if s == [] then []
    else
      var i := FirstBreak(s);
      if i == |s| then [s]
      else
        var next := if s[i] == '\r' && i + 1 < |s| && s[i + 1] == '\n' then i + 2 else i + 1;
        [s[..i]] + SplitLines(s[next..])
  }

  /** `raw.strip().splitlines()`, the first step of every formatter. */
  function Lines(raw: string): seq<string> {
    SplitLines(Strip(raw))
  }

  // ---------------------------------------------------------------------
  // Searching, partition, split, join
  // ---------------------------------------------------------------------

  predicate StartsWith(s: string, p: string) {
    |p| <= |s| && s[..|p|] == p
  }

  lemma ConcatEnds(a: string, b: string)
    ensures StartsWith(a + b, a)
    ensures (a + b)[|a|..] == b
    ensures a != [] ==> (a + b)[0] == a[0]
  {
    assert (a + b)[..|a|] == a;
  }

  predicate OccursAt(s: string, p: string, i: nat) {
    i + |p| <= |s| && s[i..i + |p|] == p
  }

  function FindFrom(s: string, p: string, i: nat): (r: Option<nat>)
    ensures r.Some? ==> i <= r.value && OccursAt(s, p, r.value)
    ensures forall j: nat :: i <= j && (r.None? || j < r.value) ==> !OccursAt(s, p, j)
    decreases |s| - i
  {
    if i + |p| > |s| then None
    else if OccursAt(s, p, i) then Some(i)
    else FindFrom(s, p, i + 1)
  }

  /** Python's `s.find(p)`: the first position at which `p` occurs. */
  function Find(s: string, p: string): (r: Option<nat>)
    ensures r.Some? ==> OccursAt(s, p, r.value)
    ensures forall j: nat :: (r.None? || j < r.value) ==> !OccursAt(s, p, j)
  {
    FindFrom(s, p, 0)
  }

  /** Python's `p in s`. */
  predicate Contains(s: string, p: string) {
    Find(s, p).Some?
  }

  /** Python's `s.partition(sep)[0]`. */
  function Before(s: string, sep: string): (r: string)
    ensures !Contains(s, sep) ==> r == s
  {
    match Find(s, sep)
    case None => s
    case Some(i) => s[..i]
  }

  /** Python's `s.partition(sep)[2]` (also `s.split(sep, 1)[1]` when `sep in s`). */
  function After(s: string, sep: string): (r: string)
    ensures !Contains(s, sep) ==> r == ""
  {
    match Find(s, sep)
    case None => ""
    case Some(i) => s[i + |sep|..]
  }

  /** A string that begins with a prefix ending in `sep`, whose only `sep` is at its end,
      has everything after that prefix as its partition remainder. */
  lemma AfterPrefix(s: string, prefix: string, sep: string)
    requires StartsWith(s, prefix) && |sep| <= |prefix|
    requires OccursAt(prefix, sep, |prefix| - |sep|)
    requires forall j: nat :: j < |prefix| - |sep| ==> !OccursAt(prefix, sep, j)
    ensures Contains(s, sep) && After(s, sep) == s[|prefix|..]
  {
    var k := |prefix| - |sep|;
    assert s[..|prefix|][k..k + |sep|] == s[k..k + |sep|];
    assert OccursAt(s, sep, k);
    forall j: nat | j < k ensures !OccursAt(s, sep, j) {
      assert !OccursAt(prefix, sep, j);
      assert prefix == s[..|prefix|];
      assert s[..|prefix|][j..j + |sep|] == s[j..j + |sep|];
    }
  }

  function IndexOfChar(s: string, c: char): (i: nat)
    ensures i <= |s|
    ensures i < |s| ==> s[i] == c
    ensures forall j :: 0 <= j < i ==> s[j] != c
  {
    if s == [] || s[0] == c then 0 else 1 + IndexOfChar(s[1..], c)
  }

  /** Python's `s.split(c)` for a one-character separator. */
  function SplitOn(s: string, c: char): (parts: seq<string>)
    ensures |parts| >= 1
    ensures forall k, j :: 0 <= k < |parts| && 0 <= j < |parts[k]| ==> parts[k][j] != c
    decreases |s|
  {
    var i := IndexOfChar(s, c);
    if i == |s| then [s] else [s[..i]] + SplitOn(s[i + 1..], c)
  }

  /** Python's `sep.join(parts)`. */
  function Join(parts: seq<string>, sep: string): string {
    if |parts| == 0 then ""
    else if |parts| == 1 then parts[0]
    else Join(parts[..|parts| - 1], sep) + sep + parts[|parts| - 1]
  }

  lemma {:induction false} JoinCons(a: string, rest: seq<string>, sep: string)
    requires rest != []
    ensures Join([a] + rest, sep) == a + sep + Join(rest, sep)
    decreases |rest|
  {
    if |rest| == 1 {
      assert [a] + rest == [a, rest[0]];
      assert ([a] + rest)[..1] == [a];
    } else {
      var init := rest[..|rest| - 1];
      assert ([a] + rest)[..|rest|] == [a] + init;
      JoinCons(a, init, sep);
    }
  }

  /** Splitting at a character and joining with it again gives back the text. */
  lemma {:induction false} JoinSplitOn(s: string, c: char)
    ensures Join(SplitOn(s, c), [c]) == s
    decreases |s|
  {
    var i := IndexOfChar(s, c);
    if i < |s| {
      var rest := s[i + 1..];
      SplitOnStep(s, c);
      JoinSplitOn(rest, c);
      Reassemble(s, i);
    } else {
      assert SplitOn(s, c) == [s];
    }
  }

  lemma Reassemble(s: string, i: nat)
    requires i < |s|
    ensures s[..i] + [s[i]] + s[i + 1..] == s
  {
  }

  /** Splitting at the first separator and joining again puts it back. */
  lemma SplitOnStep(s: string, c: char)
    requires IndexOfChar(s, c) < |s|
    ensures var i := IndexOfChar(s, c);
            Join(SplitOn(s, c), [c]) == s[..i] + [c] + Join(SplitOn(s[i + 1..], c), [c])
  {
    var i := IndexOfChar(s, c);
    var parts := SplitOn(s[i + 1..], c);
    assert SplitOn(s, c) == [s[..i]] + parts;
    JoinCons(s[..i], parts, [c]);
  }

  predicate Lacks(s: string, c: char) { forall i :: 0 <= i < |s| ==> s[i] != c }

  /** Joining parts free of the separator and splitting again gives the parts. */
  lemma {:induction false} SplitOnJoin(parts: seq<string>, c: char)
    requires parts != [] && forall k :: 0 <= k < |parts| ==> Lacks(parts[k], c)
    ensures SplitOn(Join(parts, [c]), c) == parts
    decreases |parts|
  {
    var a := parts[0];
    assert IndexOfChar(a, c) == |a|;
    if |parts| > 1 {
      var rest := parts[1..];
      assert parts == [a] + rest;
      JoinCons(a, rest, [c]);
      var t := Join(rest, [c]);
      var s := a + [c] + t;
      assert s[|a|] == c;
      assert IndexOfChar(s, c) == |a|;
      assert s[..|a|] == a && s[|a| + 1..] == t;
      SplitOnJoin(rest, c);
    }
  }

  /** A join of parts and a separator free of `c` is free of `c`. */
  lemma {:induction false} JoinLacks(parts: seq<string>, sep: string, c: char)
    requires Lacks(sep, c) && forall k :: 0 <= k < |parts| ==> Lacks(parts[k], c)
    ensures Lacks(Join(parts, sep), c)
  {
    if |parts| > 1 {
      JoinLacks(parts[..|parts| - 1], sep, c);
    }
  }

  /** A join of the first `k` parts begins the join of all of them. */
  lemma {:induction false} JoinPrefix(parts: seq<string>, sep: string, k: nat)
    requires 1 <= k <= |parts|
    ensures StartsWith(Join(parts, sep), Join(parts[..k], sep))
  {
    if k < |parts| {
      var init := parts[..|parts| - 1];
      assert init[..k] == parts[..k];
      JoinPrefix(init, sep, k);
      ConcatEnds(Join(init, sep), sep + parts[|parts| - 1]);
      assert Join(parts, sep) == Join(init, sep) + (sep + parts[|parts| - 1]);
    } else {
      assert parts[..k] == parts;
    }
  }

  /** Where part `i` starts in a join. */
  function PartOffset(parts: seq<string>, sep: string, i: nat): nat
    requires i < |parts|
  {
    if i == 0 then 0 else |Join(parts[..i], sep)| + |sep|
  }

  /** Every part occurs in the join, at its offset. */
  lemma PartInJoin(parts: seq<string>, sep: string, i: nat)
    requires i < |parts|
    ensures OccursAt(Join(parts, sep), parts[i], PartOffset(parts, sep, i))
    ensures Contains(Join(parts, sep), parts[i])
  {
    var whole := Join(parts, sep);
    var upTo := Join(parts[..i + 1], sep);
    JoinPrefix(parts, sep, i + 1);
    var off := PartOffset(parts, sep, i);
    if i == 0 {
      assert upTo == parts[0];
    } else {
      var pre := parts[..i + 1];
      assert pre[..i] == parts[..i];
      assert upTo == Join(parts[..i], sep) + sep + parts[i];
    }
    assert upTo[off..off + |parts[i]|] == parts[i];
    assert whole[..|upTo|] == upTo;
    assert whole[off..off + |parts[i]|] == parts[i];
    assert OccursAt(whole, parts[i], off);
  }

  // ---------------------------------------------------------------------
  // Case mapping and character removal
  // ---------------------------------------------------------------------

  function UpperChar(c: char): char {
    if 'a' <= c <= 'z' then (c as int - 32) as char else c
  }

  function LowerChar(c: char): char {
    if 'A' <= c <= 'Z' then (c as int + 32) as char else c
  }

  /** Python's `s.upper()` on ASCII letters. */
  function Upper(s: string): (r: string)
    ensures |r| == |s|
  {
    seq(|s|, i requires 0 <= i < |s| => UpperChar(s[i]))
  }

  /** Python's `s.lower()` on ASCII letters. */
  function Lower(s: string): (r: string)
    ensures |r| == |s|
  {
    seq(|s|, i requires 0 <= i < |s| => LowerChar(s[i]))
  }

  /** Python's `s.replace(c, "")`. */
  function RemoveChar(s: string, c: char): (r: string)
    ensures |r| <= |s|
    ensures forall i :: 0 <= i < |r| ==> r[i] != c
  {
    if s == [] then []
    else RemoveChar(s[..|s| - 1], c) + (if s[|s| - 1] == c then [] else [s[|s| - 1]])
  }

  lemma {:induction false} RemoveCharAppend(a: string, b: string, c: char)
    ensures RemoveChar(a + b, c) == RemoveChar(a, c) + RemoveChar(b, c)
    decreases |b|
  {
    if b == [] {
      assert a + b == a;
    } else {
      var b' := b[..|b| - 1];
      assert (a + b)[..|a + b| - 1] == a + b';
      RemoveCharAppend(a, b', c);
    }
  }

  /** Removing a character the text does not hold changes nothing. */
  lemma {:induction false} RemoveAbsent(s: string, c: char)
    requires Lacks(s, c)
    ensures RemoveChar(s, c) == s
  {
    if s != [] {
      RemoveAbsent(s[..|s| - 1], c);
    }
  }

  // ---------------------------------------------------------------------
  // Integers: rendering and parsing
  // ---------------------------------------------------------------------

  function DigitChar(d: nat): (c: char)
    requires d < 10
    ensures IsDigit(c)
  {
    ('0' as int + d) as char
  }

  function DigitValue(c: char): nat
    requires IsDigit(c)
  {
    c as int - '0' as int
  }

  /** Python's `str(n)` for a non-negative integer. */
  function NatToString(n: nat): (r: string)
    ensures |r| >= 1 && AllDigits(r)
  {
    if n < 10 then [DigitChar(n)] else NatToString(n / 10) + [DigitChar(n % 10)]
  }

  /** Python's `str(i)` and `f"{i}"`. */
  function IntToString(i: int): (r: string)
    ensures NoSpace(r)
  {
    if i < 0 then "-" + NatToString(-i) else NatToString(i)
  }

  /** The value of a string of decimal digits; leading zeros do not count. */
  function DecimalValue(s: string): nat
    requires AllDigits(s)
  {
    if s == [] then 0 else DecimalValue(s[..|s| - 1]) * 10 + DigitValue(s[|s| - 1])
  }

  lemma {:induction false} DecimalOfNatToString(n: nat)
    ensures DecimalValue(NatToString(n)) == n
  {
    if n >= 10 {
      DecimalOfNatToString(n / 10);
      var s := NatToString(n);
      assert s[..|s| - 1] == NatToString(n / 10);
    }
  }

  /** Python's `int(s)` on ASCII decimal text with optional sign and surrounding whitespace. */
  function ParseInt(s: string): (r: Option<int>)
  {
    var t := Strip(s);
    if t == [] then None
    else
      var body := if t[0] == '-' || t[0] == '+' then t[1..] else t;
      if body != [] && AllDigits(body) then
        var v: int := DecimalValue(body);
        Some(if t[0] == '-' then -v else v)
      else None
  }

  /** `int(str(i)) == i`. */
  lemma ParseIntOfIntToString(i: int)
    ensures ParseInt(IntToString(i)) == Some(i)
  {
    if i < 0 {
      var n: nat := -i;
      assert IntToString(i) == "-" + NatToString(n);
      ParseIntOfNegative(n);
    } else {
      assert IntToString(i) == NatToString(i);
      ParseIntOfNat(i);
    }
  }

  lemma ParseIntOfNegative(n: nat)
    requires n > 0
    ensures ParseInt("-" + NatToString(n)) == Some(-(n as int))
  {
    DecimalOfNatToString(n);
    ParseNegative(NatToString(n));
  }

  lemma ParseIntOfNat(n: nat)
    ensures ParseInt(NatToString(n)) == Some(n)
  {
    DecimalOfNatToString(n);
    ParseUnsigned(NatToString(n));
  }

  /** A minus sign and digits read as the negated digits' value. */
  lemma ParseNegative(d: string)
    requires d != [] && AllDigits(d) && NoSpace("-" + d)
    ensures ParseInt("-" + d) == Some(-(DecimalValue(d) as int))
  {
    var t := "-" + d;
    assert t[0] == '-' && t[1..] == d;
    StripNoSpace(t);
  }

  /** Digits read as their value. */
  lemma ParseUnsigned(d: string)
    requires d != [] && AllDigits(d) && NoSpace(d)
    ensures ParseInt(d) == Some(DecimalValue(d))
  {
    assert IsDigit(d[0]) && d[0] != '-' && d[0] != '+';
    StripNoSpace(d);
  }

  function HexDigitValue(c: char): (v: nat)
    requires IsHexDigit(c)
    ensures v < 16
  {
    if '0' <= c <= '9' then c as int - '0' as int
    else if 'a' <= c <= 'f' then c as int - 'a' as int + 10
    else c as int - 'A' as int + 10
  }

  function HexValue(s: string): nat
    requires AllHexDigits(s)
  {
    if s == [] then 0 else HexValue(s[..|s| - 1]) * 16 + HexDigitValue(s[|s| - 1])
  }

  /** Python's `int(s, 16)`: optional whitespace, sign and `0x`/`0X` prefix, then hex digits. */
  function ParseHex(s: string): (r: Option<int>)
  {
    var t := Strip(s);
    if t == [] then None
    else
      var body := if t[0] == '-' || t[0] == '+' then t[1..] else t;
      var digits := if |body| >= 2 && body[0] == '0' && (body[1] == 'x' || body[1] == 'X')
                    then body[2..] else body;
      if digits != [] && AllHexDigits(digits) then
        var v: int := HexValue(digits);
        Some(if t[0] == '-' then -v else v)
      else None
  }

  function LowerHexDigit(d: nat): (c: char)
    requires d < 16
    ensures IsHexDigit(c) && HexDigitValue(c) == d
  {
    if d < 10 then ('0' as int + d) as char else ('a' as int + d - 10) as char
  }

  // ---------------------------------------------------------------------
  // Slicing
  // ---------------------------------------------------------------------

  /** Where Python puts a slice bound `k` on a sequence of length `n`. */
  function SliceBound(k: int, n: nat): (r: nat)
    ensures r <= n
    ensures 0 <= k <= n ==> r == k
  {
    if k < 0 then (if k + n < 0 then 0 else k + n) else if k > n then n else k
  }

  /** Python's `s[i:j]`. */
  function PySlice<T>(s: seq<T>, i: int, j: int): (r: seq<T>)
    ensures 0 <= i <= j <= |s| ==> r == s[i..j]
  {
    var a := SliceBound(i, |s|);
    var b := SliceBound(j, |s|);
    if a < b then s[a..b] else []
  }

  /** Python's `s[:k]`: always a prefix of `s`. */
  function PyPrefix<T>(s: seq<T>, k: int): (r: seq<T>)
    ensures |r| <= |s| && r == s[..|r|]
    ensures 0 <= k ==> |r| == if k < |s| then k else |s|
  {
    s[..SliceBound(k, |s|)]
  }

  // ---------------------------------------------------------------------
  // Sequence steps, stated generically so that no element is unfolded
  // ---------------------------------------------------------------------

  lemma TakeSnoc<T>(s: seq<T>, k: nat)
    requires k < |s|
    ensures s[..k + 1] == s[..k] + [s[k]]
  {
  }

  lemma AppendAssoc<T>(a: seq<T>, b: seq<T>, c: seq<T>)
    ensures a + (b + c) == (a + b) + c
  {
  }
}
