/**
 * Python's zero-padded decimal format `f"{n:0<width>d}"`, as the capture ids
 * and the numbered listings use it.
 */
module Padding {
  import opened PyText

  lemma {:induction false} DecimalLeadingZero(s: string)
    requires AllDigits(s)
    ensures AllDigits(['0'] + s) && DecimalValue(['0'] + s) == DecimalValue(s)
    decreases |s|
  {
    var t := ['0'] + s;
    if s != [] {
      assert t[..|t| - 1] == ['0'] + s[..|s| - 1];
      DecimalLeadingZero(s[..|s| - 1]);
    }
  }

  /** Left-pads a digit string with zeros up to `width`, as `f"{n:0<width>d}"` does. */
  function ZeroPad(s: string, width: nat): (r: string)
    requires AllDigits(s)
    ensures AllDigits(r) && |r| == if |s| >= width then |s| else width
    ensures DecimalValue(r) == DecimalValue(s)
    decreases width - |s|
  {
    if |s| >= width then s
    else
      DecimalLeadingZero(s);
      ZeroPad(['0'] + s, width)
  }

  /** The padding is zeros put in front of the digits. */
  lemma {:induction false} ZeroPadShape(s: string, width: nat)
    requires AllDigits(s)
    ensures var r := ZeroPad(s, width);
            r[|r| - |s|..] == s && forall i :: 0 <= i < |r| - |s| ==> r[i] == '0'
    decreases width - |s|
  {
    if |s| < width {
      DecimalLeadingZero(s);
      ZeroPadShape(['0'] + s, width);
      var r := ZeroPad(s, width);
      assert r[|r| - |s|..] == (r[|r| - |s| - 1..])[1..];
    }
  }

  /** `str(n)` has at most three digits exactly below 1000. */
  lemma NatToStringWidth(n: nat)
    ensures n < 1000 <==> |NatToString(n)| <= 3
  {
    if n >= 1000 {
      var a := n / 10;
      var b := a / 10;
      var c := b / 10;
      assert a >= 100 && b >= 10 && c >= 1;
      assert |NatToString(n)| == |NatToString(a)| + 1 == |NatToString(b)| + 2 == |NatToString(c)| + 3;
    } else if n >= 10 {
      var a := n / 10;
      assert a < 100;
      if a >= 10 {
        assert a / 10 < 10;
        assert |NatToString(a)| == |NatToString(a / 10)| + 1 == 2;
      }
      assert |NatToString(n)| == |NatToString(a)| + 1;
    }
  }

  /** `f"{n:03d}"` for a non-negative `n`: exactly three digits below 1000,
      plain `str(n)` from 1000 on, and reading its digits back gives `n`. */
  function Pad3(n: nat): (r: string)
    ensures AllDigits(r) && DecimalValue(r) == n
    ensures n < 1000 ==> |r| == 3
    ensures n >= 1000 ==> r == NatToString(n)
  {
    DecimalOfNatToString(n);
    NatToStringWidth(n);
    ZeroPad(NatToString(n), 3)
  }
}
