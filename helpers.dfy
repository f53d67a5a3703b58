/**
 * `removeTrailingZeros` (src/helpers.ts), modelled on the decimal string that
 * `toString` produces: it strips the trailing '0' characters and then a
 * dangling '.', and hands the rest to `parseFloat`.
 */
module Helpers {

  /** JavaScript's `indexOf` for one character: its first position, or -1. */
  function IndexOf(s: string, c: char): (r: int)
    ensures -1 <= r < |s|
    ensures r == -1 <==> c !in s
    ensures r >= 0 ==> s[r] == c
  {
    if s == [] then -1
    else if s[0] == c then 0
    else
      var j := IndexOf(s[1..], c);
      if j == -1 then -1 else j + 1
  }

  /** The position `IndexOf` finds is the first: `c` does not occur before it. */
  lemma {:induction false} IndexOfFirst(s: string, c: char)
    ensures IndexOf(s, c) >= 0 ==> c !in s[..IndexOf(s, c)]
  {
    if s != [] && s[0] != c {
      IndexOfFirst(s[1..], c);
      var j := IndexOf(s[1..], c);
      if j >= 0 {
        assert s[..j + 1] == [s[0]] + s[1..][..j];
      }
    }
  }

  /** `s` without its trailing run of '0' characters. */
  function DropTrailingZeros(s: string): (r: string)
    ensures r <= s
    ensures r == [] || r[|r| - 1] != '0'
  {
    if s != [] && s[|s| - 1] == '0' then DropTrailingZeros(s[..|s| - 1]) else s
  }

  /** What `DropTrailingZeros` cuts off is all '0's. */
  lemma {:induction false} DroppedAreZeros(s: string)
    ensures forall k :: |DropTrailingZeros(s)| <= k < |s| ==> s[k] == '0'
  {
    if s != [] && s[|s| - 1] == '0' {
      DroppedAreZeros(s[..|s| - 1]);
    }
  }

  /** What may be cut off: a run of '0's, or a '.' followed by a run of '0's. */
  predicate ZerosOrDotZeros(u: string)
  {
    (forall k :: 0 <= k < |u| ==> u[k] == '0')
    || (|u| > 0 && u[0] == '.' && forall k :: 1 <= k < |u| ==> u[k] == '0')
  }

  /** True of every string `Number.prototype.toString` produces. */
  predicate AtMostOneDot(s: string)
  {
    forall i, j :: 0 <= i < j < |s| && s[i] == '.' ==> s[j] != '.'
  }

  /** The string that `removeTrailingZeros` keeps (the argument of `parseFloat`). */
  function Trimmed(s: string): (r: string)
    ensures '.' !in s ==> r == s
    ensures r <= s
  {
    if '.' !in s then s
    else
      var t := DropTrailingZeros(s);
      if t != [] && t[|t| - 1] == '.' then t[..|t| - 1] else t
  }

  /**
   * With a '.', trimming keeps everything up to the first '.' and cuts off
   * only a run of '0's, or the '.' itself with the '0's after it.
   */
  lemma TrimmedCut(s: string)
    requires '.' in s
    ensures IndexOf(s, '.') <= |Trimmed(s)|
    ensures ZerosOrDotZeros(s[|Trimmed(s)|..])
  {
    var t := DropTrailingZeros(s);
    var d := IndexOf(s, '.');
    DroppedAreZeros(s);
    assert s[d] == '.';
    assert d < |t|;
  }

  /**
   * The loop of src/helpers.ts: `i` runs down from the last position while
   * it points at '0', steps over one '.', and the prefix up to `i` is kept.
   * Every index the loop reads is in bounds, because the scan stops at the
   * '.' at the latest.
   */
  method RemoveTrailingZeros(strNum: string) returns (r: string)
    ensures r == Trimmed(strNum)
  {
    var decimalIndex := IndexOf(strNum, '.');
    if decimalIndex == -1 {
      return strNum;
    }
    var i := |strNum| - 1;
    assert strNum[..i + 1] == strNum;
    while strNum[i] == '0'
      invariant decimalIndex <= i < |strNum|
      invariant DropTrailingZeros(strNum[..i + 1]) == DropTrailingZeros(strNum)
      decreases i
    {
      assert strNum[..i + 1][..i] == strNum[..i];
      i := i - 1;
    }
    assert DropTrailingZeros(strNum) == strNum[..i + 1];
    if strNum[i] == '.' {
      i := i - 1;
    }
    r := strNum[..i + 1];
  }

  /** With one '.' at most, the result never ends in '.', and it ends in '0' only if it has no '.'. */
  lemma TrimmedEnding(s: string)
    requires AtMostOneDot(s)
    ensures var r := Trimmed(s);
      (r == [] || r[|r| - 1] != '.') && ('.' in r ==> r[|r| - 1] != '0')
  {
    var r := Trimmed(s);
    if '.' in s {
      var t := DropTrailingZeros(s);
      var d := IndexOf(s, '.');
      DroppedAreZeros(s);
      assert s[d] == '.';
      assert d < |t|;
      if t[|t| - 1] == '.' {
        assert s[|t| - 1] == '.';
        assert r == s[..|t| - 1];
        assert forall k :: 0 <= k < |r| ==> r[k] == s[k] && s[k] != '.';
      }
    }
  }

  /** Trimming a trimmed number string changes nothing. */
  lemma TrimmedIdempotent(s: string)
    requires AtMostOneDot(s)
    ensures Trimmed(Trimmed(s)) == Trimmed(s)
  {
    var r := Trimmed(s);
    TrimmedEnding(s);
    if '.' in r {
      assert r[|r| - 1] != '0';
      assert DropTrailingZeros(r) == r;
    }
  }

  /**
   * The scan does not know about exponents: the '0' that ends the exponent
   * of "1.5e-10" is cut off like a fractional zero, so 1.5e-10 comes back
   * as 0.15.
   */
  lemma TrimmedExponent()
    ensures Trimmed("1.5e-10") == "1.5e-1"
  {
  }
}
