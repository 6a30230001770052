/**
 * An in-memory stand-in for a workbook as pandas reads it with
 * `header=None`: named sheets, each a grid of cells. A grid's rows may have
 * different lengths; the frame is as wide as its longest row and the
 * missing cells of shorter rows read as empty (NaN).
 *
 * This module also models the two pandas primitives the extractors share:
 * `pd.to_numeric(..., errors="coerce")` on one cell, and `Series.sum()`,
 * which skips NaN.
 */
module Frames {

  datatype Option<T> = None | Some(value: T)

  /** A spreadsheet cell: empty (NaN), a number, or text. */
  datatype Cell = Empty | Num(v: real) | Text(s: string)

  type Row = seq<Cell>
  type Grid = seq<Row>
  type Workbook = map<string, Grid>

  function Max(a: nat, b: nat): nat { if a < b then b else a }

  /** Number of columns of the frame: the length of the longest row. */
  function Width(g: Grid): (w: nat)
    ensures forall r :: 0 <= r < |g| ==> |g[r]| <= w
    ensures |g| == 0 ==> w == 0
    ensures |g| > 0 ==> exists r :: 0 <= r < |g| && |g[r]| == w
  {
    if |g| == 0 then 0 else Max(Width(g[..|g| - 1]), |g[|g| - 1]|)
  }

  /** `df.iloc[r, c]`: the cell, or Empty where a short row was padded. */
  function At(g: Grid, r: nat, c: nat): Cell
    requires r < |g| && c < Width(g)
  {
    if c < |g[r]| then g[r][c] else Empty
  }

  // ---------------------------------------------------------------------
  // Decimal text

  predicate IsDigit(ch: char) { '0' <= ch <= '9' }

  predicate AllDigits(s: string) { forall i :: 0 <= i < |s| ==> IsDigit(s[i]) }

  function DigitValue(ch: char): nat
    requires IsDigit(ch)
  {
    ch as nat - '0' as nat
  }

  function DigitChar(d: nat): (ch: char)
    requires d < 10
    ensures IsDigit(ch) && DigitValue(ch) == d
  {
    ('0' as nat + d) as char
  }

  /** Value of a string of decimal digits, most significant first. */
  function DigitsValue(s: string): nat
    requires AllDigits(s)
  {
    if |s| == 0 then 0 else 10 * DigitsValue(s[..|s| - 1]) + DigitValue(s[|s| - 1])
  }

  function Pow10(n: nat): (p: nat)
    ensures p >= 1
  {
    if n == 0 then 1 else 10 * Pow10(n - 1)
  }

  /** Index of the first '.', or |s| when there is none. */
  function DotIndex(s: string): (i: nat)
    ensures i <= |s|
    ensures i < |s| ==> s[i] == '.'
    ensures forall j :: 0 <= j < i ==> s[j] != '.'
  {
    if |s| == 0 then 0
    else if s[0] == '.' then 0
    else 1 + DotIndex(s[1..])
  }

  /** Digits, optionally a '.' and more digits, at least one digit in all. */
  function ParseUnsigned(s: string): Option<real>
  {
    var i := DotIndex(s);
    var whole := s[..i];
    var frac := if i < |s| then s[i + 1..] else "";
    if AllDigits(whole) && AllDigits(frac) && |whole| + |frac| > 0 then
      Some(DigitsValue(whole) as real + DigitsValue(frac) as real / Pow10(|frac|) as real)
    else
      None
  }

  /**
   * The text-to-number conversion of `pd.to_numeric(..., errors="coerce")`
   * for plain decimal notation: an optional leading '-', then digits with
   * at most one '.' and at least one digit. None stands for NaN.
   */
  function ParseDecimal(s: string): Option<real>
  {
    if |s| > 0 && s[0] == '-' then
      match ParseUnsigned(s[1..])
      case Some(v) => Some(-v)
      case None => None
    else
      ParseUnsigned(s)
  }

  /** Text accepted as an unsigned number is not empty, holds only digits and '.', and is not negative. */
  lemma ParseUnsignedAccepts(s: string)
    ensures ParseUnsigned(s).Some? ==> |s| > 0 && forall j :: 0 <= j < |s| ==> IsDigit(s[j]) || s[j] == '.'
    ensures ParseUnsigned(s).Some? ==> ParseUnsigned(s).value >= 0.0
  {
  }

  /**
   * Text accepted as a number is not empty and holds only digits, '.' and
   * '-'; its value is negative only after a leading '-'.
   */
  lemma ParseDecimalAccepts(s: string)
    ensures ParseDecimal(s).Some? ==> |s| > 0 && forall j :: 0 <= j < |s| ==> IsDigit(s[j]) || s[j] == '.' || s[j] == '-'
    ensures ParseDecimal(s).Some? && ParseDecimal(s).value < 0.0 ==> s[0] == '-'
  {
    ParseUnsignedAccepts(s);
    if |s| > 0 {
      ParseUnsignedAccepts(s[1..]);
    }
  }

  /** `str(n)` for a natural number. */
  function NatText(n: nat): string
  {
    if n < 10 then [DigitChar(n)] else NatText(n / 10) + [DigitChar(n % 10)]
  }

  /** `str(i)` for an integer. */
  function IntText(i: int): string
  {
    if i < 0 then "-" + NatText(-i) else NatText(i)
  }

  lemma {:induction false} NatTextDigits(n: nat)
    ensures |NatText(n)| > 0 && AllDigits(NatText(n))
    ensures DigitsValue(NatText(n)) == n
  {
    if n >= 10 {
      NatTextDigits(n / 10);
      var s := NatText(n);
      assert s[..|s| - 1] == NatText(n / 10);
    }
  }

  lemma DigitsHaveNoDot(s: string)
    requires AllDigits(s)
    ensures DotIndex(s) == |s|
  {
  }

  /** Parsing the decimal text of an integer gives that integer back. */
  lemma IntTextRoundTrip(i: int)
    ensures ParseDecimal(IntText(i)) == Some(i as real)
  {
    if i < 0 {
      NatTextParses(-i);
      assert IntText(i)[1..] == NatText(-i);
    } else {
      NatTextParses(i);
      NatTextDigits(i);
      assert IsDigit(IntText(i)[0]);
    }
  }

  lemma NatTextParses(n: nat)
    ensures ParseUnsigned(NatText(n)) == Some(n as real)
  {
    NatTextDigits(n);
    var t := NatText(n);
    DigitsHaveNoDot(t);
    assert t[..|t|] == t;
  }

  /**
   * Python renders a whole-number float such as 1234.0 as "1234.0"; parsing
   * that text gives the number back.
   */
  lemma WholeFloatTextRoundTrip(i: int)
    ensures ParseDecimal(IntText(i) + ".0") == Some(i as real)
  {
    var n: nat := if i < 0 then -i else i;
    NatTextDigits(n);
    DigitsHaveNoDot(NatText(n));
    var t := NatText(n);
    var u := t + ".0";
    assert DotIndex(u) == |t| by {
      assert u[|t|] == '.';
      forall j | 0 <= j < |t| ensures u[j] != '.' {
        assert u[j] == t[j] && IsDigit(t[j]);
      }
      DotIndexFirst(u, |t|);
    }
    assert u[..|t|] == t;
    assert u[|t| + 1..] == "0";
    assert AllDigits("0") && DigitsValue("0") == 0;
    assert ParseUnsigned(u) == Some(n as real + 0.0 / 10.0);
    if i < 0 {
      assert (IntText(i) + ".0")[1..] == u;
    } else {
      assert (IntText(i) + ".0")[0] == t[0];
      assert IsDigit(t[0]);
    }
  }

  lemma {:induction false} DotIndexFirst(s: string, k: nat)
    requires k < |s| && s[k] == '.'
    requires forall j :: 0 <= j < k ==> s[j] != '.'
    ensures DotIndex(s) == k
  {
    if k > 0 {
      DotIndexFirst(s[1..], k - 1);
    }
  }

  /** A text with two dots, or with no digit, is not a number. */
  lemma ParseRejects()
    ensures ParseDecimal("") == None
    ensures ParseDecimal("-") == None
    ensures ParseDecimal(".") == None
    ensures ParseDecimal("1.2.3") == None
    ensures ParseDecimal("1-2") == None
  {
    assert DotIndex("1.2.3") == 1;
    assert !AllDigits("2.3") by { assert "2.3"[1] == '.'; }
    assert !AllDigits("1-2") by { assert "1-2"[1] == '-'; }
  }

  // ---------------------------------------------------------------------
  // pd.to_numeric, float addition and Series.sum

  /** Python's float `+`, None standing for NaN: NaN on either side gives NaN. */
  function NanAdd(x: Option<real>, y: Option<real>): Option<real>
  {
    if x.Some? && y.Some? then Some(x.value + y.value) else None
  }

  /** `pd.to_numeric(cell, errors="coerce")`; None stands for NaN. */
  function ToNumeric(c: Cell): Option<real>
  {
    match c
    case Empty => None
    case Num(v) => Some(v)
    case Text(s) => ParseDecimal(s)
  }

  /** `Series.sum()`: NaN entries are skipped and an all-NaN series sums to 0. */
  function SkipNaSum(xs: seq<Option<real>>): real
  {
    if |xs| == 0 then 0.0
    else SkipNaSum(xs[..|xs| - 1]) + (match xs[|xs| - 1] case Some(v) => v case None => 0.0)
  }

  /** The numbers of a series with its NaN entries dropped, in order. */
  function Present(xs: seq<Option<real>>): seq<real>
  {
    if |xs| == 0 then []
    else Present(xs[..|xs| - 1]) + (match xs[|xs| - 1] case Some(v) => [v] case None => [])
  }

  function Sum(xs: seq<real>): real
  {
    if |xs| == 0 then 0.0 else Sum(xs[..|xs| - 1]) + xs[|xs| - 1]
  }

  lemma {:induction false} SumAppend(xs: seq<real>, ys: seq<real>)
    ensures Sum(xs + ys) == Sum(xs) + Sum(ys)
  {
    if |ys| > 0 {
      SumAppend(xs, ys[..|ys| - 1]);
      assert (xs + ys)[..|xs + ys| - 1] == xs + ys[..|ys| - 1];
    } else {
      assert xs + ys == xs;
    }
  }

  /** NaN entries are left out of the sum, not counted as anything. */
  lemma {:induction false} SkipNaSumIsSumOfPresent(xs: seq<Option<real>>)
    ensures SkipNaSum(xs) == Sum(Present(xs))
  {
    if |xs| > 0 {
      SkipNaSumIsSumOfPresent(xs[..|xs| - 1]);
      var tail := match xs[|xs| - 1] case Some(v) => [v] case None => [];
      SumAppend(Present(xs[..|xs| - 1]), tail);
    }
  }

  /** A series without a number in it sums to 0. */
  lemma {:induction false} SkipNaSumAllNa(xs: seq<Option<real>>)
    requires forall i :: 0 <= i < |xs| ==> xs[i].None?
    ensures SkipNaSum(xs) == 0.0
    ensures Present(xs) == []
  {
    if |xs| > 0 {
      SkipNaSumAllNa(xs[..|xs| - 1]);
    }
  }

  /** The sum of a concatenation is the sum of the parts. */
  lemma {:induction false} SkipNaSumAppend(xs: seq<Option<real>>, ys: seq<Option<real>>)
    ensures SkipNaSum(xs + ys) == SkipNaSum(xs) + SkipNaSum(ys)
  {
    if |ys| > 0 {
      SkipNaSumAppend(xs, ys[..|ys| - 1]);
      assert (xs + ys)[..|xs + ys| - 1] == xs + ys[..|ys| - 1];
    } else {
      assert xs + ys == xs;
    }
  }
}
