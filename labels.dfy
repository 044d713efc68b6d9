/** The text the endpoints build: period labels and truncated display labels.

    A period label is the year, a dash and the month with at least two
    digits: f'{year}-{month:02d}' in the KPI endpoints and
    YEAR.astype(str) + '-' + MONTH.astype(str).str.zfill(2) in the others;
    the two agree on every integer month.  For four-digit years and
    calendar months the labels sort as strings in chronological order,
    which is what makes the string-keyed monthly charts chronological. */
module Labels {
  import opened Order
  import opened Table

  function Digit(d: nat): (c: char)
    requires d < 10
    ensures '0' <= c <= '9'
  {
    ['0', '1', '2', '3', '4', '5', '6', '7', '8', '9'][d]
  }

  function DigitValue(c: char): (d: nat)
    requires '0' <= c <= '9'
    ensures d < 10 && Digit(d) == c
  {
    if c == '0' then 0 else if c == '1' then 1 else if c == '2' then 2 else if c == '3' then 3
    else if c == '4' then 4 else if c == '5' then 5 else if c == '6' then 6 else if c == '7' then 7
    else if c == '8' then 8 else 9
  }

  ghost predicate AllDigits(s: string) {
    forall i :: 0 <= i < |s| ==> '0' <= s[i] <= '9'
  }

  /** str(n) for a non-negative integer: decimal digits, no leading zero. */
  function NatToString(n: nat): string
    decreases n
  {
    if n < 10 then [Digit(n)] else NatToString(n / 10) + [Digit(n % 10)]
  }

  /** The printed form is a non-empty run of digits, a single digit exactly below ten. */
  lemma {:induction false} NatToStringDigits(n: nat)
    ensures |NatToString(n)| > 0 && AllDigits(NatToString(n))
    ensures n < 10 <==> |NatToString(n)| == 1
    decreases n
  {
    if n >= 10 {
      NatToStringDigits(n / 10);
    }
  }

  /** int(s) for a string of decimal digits. */
  function ParseNat(s: string): nat
    requires AllDigits(s)
    decreases |s|
  {
    if s == [] then 0 else ParseNat(s[..|s| - 1]) * 10 + DigitValue(s[|s| - 1])
  }

  /** Reading the printed number back gives the number. */
  lemma {:induction false} ParseNatToString(n: nat)
    ensures AllDigits(NatToString(n)) && ParseNat(NatToString(n)) == n
    decreases n
  {
    NatToStringDigits(n);
    var s := NatToString(n);
    if n >= 10 {
      ParseNatToString(n / 10);
      assert s[..|s| - 1] == NatToString(n / 10);
    }
  }

  /** str(i) for any integer. */
  function IntToString(i: int): string {
    if i < 0 then "-" + NatToString(-i) else NatToString(i)
  }

  /** f'{m:02d}' and str(m).zfill(2): a single digit gets a leading zero; everything else is str(m). */
  function PadTwo(m: int): string {
    if 0 <= m < 10 then "0" + NatToString(m) else IntToString(m)
  }

  /** 'YYYY-MM' */
  function PeriodLabel(p: Period): string {
    IntToString(p.year) + "-" + PadTwo(p.month)
  }

  function Pow10(w: nat): (r: nat)
    ensures r >= 1
  {
    if w == 0 then 1 else 10 * Pow10(w - 1)
  }

  /** n written with exactly w digits (leading zeros): the shape of a 4-digit year or a zero-padded month. */
  function Digits(n: nat, w: nat): (s: string)
    ensures |s| == w
    decreases w
  {
    if w == 0 then [] else Digits(n / 10, w - 1) + [Digit(n % 10)]
  }

  lemma DigitOrder(a: nat, b: nat)
    requires a < 10 && b < 10
    ensures Digit(a) < Digit(b) <==> a < b
  {
  }

  /** Fixed-width digit strings compare as strings exactly as the numbers compare. */
  lemma {:induction false} DigitsOrder(a: nat, b: nat, w: nat)
    requires a < Pow10(w) && b < Pow10(w)
    ensures StrLt(Digits(a, w), Digits(b, w)) <==> a < b
    decreases w
  {
    if w == 0 {
      assert a == 0 && b == 0;
    } else {
      var pa, pb := Digits(a / 10, w - 1), Digits(b / 10, w - 1);
      assert a / 10 < Pow10(w - 1) && b / 10 < Pow10(w - 1);
      DigitsOrder(a / 10, b / 10, w - 1);
      DigitsOrder(b / 10, a / 10, w - 1);
      StrLtConcat(pa, pb, [Digit(a % 10)], [Digit(b % 10)]);
      DigitOrder(a % 10, b % 10);
      if pa == pb {
        StrLtIrreflexive(pa);
        assert a / 10 == b / 10;
      } else {
        assert a / 10 != b / 10;
      }
    }
  }

  /** A number with w digits prints as its w-digit form. */
  lemma {:induction false} NatToStringIsDigits(n: nat, w: nat)
    requires w >= 1 && Pow10(w - 1) <= n < Pow10(w)
    ensures NatToString(n) == Digits(n, w)
    decreases w
  {
    if w == 1 {
      assert n < 10;
    } else {
      assert n >= 10;
      assert Pow10(w - 2) <= n / 10 < Pow10(w - 1);
      NatToStringIsDigits(n / 10, w - 1);
    }
  }

  /** A two-digit-or-less month pads to its 2-digit form. */
  lemma PadTwoIsDigits(m: nat)
    requires m < 100
    ensures PadTwo(m) == Digits(m, 2)
  {
    if m < 10 {
      assert Digits(m, 2) == Digits(0, 1) + [Digit(m)];
      assert Digits(0, 1) == [Digit(0)];
    } else {
      NatToStringIsDigits(m, 2);
    }
  }

  predicate FourDigitYear(p: Period) {
    1000 <= p.year <= 9999
  }

  lemma YearLabelIsDigits(p: Period)
    requires FourDigitYear(p)
    ensures IntToString(p.year) == Digits(p.year, 4)
  {
    assert Pow10(3) == 1000 && Pow10(4) == 10000;
    NatToStringIsDigits(p.year, 4);
  }

  /** For 4-digit years and calendar months, sorting the 'YYYY-MM' labels as strings
      (sort_index() on the string key) is sorting the periods chronologically. */
  lemma LabelOrderIsChronological(p: Period, q: Period)
    requires FourDigitYear(p) && FourDigitYear(q)
    requires 1 <= p.month <= 12 && 1 <= q.month <= 12
    ensures StrLt(PeriodLabel(p), PeriodLabel(q)) <==> PeriodLt(p, q)
  {
    var yp, yq := Digits(p.year, 4), Digits(q.year, 4);
    var mp, mq := Digits(p.month, 2), Digits(q.month, 2);
    YearLabelIsDigits(p);
    YearLabelIsDigits(q);
    PadTwoIsDigits(p.month);
    PadTwoIsDigits(q.month);
    assert PeriodLabel(p) == yp + ("-" + mp);
    assert PeriodLabel(q) == yq + ("-" + mq);
    StrLtConcat(yp, yq, "-" + mp, "-" + mq);
    StrLtConcat("-", "-", mp, mq);
    DigitsOrder(p.year, q.year, 4);
    DigitsOrder(q.year, p.year, 4);
    DigitsOrder(p.month, q.month, 2);
    if yp == yq {
      StrLtIrreflexive(yp);
    }
  }

  /** On those periods the label identifies the period, so grouping by label is grouping by period. */
  lemma LabelIsInjective(p: Period, q: Period)
    requires FourDigitYear(p) && FourDigitYear(q)
    requires 1 <= p.month <= 12 && 1 <= q.month <= 12
    requires PeriodLabel(p) == PeriodLabel(q)
    ensures p == q
  {
    LabelOrderIsChronological(p, q);
    LabelOrderIsChronological(q, p);
    StrLtIrreflexive(PeriodLabel(p));
  }

  /** str(s)[:n] + '...' when s is longer than n, else s. */
  function Truncate(s: string, n: nat): (t: string)
    ensures |s| <= n ==> t == s
    ensures |s| > n ==> |t| == n + 3
  {
    if |s| > n then s[..n] + "..." else s
  }

  /** A long text keeps its first n characters and gains "..." after them. */
  lemma TruncateParts(s: string, n: nat)
    requires |s| > n
    ensures Truncate(s, n)[..n] == s[..n] && Truncate(s, n)[n..] == "..."
  {
  }

  /** f"{code} - {description truncated to n}" */
  function DisplayLabel(code: string, description: string, n: nat): (shown: string)
    ensures |shown| == |code| + 3 + |Truncate(description, n)|
  {
    code + " - " + Truncate(description, n)
  }

  /** The label is the code, then " - ", then the truncated description. */
  lemma DisplayLabelParts(code: string, description: string, n: nat)
    ensures var shown := DisplayLabel(code, description, n);
      && shown[..|code|] == code
      && shown[|code|..|code| + 3] == " - "
      && shown[|code| + 3..] == Truncate(description, n)
  {
    var shown := DisplayLabel(code, description, n);
    assert shown == code + " - " + Truncate(description, n);
  }
}
