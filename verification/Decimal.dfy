/** Decimal text: what strconv.Itoa prints and strconv.Atoi accepts. */
module Decimal {
  import opened Prelude

  predicate IsDigit(c: char) { '0' <= c <= '9' }

  predicate AllDigits(s: string) { forall i | 0 <= i < |s| :: IsDigit(s[i]) }

  function Digit(n: nat): (c: char)
    requires n < 10
    ensures IsDigit(c) && DigitValue(c) == n
  {
    ('0' as int + n) as char
  }

  function DigitValue(c: char): nat
    requires IsDigit(c)
  {
    c as int - '0' as int
  }

  function Digits(n: nat): (s: string)
    ensures |s| > 0 && AllDigits(s)
  {
    if n < 10 then [Digit(n)] else Digits(n / 10) + [Digit(n % 10)]
  }

  function Itoa(n: int): string {
    if n < 0 then "-" + Digits(-n) else Digits(n)
  }

  function Value(s: string): nat
    requires AllDigits(s)
  {
    if s == "" then 0 else 10 * Value(s[..|s| - 1]) + DigitValue(s[|s| - 1])
  }

  predicate NoLeadingZero(s: string) {
    |s| > 0 && (s[0] == '0' ==> |s| == 1)
  }

  lemma {:induction false} PrintedValue(n: nat)
    ensures Value(Digits(n)) == n
    ensures NoLeadingZero(Digits(n)) && (Digits(n)[0] == '0' ==> n == 0)
  {
    if n >= 10 {
      PrintedValue(n / 10);
      assert Digits(n)[..|Digits(n)| - 1] == Digits(n / 10);
    } else {
      assert Digits(n)[..0] == "";
    }
  }

  lemma {:induction false} CanonicalText(s: string)
    requires AllDigits(s) && NoLeadingZero(s)
    ensures Digits(Value(s)) == s
    ensures |s| > 1 ==> Value(s) >= 10
  {
    var init, last := s[..|s| - 1], DigitValue(s[|s| - 1]);
    if |s| == 1 {
      assert init == "";
    } else {
      assert init[0] == s[0];
      CanonicalText(init);
      assert Value(s) / 10 == Value(init) && Value(s) % 10 == last;
      assert init + [s[|s| - 1]] == s;
    }
  }

  /** Different numbers print differently. */
  lemma PrintsApart(m: int, n: int)
    requires Itoa(m) == Itoa(n)
    ensures m == n
  {
    PrintedValue(if m < 0 then -m else m);
    PrintedValue(if n < 0 then -n else n);
    assert forall k: int :: (Itoa(k)[0] == '-' <==> k < 0) && (k < 0 ==> Itoa(k)[1..] == Digits(-k));
  }

  /** Atoi: an optional sign, at least one digit, and a value that fits in 64 bits. */
  function Atoi(s: string): Option<int64> {
    var negative := |s| > 0 && s[0] == '-';
    var body := if |s| > 0 && (s[0] == '-' || s[0] == '+') then s[1..] else s;
    if body == "" || !AllDigits(body) then None
    else
      var n := if negative then -(Value(body) as int) else Value(body);
      if MIN64 <= n <= MAX64 then Some(n) else None
  }

  /** Text up to the first occurrence of a mark is determined, wherever the mark occurs later. */
  lemma FirstMark(mark: char, p: string, q: string, x: string, y: string)
    requires mark !in p && mark !in q && p + [mark] + x == q + [mark] + y
    ensures p == q && x == y
  {
    var s := p + [mark] + x;
    assert s[|p|] == mark && s[|q|] == mark;
    assert |p| == |q| by {
      assert forall i | 0 <= i < |p| :: s[i] == p[i];
      assert forall i | 0 <= i < |q| :: s[i] == q[i];
    }
    assert p == s[..|p|] && q == s[..|q|] && x == s[|p| + 1..] && y == s[|q| + 1..];
  }

  lemma SixMore(n: nat)
    ensures |Digits(n)| <= 6 + |Digits(n / 1_000_000)|
  {
    var a := n / 10;
    var b := a / 10;
    var c := b / 10;
    var d := c / 10;
    var e := d / 10;
    assert n / 1_000_000 == e / 10;
    assert |Digits(n)| <= 1 + |Digits(a)| && |Digits(a)| <= 1 + |Digits(b)| && |Digits(b)| <= 1 + |Digits(c)|;
    assert |Digits(c)| <= 1 + |Digits(d)| && |Digits(d)| <= 1 + |Digits(e)| && |Digits(e)| <= 1 + |Digits(e / 10)|;
  }

  /** A 64-bit number prints in at most nineteen digits. */
  lemma AtMostNineteen(n: nat)
    requires n <= MAX64
    ensures |Digits(n)| <= 19
  {
    SixMore(n);
    SixMore(n / 1_000_000);
    SixMore(n / 1_000_000 / 1_000_000);
  }

  /** Digits are decimal, the most significant first. */
  lemma {:induction false} ValueOfAppended(a: string, c: char)
    requires AllDigits(a) && IsDigit(c)
    ensures AllDigits(a + [c]) && Value(a + [c]) == 10 * Value(a) + (c as int - '0' as int)
  {
    assert (a + [c])[..|a|] == a;
  }

  /** Atoi, exactly: an optional sign, then one digit or more, of a value that fits in 64 bits. */
  lemma AtoiExact(s: string, n: int)
    ensures Atoi(s).Some? && Atoi(s).value == n <==>
            && MIN64 <= n <= MAX64
            && (|| (s != "" && AllDigits(s) && Value(s) == n)
                || (|s| > 1 && s[0] == '+' && AllDigits(s[1..]) && Value(s[1..]) == n)
                || (|s| > 1 && s[0] == '-' && AllDigits(s[1..]) && Value(s[1..]) == -n))
  {
    if s != "" && (s[0] == '+' || s[0] == '-') { assert !IsDigit(s[0]); }
  }
}
