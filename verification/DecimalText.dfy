/** The text in which a decimal number is persisted, and reading it back: the scientific
    string of a sign, a coefficient and an exponent. */
module DecimalText {
  import opened Wrappers

  datatype Decimal = Decimal(negative: bool, coefficient: nat, exponent: int)

  // ----- whole numbers -----

  function Digit(n: nat): char
    requires n < 10
  {
    "0123456789"[n]
  }

  function Digits(n: nat): (s: string) {
    if n < 10 then [Digit(n)] else Digits(n / 10) + [Digit(n % 10)]
  }

  predicate IsDigit(c: char) {
    '0' <= c <= '9'
  }

  predicate AllDigits(s: string) {
    forall k :: 0 <= k < |s| ==> IsDigit(s[k])
  }

  /** The number that digits denote, leading zeros allowed. */
  function Value(s: string): nat
    requires AllDigits(s)
  {
    if s == "" then 0 else Value(s[..|s| - 1]) * 10 + (s[|s| - 1] as int - '0' as int)
  }

  lemma DigitValue(n: nat)
    requires n < 10
    ensures IsDigit(Digit(n)) && Digit(n) as int - '0' as int == n
  {
  }

  lemma {:induction false} DigitsRead(n: nat)
    ensures Digits(n) != "" && AllDigits(Digits(n)) && Value(Digits(n)) == n
  {
    DigitValue(n % 10);
    if n < 10 {
      assert Digits(n)[..0] == "";
    } else {
      DigitsRead(n / 10);
      assert Digits(n)[..|Digits(n)| - 1] == Digits(n / 10);
    }
  }

  function Zeros(k: nat): string {
    seq(k, _ => '0')
  }

  lemma {:induction false} LeadingZeros(k: nat, s: string)
    requires AllDigits(s)
    ensures AllDigits(Zeros(k) + s) && Value(Zeros(k) + s) == Value(s)
    decreases |s|, k
  {
    if s != "" {
      LeadingZeros(k, s[..|s| - 1]);
      assert (Zeros(k) + s)[..k + |s| - 1] == Zeros(k) + s[..|s| - 1];
    } else if k > 0 {
      LeadingZeros(k - 1, s);
      assert Zeros(k) + s == Zeros(k) && Zeros(k - 1) + s == Zeros(k - 1);
      assert Zeros(k)[..k - 1] == Zeros(k - 1);
    }
  }

  // ----- writing -----

  function SignedText(n: int): string {
    if n < 0 then "-" + Digits(-n) else "+" + Digits(n)
  }

  /** Digits around a point, which may lie before the first of them. */
  function Mantissa(digits: string, point: int): string
    requires digits != ""
  {
    if point <= 0 then "0." + Zeros(-point) + digits
    else if point >= |digits| then digits + Zeros(point - |digits|)
    else digits[..point] + "." + digits[point..]
  }

  /** Plain notation for exponents from 0 down to where six zeros would follow the point,
      otherwise one digit before the point and an exponent. */
  function Render(d: Decimal): string {
    DigitsRead(d.coefficient);
    var digits := Digits(d.coefficient);
    var left := d.exponent + |digits|;
    var point := if d.exponent <= 0 && left > -6 then left else 1;
    (if d.negative then "-" else "")
    + Mantissa(digits, point)
    + (if left == point then "" else "E" + SignedText(left - point))
  }

  // ----- reading -----

  datatype Parts = Parts(before: string, after: Option<string>)

  /** s up to the first c, and what follows it. */
  function Cut(s: string, c: char): Parts {
    if s == "" then Parts("", None)
    else if s[0] == c then Parts("", Some(s[1..]))
    else
      var p := Cut(s[1..], c);
      Parts([s[0]] + p.before, p.after)
  }

  predicate IsSign(c: char) {
    c == '-' || c == '+'
  }

  function Unsigned(s: string): string {
    if s != "" && IsSign(s[0]) then s[1..] else s
  }

  predicate IsNegative(s: string) {
    s != "" && s[0] == '-'
  }

  function ParseSigned(s: string): Option<int> {
    var digits := Unsigned(s);
    if digits == "" || !AllDigits(digits) then None
    else
      var n: int := Value(digits);
      Some(if IsNegative(s) then -n else n)
  }

  function Tail(p: Parts): string {
    if p.after.Some? then p.after.value else ""
  }

  /** None where the text is no number. */
  function Parse(s: string): Option<Decimal> {
    var body := Cut(Unsigned(s), 'E');
    var number := Cut(body.before, '.');
    var digits := number.before + Tail(number);
    var exponent := if body.after.Some? then ParseSigned(body.after.value) else Some(0);
    if digits == "" || !AllDigits(digits) || exponent.None? then None
    else Some(Decimal(IsNegative(s), Value(digits), exponent.value - |Tail(number)|))
  }

  // ----- the round trip -----

  lemma {:induction false} CutFinds(a: string, c: char, b: string)
    requires c !in a
    ensures Cut(a + [c] + b, c) == Parts(a, Some(b))
    decreases |a|
  {
    var s := a + [c] + b;
    if a == "" {
      assert s[0] == c && s[1..] == b;
    } else {
      CutFinds(a[1..], c, b);
      assert s[1..] == a[1..] + [c] + b && s[0] == a[0];
      assert a == [a[0]] + a[1..];
    }
  }

  lemma {:induction false} CutMisses(a: string, c: char)
    requires c !in a
    ensures Cut(a, c) == Parts(a, None)
    decreases |a|
  {
    if a != "" {
      CutMisses(a[1..], c);
      assert a == [a[0]] + a[1..];
    }
  }

  lemma SignedRead(n: int)
    ensures ParseSigned(SignedText(n)) == Some(n)
  {
    hide Digits, Value;
    var m := if n < 0 then -n else n;
    DigitsRead(m);
    assert Unsigned(SignedText(n)) == Digits(m);
  }

  /** A mantissa splits at its point into digits of the same value. */
  predicate Splits(m: string, digits: string, fraction: int)
    requires AllDigits(digits)
  {
    var p := Cut(m, '.');
    var s := p.before + Tail(p);
    s != "" && AllDigits(s) && Value(s) == Value(digits) && |Tail(p)| == fraction
  }

  lemma SplitBefore(digits: string, point: int)
    requires digits != "" && AllDigits(digits) && point <= 0
    ensures Splits(Mantissa(digits, point), digits, |digits| - point)
  {
    hide Value, Cut;
    var fraction := Zeros(-point) + digits;
    CutFinds("0", '.', fraction);
    assert Mantissa(digits, point) == "0" + ['.'] + fraction;
    LeadingZeros(1 - point, digits);
    assert "0" + fraction == Zeros(1 - point) + digits;
  }

  lemma SplitInside(digits: string, point: int)
    requires digits != "" && AllDigits(digits) && 0 < point <= |digits|
    ensures Splits(Mantissa(digits, point), digits, |digits| - point)
  {
    hide Value, Cut;
    var a, b := digits[..point], digits[point..];
    assert a + b == digits;
    if b == "" {
      assert Mantissa(digits, point) == digits && a == digits;
      CutMisses(digits, '.');
      assert digits + "" == digits;
    } else {
      CutFinds(a, '.', b);
      assert Mantissa(digits, point) == a + ['.'] + b;
    }
  }

  lemma MantissaPlain(digits: string, point: int)
    requires digits != "" && AllDigits(digits) && point <= |digits|
    ensures
      var m := Mantissa(digits, point);
      m != "" && IsDigit(m[0]) && 'E' !in m
  {
    if point <= 0 {
      assert Mantissa(digits, point) == "0." + Zeros(-point) + digits;
    }
  }

  lemma BodyCut(m: string, e: int, body: string)
    requires 'E' !in m && body == m + if e == 0 then "" else "E" + SignedText(e)
    ensures Cut(body, 'E') == Parts(m, if e == 0 then None else Some(SignedText(e)))
  {
    hide SignedText, Cut;
    if e == 0 {
      assert body == m;
      CutMisses(m, 'E');
    } else {
      assert body == m + ['E'] + SignedText(e);
      CutFinds(m, 'E', SignedText(e));
    }
  }

  lemma SignRead(negative: bool, body: string)
    requires body != "" && IsDigit(body[0])
    ensures
      var s := if negative then "-" + body else body;
      Unsigned(s) == body && IsNegative(s) == negative
  {
  }

  /** Reading back what was written loses nothing: sign, digits and exponent, trailing zeros
      and negative zero included. */
  lemma TextRoundTrip(d: Decimal)
    ensures Parse(Render(d)) == Some(d)
  {
    hide Mantissa, Cut, Digits, Value, AllDigits, SignedText, ParseSigned, Unsigned, IsNegative;
    DigitsRead(d.coefficient);
    var digits := Digits(d.coefficient);
    var left := d.exponent + |digits|;
    var point := if d.exponent <= 0 && left > -6 then left else 1;
    var m := Mantissa(digits, point);
    var body := m + if left == point then "" else "E" + SignedText(left - point);
    MantissaPlain(digits, point);
    if point <= 0 { SplitBefore(digits, point); } else { SplitInside(digits, point); }
    BodyCut(m, left - point, body);
    SignedRead(left - point);
    SignRead(d.negative, body);
    assert Render(d) == if d.negative then "-" + body else body;
  }
}
