/** The Agent Card limit check: a text is accepted exactly when it is a JSON number (section 6 of RFC 8259)
    denoting a positive integer, however long its coefficient and exponent are. */
module JsonNumber {
  import opened Wrappers

  /******* The grammar and what a number denotes *******/

  predicate IsDigit(c: char) {
    '0' <= c <= '9'
  }

  predicate AllDigits(s: string) {
    forall i | 0 <= i < |s| :: IsDigit(s[i])
  }

  function DigitValue(c: char): nat
    requires IsDigit(c)
  {
    (c as int) - ('0' as int)
  }

  /** A leading zero stands alone. */
  predicate IntegerPart(s: string) {
    s != "" && AllDigits(s) && (s[0] == '0' ==> |s| == 1)
  }

  datatype Sign = NoSign | Plus | Minus

  function SignText(sign: Sign): string {
    match sign
    case NoSign => ""
    case Plus => "+"
    case Minus => "-"
  }

  datatype Number = Number(negative: bool, integer: string, fraction: string, exponent: string, marker: char, sign: Sign)

  /** An empty fraction or exponent means the number has none; without an exponent there is no sign to choose. */
  predicate WellFormed(n: Number) {
    && IntegerPart(n.integer) && AllDigits(n.fraction) && AllDigits(n.exponent)
    && (n.marker == 'e' || n.marker == 'E')
    && (n.exponent == "" ==> n.marker == 'e' && n.sign.NoSign?)
  }

  function FractionText(fraction: string): string {
    if fraction == "" then "" else "." + fraction
  }

  function ExponentText(n: Number): string {
    if n.exponent == "" then "" else [n.marker] + SignText(n.sign) + n.exponent
  }

  function RenderUnsigned(n: Number): string {
    n.integer + (FractionText(n.fraction) + ExponentText(n))
  }

  function Render(n: Number): string {
    if n.negative then "-" + RenderUnsigned(n) else RenderUnsigned(n)
  }

  function Value(digits: string): nat
    requires AllDigits(digits)
  {
    if digits == "" then 0 else 10 * Value(digits[..|digits| - 1]) + DigitValue(digits[|digits| - 1])
  }

  function Pow10(n: nat): nat
    ensures Pow10(n) > 0
  {
    if n == 0 then 1 else 10 * Pow10(n - 1)
  }

  function Coefficient(n: Number): nat
    requires WellFormed(n)
  {
    Value(n.integer + n.fraction)
  }

  predicate Times(k: nat, d: nat, n: nat) {
    k * d == n
  }

  /** `coefficient * 10^exponent / 10^|fraction|` is the positive integer `k`, written without division. */
  ghost predicate Denotes(n: Number, k: nat)
    requires WellFormed(n)
  {
    var e := Value(n.exponent);
    if n.sign.Minus? then Times(k, Pow10(|n.fraction| + e), Coefficient(n))
    else Times(k, Pow10(|n.fraction|), Coefficient(n) * Pow10(e))
  }

  ghost predicate PositiveInteger(n: Number)
    requires WellFormed(n)
  {
    !n.negative && exists k: nat :: k > 0 && Denotes(n, k)
  }

  /******* Trailing zeros decide divisibility by powers of ten *******/

  function TrailingZeros(digits: string): nat {
    if digits == "" || digits[|digits| - 1] != '0' then 0 else 1 + TrailingZeros(digits[..|digits| - 1])
  }

  predicate HasNonzero(digits: string) {
    exists i | 0 <= i < |digits| :: digits[i] != '0'
  }

  ghost predicate Divides(d: nat, n: nat) {
    exists k: nat :: Times(k, d, n)
  }

  lemma {:induction false} ValueZero(digits: string)
    requires AllDigits(digits)
    ensures Value(digits) == 0 <==> !HasNonzero(digits)
  {
    if digits != "" {
      var init := digits[..|digits| - 1];
      ValueZero(init);
      if HasNonzero(init) {
        var i :| 0 <= i < |init| && init[i] != '0';
        assert digits[i] != '0';
      }
    }
  }

  lemma ScaleTimes(k: nat, d: nat, n: nat)
    ensures Times(k, 10 * d, 10 * n) <==> Times(k, d, n)
  {
    assert k * (10 * d) == 10 * (k * d);
  }

  lemma ScaleDivides(d: nat, n: nat)
    ensures Divides(10 * d, 10 * n) <==> Divides(d, n)
  {
    if k: nat :| Times(k, d, n) { ScaleTimes(k, d, n); }
    if k: nat :| Times(k, 10 * d, 10 * n) { ScaleTimes(k, d, n); }
  }

  lemma TenDivides(n: nat, m: nat)
    requires m > 0 && Divides(Pow10(m), n)
    ensures n % 10 == 0
  {
    var k: nat :| Times(k, Pow10(m), n);
    assert k * (10 * Pow10(m - 1)) == 10 * (k * Pow10(m - 1));
  }

  lemma NotTenfold(digits: string, m: nat)
    requires AllDigits(digits) && digits != "" && digits[|digits| - 1] != '0' && m > 0
    ensures !Divides(Pow10(m), Value(digits))
  {
    if Divides(Pow10(m), Value(digits)) {
      TenDivides(Value(digits), m);
    }
  }

  /** A nonzero coefficient is divisible by 10^m exactly when it ends in at least m zeros. */
  lemma {:induction false} TrailingZerosExact(digits: string, m: nat)
    requires AllDigits(digits) && HasNonzero(digits)
    ensures Divides(Pow10(m), Value(digits)) <==> m <= TrailingZeros(digits)
  {
    var init, last := digits[..|digits| - 1], digits[|digits| - 1];
    if m == 0 {
      assert Times(Value(digits), Pow10(0), Value(digits));
    } else if last == '0' {
      var i :| 0 <= i < |digits| && digits[i] != '0';
      assert init[i] != '0';
      TrailingZerosExact(init, m - 1);
      ScaleDivides(Pow10(m - 1), Value(init));
    } else {
      NotTenfold(digits, m);
    }
  }

  lemma {:induction false} ScaledDivides(n: nat, e: nat, m: nat)
    ensures Divides(Pow10(m), n * Pow10(e)) <==> m <= e || Divides(Pow10(m - e), n)
  {
    if m == 0 {
      assert Times(n * Pow10(e), Pow10(m), n * Pow10(e));
    } else if e == 0 {
      assert n * Pow10(0) == n;
    } else {
      assert n * Pow10(e) == 10 * (n * Pow10(e - 1));
      ScaleDivides(Pow10(m - 1), n * Pow10(e - 1));
      ScaledDivides(n, e - 1, m - 1);
    }
  }

  lemma PositiveQuotient(d: nat, n: nat)
    requires n > 0
    ensures Divides(d, n) <==> exists k: nat :: k > 0 && Times(k, d, n)
  {
    if k: nat :| Times(k, d, n) {
      assert k > 0;
    }
  }

  /** What an exponent means for integrality: it must reach the last coefficient digit that is not a trailing zero. */
  predicate Reaches(n: Number)
    requires WellFormed(n)
  {
    var zeros, e := TrailingZeros(n.integer + n.fraction), Value(n.exponent);
    if n.sign.Minus? then |n.fraction| + e <= zeros else |n.fraction| <= zeros + e
  }

  lemma ScaledPositive(n: nat, e: nat)
    requires n > 0
    ensures n * Pow10(e) > 0
  {
  }

  /** A nonzero coefficient scaled by its exponent is an integer exactly when the exponent reaches far enough. */
  lemma IntegralExactly(n: Number)
    requires WellFormed(n) && HasNonzero(n.integer + n.fraction)
    ensures (exists k: nat :: k > 0 && Denotes(n, k)) <==> Reaches(n)
  {
    var digits, e := n.integer + n.fraction, Value(n.exponent);
    ValueZero(digits);
    if n.sign.Minus? {
      IntegralDown(n, Value(digits), |n.fraction| + e);
      TrailingZerosExact(digits, |n.fraction| + e);
    } else {
      ScaledPositive(Value(digits), e);
      IntegralUp(n, Value(digits) * Pow10(e), |n.fraction|);
      ScaledDivides(Value(digits), e, |n.fraction|);
      if |n.fraction| > e {
        TrailingZerosExact(digits, |n.fraction| - e);
      }
    }
  }

  lemma IntegralDown(n: Number, value: nat, m: nat)
    requires WellFormed(n) && n.sign.Minus? && value == Coefficient(n) > 0 && m == |n.fraction| + Value(n.exponent)
    ensures (exists k: nat :: k > 0 && Denotes(n, k)) <==> Divides(Pow10(m), value)
  {
    PositiveQuotient(Pow10(m), value);
    if k: nat :| k > 0 && Times(k, Pow10(m), value) { assert Denotes(n, k); }
    if k: nat :| k > 0 && Denotes(n, k) { assert Times(k, Pow10(m), value); }
  }

  lemma IntegralUp(n: Number, value: nat, m: nat)
    requires WellFormed(n) && !n.sign.Minus? && value == Coefficient(n) * Pow10(Value(n.exponent)) > 0 && m == |n.fraction|
    ensures (exists k: nat :: k > 0 && Denotes(n, k)) <==> Divides(Pow10(m), value)
  {
    PositiveQuotient(Pow10(m), value);
    if k: nat :| k > 0 && Times(k, Pow10(m), value) { assert Denotes(n, k); }
    if k: nat :| k > 0 && Denotes(n, k) { assert Times(k, Pow10(m), value); }
  }

  /** A zero coefficient denotes zero, never a positive integer. */
  lemma ZeroNotPositive(n: Number)
    requires WellFormed(n) && !HasNonzero(n.integer + n.fraction)
    ensures !PositiveInteger(n)
  {
    ValueZero(n.integer + n.fraction);
    var e := Value(n.exponent);
    forall k: nat | k > 0 ensures !Denotes(n, k) {
      assert k * Pow10(|n.fraction| + e) > 0 && k * Pow10(|n.fraction|) > 0;
      assert 0 * Pow10(e) == 0;
    }
  }

  /******* Reading a text, piece by piece from the left *******/

  /** The length of the leading run of digits. */
  function Run(s: string): (k: nat)
    ensures k <= |s| && AllDigits(s[..k]) && (k < |s| ==> !IsDigit(s[k]))
  {
    if s != "" && IsDigit(s[0]) then
      var k := 1 + Run(s[1..]);
      assert s[..k] == [s[0]] + s[1..][..k - 1];
      k
    else 0
  }

  function SignAt(s: string, i: nat): Sign {
    if i < |s| && s[i] == '+' then Plus else if i < |s| && s[i] == '-' then Minus else NoSign
  }

  datatype Exponent = Exponent(marker: char, sign: Sign, digits: string)

  function ReadExponent(s: string): Option<Exponent> {
    if s == "" then Some(Exponent('e', NoSign, ""))
    else if s[0] != 'e' && s[0] != 'E' then None
    else
      var sign := SignAt(s, 1);
      var k := 1 + |SignText(sign)|;
      if k < |s| && AllDigits(s[k..]) then Some(Exponent(s[0], sign, s[k..])) else None
  }

  datatype Fraction = Fraction(digits: string, rest: string)

  function ReadFraction(s: string): Option<Fraction> {
    if s == "" || s[0] != '.' then Some(Fraction("", s))
    else
      var k := Run(s[1..]);
      if k == 0 then None else Some(Fraction(s[1..1 + k], s[1 + k..]))
  }

  /** Everything after the minus sign, if there is one. */
  function Unsigned(text: string): string {
    if Negative(text) then text[1..] else text
  }

  function ReadUnsigned(negative: bool, body: string): Option<Number> {
    var k := Run(body);
    if !IntegerPart(body[..k]) then None
    else
      var fraction := ReadFraction(body[k..]);
      if fraction.None? then None
      else
        var exponent := ReadExponent(fraction.value.rest);
        if exponent.None? then None
        else Some(Assemble(negative, body[..k], fraction.value.digits, exponent.value))
  }

  predicate Negative(text: string) {
    text != "" && text[0] == '-'
  }

  /** The number a text spells. */
  function Parse(text: string): Option<Number> {
    ReadUnsigned(Negative(text), Unsigned(text))
  }

  ghost predicate Spells(text: string, n: Number) {
    WellFormed(n) && Render(n) == text
  }

  lemma {:induction false} RunOf(digits: string, rest: string)
    requires AllDigits(digits) && (rest == "" || !IsDigit(rest[0]))
    ensures Run(digits + rest) == |digits|
  {
    if digits == "" {
      assert digits + rest == rest;
    } else {
      assert (digits + rest)[1..] == digits[1..] + rest;
      RunOf(digits[1..], rest);
    }
  }

  function RenderExponent(e: Exponent): string {
    if e.digits == "" then "" else [e.marker] + SignText(e.sign) + e.digits
  }

  predicate ValidExponent(e: Exponent) {
    && AllDigits(e.digits) && (e.marker == 'e' || e.marker == 'E')
    && (e.digits == "" ==> e.marker == 'e' && e.sign.NoSign?)
  }

  lemma ExponentSound(s: string)
    ensures ReadExponent(s).Some? ==> ValidExponent(ReadExponent(s).value) && RenderExponent(ReadExponent(s).value) == s
  {
    if s != "" && ReadExponent(s).Some? {
      var sign := SignAt(s, 1);
      var k := 1 + |SignText(sign)|;
      assert s == [s[0]] + s[1..k] + s[k..];
      assert s[1..k] == SignText(sign);
    }
  }

  lemma ExponentComplete(e: Exponent)
    requires ValidExponent(e)
    ensures ReadExponent(RenderExponent(e)) == Some(e)
  {
    if e.digits != "" {
      var s := RenderExponent(e);
      var k := 1 + |SignText(e.sign)|;
      assert s[k..] == e.digits;
      assert s[k] == e.digits[0] && IsDigit(s[k]);
    }
  }

  lemma FractionSound(s: string)
    ensures ReadFraction(s).Some? ==>
              var r := ReadFraction(s).value; AllDigits(r.digits) && FractionText(r.digits) + r.rest == s
  {
    if s != "" && s[0] == '.' && ReadFraction(s).Some? {
      var k := Run(s[1..]);
      assert s[1..1 + k] == s[1..][..k];
      assert s == "." + s[1..1 + k] + s[1 + k..];
    }
  }

  lemma FractionComplete(digits: string, rest: string)
    requires AllDigits(digits) && (rest == "" || (!IsDigit(rest[0]) && rest[0] != '.'))
    ensures ReadFraction(FractionText(digits) + rest) == Some(Fraction(digits, rest))
  {
    if digits == "" {
      assert FractionText(digits) + rest == rest;
    } else {
      var s := FractionText(digits) + rest;
      assert s[1..] == digits + rest;
      RunOf(digits, rest);
      assert s[1..1 + |digits|] == digits;
      assert s[1 + |digits|..] == rest;
    }
  }

  function Assemble(negative: bool, integer: string, fraction: string, e: Exponent): Number {
    Number(negative, integer, fraction, e.digits, e.marker, e.sign)
  }

  lemma AssembleRenders(negative: bool, integer: string, fraction: string, e: Exponent)
    requires IntegerPart(integer) && AllDigits(fraction) && ValidExponent(e)
    ensures WellFormed(Assemble(negative, integer, fraction, e))
    ensures RenderUnsigned(Assemble(negative, integer, fraction, e)) == integer + (FractionText(fraction) + RenderExponent(e))
  {
  }

  lemma PiecesRender(negative: bool, body: string, k: nat, fraction: Fraction, e: Exponent)
    requires k <= |body| && IntegerPart(body[..k])
    requires AllDigits(fraction.digits) && FractionText(fraction.digits) + fraction.rest == body[k..]
    requires ValidExponent(e) && RenderExponent(e) == fraction.rest
    ensures WellFormed(Assemble(negative, body[..k], fraction.digits, e))
    ensures RenderUnsigned(Assemble(negative, body[..k], fraction.digits, e)) == body
  {
    AssembleRenders(negative, body[..k], fraction.digits, e);
    PiecesJoin(body, k);
  }

  lemma PiecesJoin(body: string, k: nat)
    requires k <= |body|
    ensures body[..k] + body[k..] == body
  {
  }

  lemma UnsignedSound(negative: bool, body: string, n: Number)
    requires ReadUnsigned(negative, body) == Some(n)
    ensures WellFormed(n) && n.negative == negative && RenderUnsigned(n) == body
  {
    var k := Run(body);
    var fraction := ReadFraction(body[k..]).value;
    FractionSound(body[k..]);
    ExponentSound(fraction.rest);
    PiecesRender(negative, body, k, fraction, ReadExponent(fraction.rest).value);
  }

  lemma UnsignedComplete(n: Number)
    requires WellFormed(n)
    ensures ReadUnsigned(n.negative, RenderUnsigned(n)) == Some(n)
    ensures !Negative(RenderUnsigned(n))
  {
    var e := Exponent(n.marker, n.sign, n.exponent);
    assert RenderExponent(e) == ExponentText(n);
    ExponentComplete(e);
    FractionComplete(n.fraction, ExponentText(n));
    var tail := FractionText(n.fraction) + ExponentText(n);
    RunOf(n.integer, tail);
    var body := n.integer + tail;
    assert body[..|n.integer|] == n.integer && body[|n.integer|..] == tail;
    assert body[0] == n.integer[0];
  }

  /** What was read is a number that renders as the text. */
  lemma ParseSound(text: string)
    ensures Parse(text).Some? ==> Spells(text, Parse(text).value)
  {
    if Parse(text).Some? {
      UnsignedSound(Negative(text), Unsigned(text), Parse(text).value);
    }
    assert Negative(text) ==> text == "-" + text[1..];
  }

  /** Every number is read back from its own text, so a text spells at most one number. */
  lemma ParseComplete(n: Number)
    requires WellFormed(n)
    ensures Parse(Render(n)) == Some(n)
  {
    UnsignedComplete(n);
    assert ("-" + RenderUnsigned(n))[1..] == RenderUnsigned(n);
  }

  /******* The limit check *******/

  datatype LimitResult = Accepted | WrongType | BelowMinimum

  /** Accepted exactly for numbers denoting a positive integer; below the minimum exactly for negative or zero numbers. */
  ghost predicate Verdict(text: string, r: LimitResult) {
    && (r.Accepted? <==> exists n :: Spells(text, n) && PositiveInteger(n))
    && (r.BelowMinimum? <==> exists n :: Spells(text, n) && (n.negative || Coefficient(n) == 0))
  }

  lemma OnlyParsed(text: string, n: Number)
    ensures Spells(text, n) <==> Parse(text) == Some(n)
  {
    ParseSound(text);
    if Spells(text, n) {
      ParseComplete(n);
    }
  }

  lemma NotANumber(text: string)
    requires Parse(text).None?
    ensures Verdict(text, WrongType)
  {
    forall n ensures !Spells(text, n) { OnlyParsed(text, n); }
  }

  function Judge(n: Number): LimitResult {
    if !HasNonzero(n.integer + n.fraction) || n.negative then BelowMinimum
    else if WellFormed(n) && Reaches(n) then Accepted
    else WrongType
  }

  /** The answer of the check, from the number the text spells. */
  function Outcome(text: string): LimitResult {
    match Parse(text)
    case None => WrongType
    case Some(n) => Judge(n)
  }

  lemma VerdictOnOnly(text: string, n: Number, r: LimitResult)
    requires Spells(text, n) && forall m | Spells(text, m) :: m == n
    requires r.Accepted? <==> PositiveInteger(n)
    requires r.BelowMinimum? <==> n.negative || Coefficient(n) == 0
    ensures Verdict(text, r)
  {
  }

  lemma JudgedNumber(text: string, n: Number)
    requires Parse(text) == Some(n)
    ensures Verdict(text, Judge(n))
  {
    OnlyParsed(text, n);
    JudgedWell(n);
    forall m | Spells(text, m) ensures m == n { OnlyParsed(text, m); }
    VerdictOnOnly(text, n, Judge(n));
  }

  lemma JudgedWell(n: Number)
    requires WellFormed(n)
    ensures Judge(n).Accepted? <==> PositiveInteger(n)
    ensures Judge(n).BelowMinimum? <==> n.negative || Coefficient(n) == 0
  {
    ValueZero(n.integer + n.fraction);
    if HasNonzero(n.integer + n.fraction) {
      IntegralExactly(n);
    } else {
      ZeroNotPositive(n);
    }
  }

  /** The check accepts exactly the JSON numbers that denote a positive integer. */
  lemma LimitCheckExactly(text: string)
    ensures Verdict(text, Outcome(text))
  {
    if Parse(text).None? {
      NotANumber(text);
    } else {
      JudgedNumber(text, Parse(text).value);
    }
  }

  lemma {:induction false} RunStep(text: string, i: nat, j: nat)
    requires i <= j <= |text| && AllDigits(text[i..j])
    ensures Run(text[i..]) == j - i + Run(text[j..])
    decreases j - i
  {
    if i < j {
      assert text[i..][1..] == text[i + 1..];
      assert text[i..j][0] == text[i];
      assert text[i + 1..j] == text[i..j][1..];
      RunStep(text, i + 1, j);
    }
  }

  lemma CountSnoc(digits: string, c: char)
    ensures TrailingZeros(digits + [c]) == if c == '0' then 1 + TrailingZeros(digits) else 0
    ensures HasNonzero(digits + [c]) <==> HasNonzero(digits) || c != '0'
  {
    assert (digits + [c])[..|digits|] == digits;
    if HasNonzero(digits) {
      var i :| 0 <= i < |digits| && digits[i] != '0';
      assert (digits + [c])[i] != '0';
    }
    if c != '0' {
      assert (digits + [c])[|digits|] != '0';
    }
  }

  lemma CoefficientStep(text: string, start: nat, end: nat, before: string)
    requires start <= end < |text| && AllDigits(text[start..end]) && IsDigit(text[end])
    ensures AllDigits(text[start..end + 1])
    ensures TrailingZeros(before + text[start..end + 1]) == if text[end] == '0' then 1 + TrailingZeros(before + text[start..end]) else 0
    ensures HasNonzero(before + text[start..end + 1]) <==> HasNonzero(before + text[start..end]) || text[end] != '0'
  {
    CountSnoc(before + text[start..end], text[end]);
    assert text[start..end + 1] == text[start..end] + [text[end]];
    assert before + text[start..end] + [text[end]] == before + text[start..end + 1];
  }

  /** Walks over a run of coefficient digits, counting the zeros at its end. */
  method ScanCoefficient(text: string, start: nat, ghost before: string, nonzero: bool, zeros: nat) returns (end: nat, nonzero': bool, zeros': nat)
    requires start <= |text| && zeros == TrailingZeros(before) && (nonzero <==> HasNonzero(before))
    ensures end == start + Run(text[start..]) <= |text|
    ensures zeros' == TrailingZeros(before + text[start..end]) && (nonzero' <==> HasNonzero(before + text[start..end]))
  {
    end, nonzero', zeros' := start, nonzero, zeros;
    assert before + text[start..start] == before;
    while end < |text| && IsDigit(text[end])
      invariant start <= end <= |text| && AllDigits(text[start..end])
      invariant zeros' == TrailingZeros(before + text[start..end]) && (nonzero' <==> HasNonzero(before + text[start..end]))
    {
      CoefficientStep(text, start, end, before);
      if text[end] == '0' {
        zeros' := zeros' + 1;
      } else {
        nonzero', zeros' := true, 0;
      }
      end := end + 1;
    }
    RunStep(text, start, end);
  }

  /** Walks over the exponent's digits with an accumulator that stops growing beyond the text's length. */
  method ScanExponent(text: string, start: nat) returns (end: nat, magnitude: nat, tooLarge: bool)
    requires start <= |text|
    ensures end == start + Run(text[start..]) <= |text| && AllDigits(text[start..end])
    ensures magnitude <= |text|
    ensures tooLarge ==> Value(text[start..end]) > |text|
    ensures !tooLarge ==> magnitude == Value(text[start..end])
  {
    end, magnitude, tooLarge := start, 0, false;
    var limit := |text|;
    while end < |text| && IsDigit(text[end])
      invariant start <= end <= |text| && AllDigits(text[start..end]) && magnitude <= limit
      invariant tooLarge ==> Value(text[start..end]) > limit
      invariant !tooLarge ==> magnitude == Value(text[start..end])
    {
      var digit := DigitValue(text[end]);
      assert text[start..end + 1] == text[start..end] + [text[end]];
      if !tooLarge {
        if magnitude > limit / 10 || (magnitude == limit / 10 && digit > limit % 10) {
          tooLarge := true;
        } else {
          magnitude := magnitude * 10 + digit;
        }
      }
      end := end + 1;
    }
    RunStep(text, start, end);
  }

  function ExponentAtLeast(negative: bool, magnitude: nat, tooLarge: bool, minimum: int): bool {
    var below := negative && !(magnitude == 0 && !tooLarge);
    if !below then minimum <= 0 || tooLarge || magnitude >= minimum
    else if minimum >= 0 || tooLarge then false
    else magnitude <= -minimum
  }

  lemma {:induction false} ZerosBounded(digits: string)
    ensures TrailingZeros(digits) <= |digits|
  {
    if digits != "" {
      ZerosBounded(digits[..|digits| - 1]);
    }
  }

  /** Saturation never changes the answer: an exponent beyond the text's length outweighs every digit in it. */
  lemma SaturationHarmless(length: nat, n: Number, magnitude: nat, tooLarge: bool)
    requires WellFormed(n) && |n.integer + n.fraction| <= length
    requires tooLarge ==> Value(n.exponent) > length
    requires !tooLarge ==> magnitude == Value(n.exponent)
    ensures ExponentAtLeast(n.sign.Minus?, magnitude, tooLarge, |n.fraction| - TrailingZeros(n.integer + n.fraction)) <==> Reaches(n)
  {
    ZerosBounded(n.integer + n.fraction);
  }

  lemma LeadingZero(text: string, start: nat)
    requires start < |text| && text[start] == '0'
    ensures var k := Run(text[start..]);
            && (k == 1 <==> start + 1 == |text| || !IsDigit(text[start + 1]))
            && (IntegerPart(text[start..start + k]) <==> k == 1)
    ensures TrailingZeros(text[start..start + 1]) == 1 && !HasNonzero(text[start..start + 1])
  {
    assert text[start..][1..] == text[start + 1..];
    var k := Run(text[start..]);
    assert text[start..start + k] == text[start..][..k];
    assert text[start..start + 1] == "0";
    assert TrailingZeros("") == 0 && "0"[..0] == "";
  }

  /** What the integer part of a text from `start` on was read as. */
  ghost predicate IntegerRead(text: string, start: nat, ok: bool, end: nat, nonzero: bool, zeros: nat)
    requires start <= |text|
  {
    var k := Run(text[start..]);
    && (ok <==> IntegerPart(text[start..start + k]))
    && (ok ==> end == start + k <= |text| && zeros == TrailingZeros(text[start..end]) && (nonzero <==> HasNonzero(text[start..end])))
  }

  lemma ZeroRead(text: string, start: nat)
    requires start < |text| && text[start] == '0'
    ensures IntegerRead(text, start, start + 1 == |text| || !IsDigit(text[start + 1]), start + 1, false, 1)
  {
    LeadingZero(text, start);
  }

  lemma NonzeroRead(text: string, start: nat, end: nat, nonzero: bool, zeros: nat)
    requires start < |text| && IsDigit(text[start]) && text[start] != '0' && end == start + Run(text[start..]) <= |text|
    requires zeros == TrailingZeros(text[start..end]) && (nonzero <==> HasNonzero(text[start..end]))
    ensures IntegerRead(text, start, true, end, nonzero, zeros)
  {
    assert text[start..end] == text[start..][..end - start];
  }

  /** The integer part as the check reads it: a lone zero, or digits that do not begin with one. */
  method ScanInteger(text: string, start: nat) returns (ok: bool, end: nat, nonzero: bool, zeros: nat)
    requires start <= |text|
    ensures ok <==> IntegerPart(text[start..start + Run(text[start..])])
    ensures ok ==> end == start + Run(text[start..]) <= |text|
    ensures ok ==> zeros == TrailingZeros(text[start..end]) && (nonzero <==> HasNonzero(text[start..end]))
  {
    ok, end, nonzero, zeros := false, start, false, 0;
    if start == |text| || !IsDigit(text[start]) {
      assert Run(text[start..]) == 0;
    } else if text[start] == '0' {
      ZeroRead(text, start);
      ok, end, zeros := start + 1 == |text| || !IsDigit(text[start + 1]), start + 1, 1;
    } else {
      end, nonzero, zeros := ScanCoefficient(text, start, "", false, 0);
      assert "" + text[start..end] == text[start..end];
      NonzeroRead(text, start, end, nonzero, zeros);
      ok := true;
    }
    assert IntegerRead(text, start, ok, end, nonzero, zeros);
  }

  /** The fraction, if a point announces one; a point without digits is no number. */
  method ScanFraction(text: string, start: nat, ghost integer: string, nonzero: bool, zeros: nat)
    returns (ok: bool, end: nat, count: nat, nonzero': bool, zeros': nat)
    requires start <= |text| && zeros == TrailingZeros(integer) && (nonzero <==> HasNonzero(integer))
    ensures ok <==> ReadFraction(text[start..]).Some?
    ensures ok ==> var r := ReadFraction(text[start..]).value;
                   && start + count <= end <= |text| && r.rest == text[end..] && count == |r.digits|
                   && zeros' == TrailingZeros(integer + r.digits) && (nonzero' <==> HasNonzero(integer + r.digits))
  {
    if start == |text| || text[start] != '.' {
      assert integer + "" == integer;
      return true, start, 0, nonzero, zeros;
    }
    assert text[start..][1..] == text[start + 1..];
    end, nonzero', zeros' := ScanCoefficient(text, start + 1, integer, nonzero, zeros);
    count := end - start - 1;
    assert text[start..][1..1 + count] == text[start + 1..end] && text[start..][1 + count..] == text[end..];
    ok := count > 0;
  }

  /** The exponent, if a marker announces one, up to the end of the text. */
  method ScanTail(text: string, start: nat) returns (ok: bool, exponentNegative: bool, magnitude: nat, tooLarge: bool)
    requires start <= |text|
    ensures ok <==> ReadExponent(text[start..]).Some?
    ensures ok ==> var e := ReadExponent(text[start..]).value;
                   && AllDigits(e.digits) && exponentNegative == e.sign.Minus? && magnitude <= |text|
                   && (tooLarge ==> Value(e.digits) > |text|) && (!tooLarge ==> magnitude == Value(e.digits))
  {
    if start == |text| {
      return true, false, 0, false;
    }
    if text[start] != 'e' && text[start] != 'E' {
      return false, false, 0, false;
    }
    var index := start + 1;
    exponentNegative := false;
    if index < |text| && (text[index] == '+' || text[index] == '-') {
      exponentNegative := text[index] == '-';
      index := index + 1;
    }
    var end;
    end, magnitude, tooLarge := ScanExponent(text, index);
    assert text[start..][index - start..] == text[index..];
    assert end == |text| ==> text[index..end] == text[index..];
    assert end < |text| ==> !IsDigit(text[index..][end - index]);
    return end > index && end == |text|, exponentNegative, magnitude, tooLarge;
  }

  /** How far the pieces read so far determine the parse of the whole text. */
  lemma ParsePieces(text: string, start: nat, i1: nat)
    requires start == if Negative(text) then 1 else 0
    requires i1 == start + Run(text[start..])
    ensures i1 <= |text|
    ensures !IntegerPart(text[start..i1]) ==> Parse(text).None?
    ensures ReadFraction(text[i1..]).None? ==> Parse(text).None?
    ensures IntegerPart(text[start..i1]) && ReadFraction(text[i1..]).Some? ==>
              var r := ReadFraction(text[i1..]).value;
              && (ReadExponent(r.rest).None? ==> Parse(text).None?)
              && (ReadExponent(r.rest).Some? ==>
                    Parse(text) == Some(Assemble(Negative(text), text[start..i1], r.digits, ReadExponent(r.rest).value)))
  {
    var body := Unsigned(text);
    assert body == text[start..];
    assert body[..i1 - start] == text[start..i1] && body[i1 - start..] == text[i1..];
  }

  lemma CoefficientFits(text: string, n: Number)
    requires Spells(text, n)
    ensures |n.integer + n.fraction| <= |text|
  {
    assert |RenderUnsigned(n)| == |n.integer| + |FractionText(n.fraction)| + |ExponentText(n)|;
  }

  /** What the counters say about a number, whatever text it came from. */
  lemma JudgedByCounters(n: Number, length: nat, nonzero: bool, zeros: nat, magnitude: nat, tooLarge: bool)
    requires WellFormed(n) && |n.integer + n.fraction| <= length
    requires if tooLarge then Value(n.exponent) > length else magnitude == Value(n.exponent)
    requires zeros == TrailingZeros(n.integer + n.fraction) && (nonzero <==> HasNonzero(n.integer + n.fraction))
    ensures Judge(n) == if !nonzero || n.negative then BelowMinimum
                        else if ExponentAtLeast(n.sign.Minus?, magnitude, tooLarge, |n.fraction| - zeros) then Accepted
                        else WrongType
  {
    SaturationHarmless(length, n, magnitude, tooLarge);
  }

  lemma ReadNumber(text: string, n: Number)
    requires Parse(text) == Some(n)
    ensures Outcome(text) == Judge(n) && WellFormed(n) && |n.integer + n.fraction| <= |text|
  {
    OnlyParsed(text, n);
    CoefficientFits(text, n);
  }

  /** The whole check over one text. */
  method ValidateLimit(text: string) returns (r: LimitResult)
    ensures r == Outcome(text)
  {
    var negative := text != "" && text[0] == '-';
    var start := if negative then 1 else 0;
    var ok, i1, nonzero, zeros := ScanInteger(text, start);
    ParsePieces(text, start, start + Run(text[start..]));
    if !ok {
      return WrongType;
    }
    var i2, fractionDigits;
    ok, i2, fractionDigits, nonzero, zeros := ScanFraction(text, i1, text[start..i1], nonzero, zeros);
    if !ok {
      return WrongType;
    }
    var exponentNegative, magnitude, tooLarge;
    ok, exponentNegative, magnitude, tooLarge := ScanTail(text, i2);
    if !ok {
      return WrongType;
    }
    ghost var n := Assemble(negative, text[start..i1], ReadFraction(text[i1..]).value.digits, ReadExponent(text[i2..]).value);
    assert Parse(text) == Some(n);
    ReadNumber(text, n);
    JudgedByCounters(n, |text|, nonzero, zeros, magnitude, tooLarge);
    if !nonzero || negative {
      return BelowMinimum;
    }
    var minimum: int := fractionDigits as int - zeros as int;
    return if ExponentAtLeast(exponentNegative, magnitude, tooLarge, minimum) then Accepted else WrongType;
  }
}
