/**
 Exact normalisation of a JSON number into an integer header value
 (`integer` in src/mcp/headers.rs). A number keeps its source text, so the
 program works on decimal texts and never on floating point.
 */
module HeaderIntegers {
  import opened Common
  import opened Decimal

  const MAX_SAFE: int := 9_007_199_254_740_991

  datatype Error = ArgumentError

  // ------------------------------------------------------------- the program

  /** Index of the first character of `s` in `marks`, or |s|. */
  function FindAny(s: string, marks: set<char>): (k: nat)
    ensures k <= |s|
  {
    if s == [] || s[0] in marks then 0 else 1 + FindAny(s[1..], marks)
  }

  function TrimStart(s: string): (t: string)
    ensures |t| <= |s|
  {
    if s != [] && s[0] == '0' then TrimStart(s[1..]) else s
  }

  function TrimEnd(s: string): (t: string)
    ensures |t| <= |s|
  {
    if s != [] && s[|s| - 1] == '0' then TrimEnd(s[..|s| - 1]) else s
  }

  /** An i64 result, or nothing on overflow. */
  function Checked(n: int): Option<int> {
    if -I64_LIMIT <= n < I64_LIMIT then Some(n) else None
  }

  function Integer(raw: string): Result<string, Error> {
    var negative := raw != [] && raw[0] == '-';
    Unsigned(negative, if negative then raw[1..] else raw)
  }

  function Unsigned(negative: bool, unsigned: string): Result<string, Error> {
    var e := FindAny(unsigned, {'e', 'E'});
    var exponent := if e < |unsigned| then ParseI64(unsigned[e + 1..]) else Some(0);
    if exponent.None? then Err(ArgumentError) else Parts(negative, unsigned[..e], exponent.value)
  }

  function Parts(negative: bool, mantissa: string, exponent: int): Result<string, Error> {
    var dot := FindAny(mantissa, {'.'});
    var fraction := if dot < |mantissa| then mantissa[dot + 1..] else [];
    Normalised(negative, mantissa[..dot] + fraction, |fraction|, exponent)
  }

  /** The number (-1)^negative * digits * 10^(exponent - decimals). */
  function Normalised(negative: bool, digits: string, decimals: nat, exponent: int): Result<string, Error> {
    var significant := TrimStart(digits);
    if significant == [] then Ok("0")
    else
      var trimmed := TrimEnd(significant);
      var trailing := |significant| - |trimmed|;
      if Checked(trailing).None? || Checked(decimals).None? then Err(ArgumentError)
      else if Checked(exponent - decimals).None? then Err(ArgumentError)
      else if Checked(exponent - decimals + trailing).None? then Err(ArgumentError)
      else
        Padded(negative, trimmed, exponent - decimals + trailing)
  }

  function Sign(negative: bool): string {
    if negative then "-" else ""
  }

  /** What is accepted once the digits are trimmed. */
  function Padded(negative: bool, trimmed: string, shift: int): Result<string, Error> {
    if !(0 <= shift <= 16) || |trimmed| + shift > 16 then Err(ArgumentError)
    else
      var canonical := Sign(negative) + trimmed + Zeros(shift);
      var number := ParseI64(canonical);
      if number.None? || number.value > MAX_SAFE || number.value < -MAX_SAFE then Err(ArgumentError)
      else Ok(canonical)
  }

  // ----------------------------------------------------------- number texts

  /** A number text: sign, whole digits, optional fraction, optional exponent. */
  datatype NumberText = NumberText(
    negative: bool,
    whole: string,
    fraction: Option<string>,
    exponent: Option<Exponent>)

  datatype Exponent = Exponent(mark: char, sign: string, digits: string)

  predicate Valid(t: NumberText) {
    && t.whole != [] && AllDigits(t.whole)
    && (t.fraction.Some? ==> t.fraction.value != [] && AllDigits(t.fraction.value))
    && (t.exponent.Some? ==>
          && t.exponent.value.mark in {'e', 'E'} && t.exponent.value.sign in {"", "+", "-"}
          && t.exponent.value.digits != [] && AllDigits(t.exponent.value.digits))
  }

  function Print(t: NumberText): string {
    (if t.negative then "-" else "") + t.whole
    + (if t.fraction.Some? then "." + t.fraction.value else "")
    + (if t.exponent.Some? then [t.exponent.value.mark] + t.exponent.value.sign + t.exponent.value.digits else "")
  }

  function Fraction(t: NumberText): string {
    if t.fraction.Some? then t.fraction.value else []
  }

  function ExponentValue(t: NumberText): int
    requires Valid(t)
  {
    if t.exponent.None? then 0
    else
      var size: int := Value(t.exponent.value.digits);
      if t.exponent.value.sign == "-" then -size else size
  }

  function Signed(negative: bool, n: nat): int {
    var m: int := n;
    if negative then -m else m
  }

  /** `n` is exactly mantissa * 10^scale. */
  ghost predicate IsScaled(n: int, mantissa: int, scale: int) {
    if scale >= 0 then n == mantissa * Pow10(scale) else n * Pow10(-scale) == mantissa
  }

  /** The text stands for exactly the integer `n`. */
  ghost predicate Denotes(t: NumberText, n: int)
    requires Valid(t)
  {
    var digits := t.whole + Fraction(t);
    IsScaled(n, Signed(t.negative, Value(digits)), ExponentValue(t) - |Fraction(t)|)
  }

  function SignedText(n: int): string {
    if n < 0 then "-" + Text(-n) else Text(n)
  }

  // ----------------------------------------------------------------- proofs

  lemma {:induction false} PowAdd(a: nat, b: nat)
    ensures Pow10(a + b) == Pow10(a) * Pow10(b)
  {
    if a > 0 {
      PowAdd(a - 1, b);
      assert 10 * Pow10(a - 1) * Pow10(b) == 10 * (Pow10(a - 1) * Pow10(b));
    }
  }

  lemma {:induction false} TrimStartKeeps(s: string)
    requires AllDigits(s)
    ensures AllDigits(TrimStart(s)) && Value(TrimStart(s)) == Value(s) && |TrimStart(s)| <= |s|
    ensures TrimStart(s) != [] ==> TrimStart(s)[0] != '0'
  {
    if s != [] && s[0] == '0' {
      TrimStartKeeps(s[1..]);
      assert s == [s[0]] + s[1..];
      ValueConcat([s[0]], s[1..]);
      assert Value([s[0]]) == Value([s[0]][..0]) * 10 + 0;
    }
  }

  lemma {:induction false} TrimEndKeeps(s: string)
    requires AllDigits(s) && s != [] && s[0] != '0'
    ensures AllDigits(TrimEnd(s)) && 0 < |TrimEnd(s)| <= |s| && TrimEnd(s)[0] == s[0]
    ensures Value(s) == Value(TrimEnd(s)) * Pow10(|s| - |TrimEnd(s)|)
    ensures Value(TrimEnd(s)) % 10 != 0
  {
    var n := |s| - 1;
    if s[n] == '0' {
      TrimEndKeeps(s[..n]);
      var k := n - |TrimEnd(s)|;
      assert Value(TrimEnd(s)) * Pow10(k) * 10 == Value(TrimEnd(s)) * Pow10(k + 1) by {
        ScaleByTen(Value(TrimEnd(s)), Pow10(k));
      }
    }
  }

  lemma MulAssoc(a: int, b: int, c: int)
    ensures a * b * c == a * (b * c)
  {
  }

  lemma ScaleUp(n: int, m: int, scale: nat, trailing: nat)
    ensures IsScaled(n, m * Pow10(trailing), scale) <==> IsScaled(n, m, scale + trailing)
  {
    PowAdd(trailing, scale);
    MulAssoc(m, Pow10(trailing), Pow10(scale));
    assert trailing + scale == scale + trailing;
  }

  lemma ScaleAcross(n: int, m: int, scale: int, trailing: nat)
    requires scale < 0 <= scale + trailing
    ensures IsScaled(n, m * Pow10(trailing), scale) <==> IsScaled(n, m, scale + trailing)
  {
    var down: nat, shift: nat := -scale, scale + trailing;
    PowAdd(shift, down);
    MulAssoc(m, Pow10(shift), Pow10(down));
    CancelFactor(n, m * Pow10(shift), Pow10(down));
  }

  lemma ScaleDown(n: int, m: int, scale: int, trailing: nat)
    requires scale + trailing < 0
    ensures IsScaled(n, m * Pow10(trailing), scale) <==> IsScaled(n, m, scale + trailing)
  {
    var up: nat := -(scale + trailing);
    PowAdd(up, trailing);
    MulAssoc(n, Pow10(up), Pow10(trailing));
    CancelFactor(n * Pow10(up), m, Pow10(trailing));
    assert up + trailing == -scale;
  }

  /** Moving a power of ten between mantissa and scale does not change the number. */
  lemma ScaleShift(n: int, m: int, scale: int, trailing: nat)
    ensures IsScaled(n, m * Pow10(trailing), scale) <==> IsScaled(n, m, scale + trailing)
  {
    if scale >= 0 {
      ScaleUp(n, m, scale, trailing);
    } else if scale + trailing >= 0 {
      ScaleAcross(n, m, scale, trailing);
    } else {
      ScaleDown(n, m, scale, trailing);
    }
  }

  lemma CancelFactor(a: int, b: int, p: int)
    requires p > 0
    ensures a * p == b * p <==> a == b
  {
    if a * p == b * p {
      assert (a - b) * p == 0;
    }
  }

  /** With a last digit other than zero, a negative shift never gives an integer. */
  lemma NoIntegerBelow(n: int, m: int, shift: int)
    requires m % 10 != 0 && shift < 0
    ensures !IsScaled(n, m, shift)
  {
    var k: nat := -shift - 1;
    assert Pow10(-shift) == 10 * Pow10(k);
    assert n * Pow10(-shift) == 10 * (n * Pow10(k));
  }

  lemma SignedScale(negative: bool, m: nat, p: nat)
    ensures Signed(negative, m * p) == Signed(negative, m) * p
  {
    var a: int, b: int := m, p;
    assert (-a) * b == -(a * b);
  }

  lemma PowGrows(a: nat, b: nat)
    requires a <= b
    ensures Pow10(a) <= Pow10(b)
  {
    PowAdd(a, b - a);
    assert Pow10(a) * 1 <= Pow10(a) * Pow10(b - a);
  }

  lemma Pow16()
    ensures Pow10(16) == 10_000_000_000_000_000
  {
    assert Pow10(4) == 10_000;
    PowAdd(4, 4);
    PowAdd(8, 8);
  }

  /** Digits followed by zeros. */
  lemma PaddedValue(trimmed: string, shift: nat)
    requires AllDigits(trimmed) && trimmed != [] && trimmed[0] != '0'
    ensures AllDigits(trimmed + Zeros(shift)) && Canonical(trimmed + Zeros(shift))
    ensures Value(trimmed + Zeros(shift)) == Value(trimmed) * Pow10(shift)
    ensures Pow10(|trimmed| + shift - 1) <= Value(trimmed) * Pow10(shift) < Pow10(|trimmed| + shift)
  {
    ZerosValue(shift);
    ValueConcat(trimmed, Zeros(shift));
    ValueBelowPow(trimmed + Zeros(shift));
  }

  /** A digit text with its sign is read back by the integer parser. */
  lemma SignedParse(negative: bool, digits: string)
    requires digits != [] && AllDigits(digits) && Value(digits) < I64_LIMIT
    ensures ParseI64(Sign(negative) + digits) == Some(Signed(negative, Value(digits)))
  {
    var text := Sign(negative) + digits;
    assert IsDigit(digits[0]);
    if negative {
      assert text[0] == '-' && text[1..] == digits;
    } else {
      assert text == digits;
    }
  }

  lemma SignedCanonical(negative: bool, digits: string)
    requires Canonical(digits) && digits[0] != '0'
    ensures Sign(negative) + digits == SignedText(Signed(negative, Value(digits)))
  {
    CanonicalIsText(digits);
    assert "" + digits == digits;
  }

  lemma ZeroIsScaled(scale: int)
    ensures forall n :: IsScaled(n, 0, scale) <==> n == 0
    ensures SignedText(0) == "0"
  {
    forall n ensures IsScaled(n, 0, scale) <==> n == 0 {
      if scale < 0 {
        CancelFactor(n, 0, Pow10(-scale));
      }
    }
  }

  /** Seventeen digits or more are beyond the safe range. */
  lemma TooLong(m: nat, size: nat)
    requires size > 16 && Pow10(size - 1) <= m
    ensures m > MAX_SAFE
  {
    Pow16();
    PowGrows(16, size - 1);
  }

  lemma ShortEnough(m: nat, size: nat)
    requires size <= 16 && m < Pow10(size)
    ensures m < I64_LIMIT
  {
    Pow16();
    PowGrows(size, 16);
  }

  lemma PaddedShort(negative: bool, trimmed: string, shift: nat)
    requires AllDigits(trimmed) && trimmed != [] && trimmed[0] != '0' && |trimmed| + shift <= 16
    ensures var n := Signed(negative, Value(trimmed) * Pow10(shift));
            Padded(negative, trimmed, shift) ==
              if -MAX_SAFE <= n <= MAX_SAFE then Ok(SignedText(n)) else Err(ArgumentError)
  {
    hide Text, Value, Zeros, SignedText, ParseI64, Pow10, AllDigits;
    var digits := trimmed + Zeros(shift);
    PaddedValue(trimmed, shift);
    ShortEnough(Value(digits), |trimmed| + shift);
    SignedParse(negative, digits);
    SignedCanonical(negative, digits);
    assert Sign(negative) + digits == Sign(negative) + trimmed + Zeros(shift);
  }

  /** The one integer that a trimmed mantissa with a shift of zero or more stands for. */
  lemma PaddedExact(negative: bool, trimmed: string, shift: nat)
    requires AllDigits(trimmed) && trimmed != [] && trimmed[0] != '0'
    ensures var n := Signed(negative, Value(trimmed)) * Pow10(shift);
            Padded(negative, trimmed, shift) ==
              if -MAX_SAFE <= n <= MAX_SAFE then Ok(SignedText(n)) else Err(ArgumentError)
  {
    hide ParseI64, Text, Value, SignedText, Zeros, Pow10, AllDigits;
    SignedScale(negative, Value(trimmed), Pow10(shift));
    if |trimmed| + shift > 16 {
      PaddedValue(trimmed, shift);
      TooLong(Value(trimmed) * Pow10(shift), |trimmed| + shift);
    } else {
      PaddedShort(negative, trimmed, shift);
    }
  }

  /** The integers (zero or one) on a scale. */
  ghost function Scaled(m: int, scale: int): iset<int> {
    iset n: int | IsScaled(n, m, scale)
  }

  ghost predicate Safe(n: int) {
    -MAX_SAFE <= n <= MAX_SAFE
  }

  /** The answer that a set of at most one integer calls for. */
  ghost function Answer(numbers: iset<int>): Result<string, Error> {
    if n :| n in numbers && Safe(n) then Ok(SignedText(n)) else Err(ArgumentError)
  }

  lemma AnswerOk(numbers: iset<int>)
    requires Answer(numbers).Ok?
    ensures exists n :: n in numbers && Safe(n)
  {
  }

  lemma AnswerOne(numbers: iset<int>, n: int)
    requires forall k :: k in numbers <==> k == n
    ensures Answer(numbers) == if Safe(n) then Ok(SignedText(n)) else Err(ArgumentError)
  {
    assert n in numbers;
  }

  lemma TrimmedExact(negative: bool, trimmed: string, shift: int)
    requires AllDigits(trimmed) && trimmed != [] && trimmed[0] != '0' && Value(trimmed) % 10 != 0
    ensures Padded(negative, trimmed, shift) == Answer(Scaled(Signed(negative, Value(trimmed)), shift))
  {
    var m := Signed(negative, Value(trimmed));
    if shift < 0 {
      forall n ensures n !in Scaled(m, shift) {
        NoIntegerBelow(n, m, shift);
      }
    } else {
      PaddedExact(negative, trimmed, shift);
      AnswerOne(Scaled(m, shift), m * Pow10(shift));
    }
  }

  lemma ScaledShift(m: int, scale: int, trailing: nat)
    ensures Scaled(m * Pow10(trailing), scale) == Scaled(m, scale + trailing)
  {
    forall n ensures n in Scaled(m * Pow10(trailing), scale) <==> n in Scaled(m, scale + trailing) {
      ScaleShift(n, m, scale, trailing);
    }
  }

  /** The overflow checks only refuse what the range check of the shift refuses anyway. */
  lemma OutOfRange(negative: bool, trimmed: string, shift: int)
    requires !(0 <= shift <= 16)
    ensures Padded(negative, trimmed, shift) == Err(ArgumentError)
  {
  }

  lemma NormalisedIsPadded(negative: bool, digits: string, decimals: nat, exponent: int)
    requires AllDigits(digits) && |digits| < I64_LIMIT && decimals <= |digits|
    requires -I64_LIMIT <= exponent < I64_LIMIT && TrimStart(digits) != []
    ensures Normalised(negative, digits, decimals, exponent) ==
            PaddedFrom(negative, TrimStart(digits), exponent - decimals)
  {
    hide Padded;
    var significant := TrimStart(digits);
    var shift := exponent - decimals + (|significant| - |TrimEnd(significant)|);
    if !(0 <= shift <= 16) {
      OutOfRange(negative, TrimEnd(significant), shift);
    }
  }

  function PaddedFrom(negative: bool, significant: string, scale: int): Result<string, Error> {
    Padded(negative, TrimEnd(significant), scale + (|significant| - |TrimEnd(significant)|))
  }

  lemma TrimmedScaled(negative: bool, significant: string, scale: int)
    requires AllDigits(significant) && significant != [] && significant[0] != '0'
    ensures AllDigits(TrimEnd(significant))
    ensures Scaled(Signed(negative, Value(significant)), scale) ==
            Scaled(Signed(negative, Value(TrimEnd(significant))), scale + (|significant| - |TrimEnd(significant)|))
  {
    TrimEndKeeps(significant);
    var trimmed := TrimEnd(significant);
    var trailing := |significant| - |trimmed|;
    SignedScale(negative, Value(trimmed), Pow10(trailing));
    ScaledShift(Signed(negative, Value(trimmed)), scale, trailing);
  }

  /** Digits that are not all zeros: trim, pad, and account for the zeros trimmed off. */
  lemma SignificantExact(negative: bool, significant: string, scale: int)
    requires AllDigits(significant) && significant != [] && significant[0] != '0'
    ensures PaddedFrom(negative, significant, scale) == Answer(Scaled(Signed(negative, Value(significant)), scale))
  {
    hide Padded;
    hide Answer;
    TrimmedScaled(negative, significant, scale);
    TrimEndKeeps(significant);
    TrimmedExact(negative, TrimEnd(significant), scale + (|significant| - |TrimEnd(significant)|));
  }

  lemma NonzeroExact(negative: bool, digits: string, scale: int)
    requires AllDigits(digits) && TrimStart(digits) != []
    ensures PaddedFrom(negative, TrimStart(digits), scale) == Answer(Scaled(Signed(negative, Value(digits)), scale))
  {
    hide Padded;
    hide Answer;
    TrimStartKeeps(digits);
    SignificantExact(negative, TrimStart(digits), scale);
  }

  lemma ZeroNormalised(negative: bool, digits: string, decimals: nat, exponent: int)
    requires AllDigits(digits) && TrimStart(digits) == []
    ensures Normalised(negative, digits, decimals, exponent) == Ok("0") && Value(digits) == 0
  {
    TrimStartKeeps(digits);
  }

  /** The core of the normalisation is exact on all digit strings. */
  lemma NormalisedExact(negative: bool, digits: string, decimals: nat, exponent: int)
    requires AllDigits(digits) && |digits| < I64_LIMIT && decimals <= |digits|
    requires -I64_LIMIT <= exponent < I64_LIMIT
    ensures Normalised(negative, digits, decimals, exponent) ==
            Answer(Scaled(Signed(negative, Value(digits)), exponent - decimals))
  {
    hide Normalised, Padded, PaddedFrom, Answer, Scaled, Value, TrimStart;
    if TrimStart(digits) == [] {
      ZeroNormalised(negative, digits, decimals, exponent);
      ZeroAnswer(exponent - decimals);
    } else {
      NonzeroExact(negative, digits, exponent - decimals);
      NormalisedIsPadded(negative, digits, decimals, exponent);
    }
  }

  lemma ZeroAnswer(scale: int)
    ensures Answer(Scaled(0, scale)) == Ok("0")
  {
    ZeroIsScaled(scale);
    AnswerOne(Scaled(0, scale), 0);
  }

  // ------------------------------------------------- from texts to the core

  lemma {:induction false} FindAnySkips(a: string, b: string, marks: set<char>)
    requires forall c :: c in a ==> c !in marks
    requires b == [] || b[0] in marks
    ensures FindAny(a + b, marks) == |a|
  {
    if a == [] {
      assert a + b == b;
    } else {
      assert a[0] in a && (a + b)[1..] == a[1..] + b;
      FindAnySkips(a[1..], b, marks);
    }
  }

  lemma ExponentParses(t: NumberText)
    requires Valid(t) && t.exponent.Some?
    ensures ParseI64(t.exponent.value.sign + t.exponent.value.digits) == Checked(ExponentValue(t))
  {
    var sign, digits := t.exponent.value.sign, t.exponent.value.digits;
    var text := sign + digits;
    assert digits[0] in digits;
    if sign == "" {
      assert text == digits;
    } else {
      assert text[0] == sign[0] && text[1..] == digits;
    }
  }

  function Mantissa(t: NumberText): string {
    t.whole + (if t.fraction.Some? then "." + t.fraction.value else "")
  }

  function Tail(t: NumberText): string {
    if t.exponent.Some? then [t.exponent.value.mark] + t.exponent.value.sign + t.exponent.value.digits else ""
  }

  lemma CutUnsigned(t: NumberText)
    requires Valid(t)
    ensures var unsigned := Mantissa(t) + Tail(t);
            && FindAny(unsigned, {'e', 'E'}) == |Mantissa(t)| && unsigned[..|Mantissa(t)|] == Mantissa(t)
            && (t.exponent.Some? ==>
                  unsigned[|Mantissa(t)| + 1..] == t.exponent.value.sign + t.exponent.value.digits)
  {
    FindAnySkips(Mantissa(t), Tail(t), {'e', 'E'});
  }

  lemma CutMantissa(t: NumberText)
    requires Valid(t)
    ensures FindAny(Mantissa(t), {'.'}) == |t.whole| && Mantissa(t)[..|t.whole|] == t.whole
    ensures t.fraction.Some? ==> Mantissa(t)[|t.whole| + 1..] == t.fraction.value
  {
    FindAnySkips(t.whole, if t.fraction.Some? then "." + t.fraction.value else "", {'.'});
  }

  lemma CutSign(t: NumberText)
    requires Valid(t)
    ensures Print(t) == Sign(t.negative) + (Mantissa(t) + Tail(t))
    ensures (Print(t)[0] == '-') == t.negative
    ensures (if t.negative then Print(t)[1..] else Print(t)) == Mantissa(t) + Tail(t)
  {
    assert IsDigit(t.whole[0]) && (Mantissa(t) + Tail(t))[0] == t.whole[0];
    assert Print(t) == Sign(t.negative) + (Mantissa(t) + Tail(t));
  }

  lemma UnsignedOfPrint(t: NumberText)
    requires Valid(t)
    ensures Unsigned(t.negative, Mantissa(t) + Tail(t)) ==
            if Checked(ExponentValue(t)).None? then Err(ArgumentError)
            else Parts(t.negative, Mantissa(t), ExponentValue(t))
  {
    hide Parts;
    CutUnsigned(t);
    if t.exponent.Some? {
      ExponentParses(t);
    }
  }

  /** The program cuts a printed number back into its parts. */
  lemma IntegerOfPrint(t: NumberText)
    requires Valid(t)
    ensures Integer(Print(t)) ==
            if Checked(ExponentValue(t)).None? then Err(ArgumentError)
            else Parts(t.negative, Mantissa(t), ExponentValue(t))
  {
    hide Parts;
    hide Unsigned;
    CutSign(t);
    UnsignedOfPrint(t);
  }

  lemma PartsExact(t: NumberText)
    requires Valid(t) && |Print(t)| < I64_LIMIT && -I64_LIMIT <= ExponentValue(t) < I64_LIMIT
    ensures Parts(t.negative, Mantissa(t), ExponentValue(t)) == Answer(Numbers(t))
  {
    hide Normalised;
    hide Answer;
    var digits, scale := t.whole + Fraction(t), ExponentValue(t) - |Fraction(t)|;
    CutMantissa(t);
    NormalisedExact(t.negative, digits, |Fraction(t)|, ExponentValue(t));
    assert Numbers(t) == Scaled(Signed(t.negative, Value(digits)), scale);
  }

  /** What the text denotes, as a set. */
  ghost function Numbers(t: NumberText): iset<int>
    requires Valid(t)
  {
    iset n: int | Denotes(t, n)
  }

  /**
   With an exponent that fits an i64, a number text is accepted exactly when it
   denotes an integer of magnitude at most 2^53 - 1, and the answer is the
   canonical decimal of that integer.
   */
  lemma IntegerIsExact(t: NumberText)
    requires Valid(t) && |Print(t)| < I64_LIMIT && -I64_LIMIT <= ExponentValue(t) < I64_LIMIT
    ensures Integer(Print(t)).Ok? <==> exists n :: -MAX_SAFE <= n <= MAX_SAFE && Denotes(t, n)
    ensures forall n :: -MAX_SAFE <= n <= MAX_SAFE && Denotes(t, n) ==> Integer(Print(t)) == Ok(SignedText(n))
  {
    hide Parts;
    hide Print;
    hide Integer;
    hide Answer;
    IntegerOfPrint(t);
    PartsExact(t);
    forall n | -MAX_SAFE <= n <= MAX_SAFE && Denotes(t, n) ensures Integer(Print(t)) == Ok(SignedText(n)) {
      assert n in Numbers(t) && Safe(n);
      DenotesOne(t, n);
      AnswerOne(Numbers(t), n);
    }
    if Integer(Print(t)).Ok? {
      AnswerOk(Numbers(t));
      var n :| n in Numbers(t) && Safe(n);
      assert Denotes(t, n);
    }
  }

  lemma DenotesOne(t: NumberText, n: int)
    requires Valid(t) && Denotes(t, n)
    ensures forall k :: k in Numbers(t) <==> k == n
  {
    var scale := ExponentValue(t) - |Fraction(t)|;
    forall k | Denotes(t, k) ensures k == n {
      if scale < 0 {
        CancelFactor(k, n, Pow10(-scale));
      }
    }
  }

  /** An exponent beyond i64 is always refused, even where the number is a small integer. */
  lemma HugeExponentRefused(t: NumberText)
    requires Valid(t) && !(-I64_LIMIT <= ExponentValue(t) < I64_LIMIT)
    ensures Integer(Print(t)) == Err(ArgumentError)
    ensures Value(t.whole + Fraction(t)) == 0 ==> Denotes(t, 0)
  {
    hide Parts;
    hide Print;
    hide Integer;
    IntegerOfPrint(t);
    ZeroIsScaled(ExponentValue(t) - |Fraction(t)|);
  }

  /** Digits that all vanish when zeros are trimmed are those with value zero. */
  lemma TrimStartEmptyIff(s: string)
    requires AllDigits(s)
    ensures TrimStart(s) == [] <==> Value(s) == 0
  {
    TrimStartKeeps(s);
    var t := TrimStart(s);
    if t != [] {
      ValueBelowPow(t);
      assert Canonical(t);
    }
  }

  /** An exponent of i64 size takes more than sixteen digits to write. */
  lemma HugeExponentIsLong(t: NumberText)
    requires Valid(t) && !(-I64_LIMIT <= ExponentValue(t) < I64_LIMIT)
    ensures t.exponent.Some? && |t.exponent.value.digits| > 16
  {
    var digits := t.exponent.value.digits;
    ValueBelowPow(digits);
    if |digits| <= 16 {
      Pow16();
      PowGrows(|digits|, 16);
    }
  }

  /**
   A text too short to write 2^63 digits cannot make up for such an exponent: the
   shift left after trimming is still out of range.
   */
  lemma HugeShift(t: NumberText, trailing: nat)
    requires Valid(t) && |Print(t)| < I64_LIMIT && !(-I64_LIMIT <= ExponentValue(t) < I64_LIMIT)
    requires trailing <= |t.whole + Fraction(t)|
    ensures !(0 <= ExponentValue(t) - |Fraction(t)| + trailing <= 16)
  {
    HugeExponentIsLong(t);
  }

  lemma AnswerErr(numbers: iset<int>)
    requires Answer(numbers).Err?
    ensures forall n :: n in numbers ==> !Safe(n)
  {
  }

  /** With such an exponent, digits other than zero stand for no integer in the safe range. */
  lemma HugeExponentDenotesNothing(t: NumberText, n: int)
    requires Valid(t) && |Print(t)| < I64_LIMIT && !(-I64_LIMIT <= ExponentValue(t) < I64_LIMIT)
    requires Value(t.whole + Fraction(t)) != 0 && Denotes(t, n)
    ensures !(-MAX_SAFE <= n <= MAX_SAFE)
  {
    hide Padded, Answer, Print, Value, TrimStart, TrimEnd;
    var digits, scale := t.whole + Fraction(t), ExponentValue(t) - |Fraction(t)|;
    TrimStartEmptyIff(digits);
    NonzeroExact(t.negative, digits, scale);
    var significant := TrimStart(digits);
    var trailing := |significant| - |TrimEnd(significant)|;
    HugeShift(t, trailing);
    OutOfRange(t.negative, TrimEnd(significant), scale + trailing);
    AnswerErr(Scaled(Signed(t.negative, Value(digits)), scale));
    assert n in Scaled(Signed(t.negative, Value(digits)), scale);
  }

  /**
   The program is right about a number text (it accepts exactly when the text
   denotes an integer of the safe range) if and only if the exponent fits an i64
   or some digit is not zero.
   */
  lemma IntegerIsRightIff(t: NumberText)
    requires Valid(t) && |Print(t)| < I64_LIMIT
    ensures (Integer(Print(t)).Ok? <==> exists n :: -MAX_SAFE <= n <= MAX_SAFE && Denotes(t, n))
            <==> (-I64_LIMIT <= ExponentValue(t) < I64_LIMIT || Value(t.whole + Fraction(t)) != 0)
  {
    hide Print, Integer, Value, ExponentValue, Denotes;
    if -I64_LIMIT <= ExponentValue(t) < I64_LIMIT {
      IntegerIsExact(t);
    } else {
      HugeExponentRefused(t);
      if Value(t.whole + Fraction(t)) != 0 {
        forall n | Denotes(t, n) ensures !(-MAX_SAFE <= n <= MAX_SAFE) {
          HugeExponentDenotesNothing(t, n);
        }
      }
    }
  }

  /** Such a text: it denotes 0, and is refused. */
  lemma HugeExponentOfZero()
    ensures var t := NumberText(false, "0", None, Some(Exponent('e', "", "9223372036854775808")));
            Valid(t) && Print(t) == "0e9223372036854775808" && Denotes(t, 0)
            && Integer(Print(t)) == Err(ArgumentError)
  {
    var digits := "9223372036854775808";
    var t := NumberText(false, "0", None, Some(Exponent('e', "", digits)));
    assert Print(t) == "0e9223372036854775808";
    HugeDigits();
    assert t.whole + Fraction(t) == "0";
    assert Value("0") == 0;
    HugeExponentRefused(t);
  }

  lemma FourDigits(s: string)
    requires AllDigits(s) && |s| == 4
    ensures Value(s) == Digit(s[0]) * 1000 + Digit(s[1]) * 100 + Digit(s[2]) * 10 + Digit(s[3])
  {
    assert s[..3][..2] == s[..2] && s[..2][..1] == s[..1] && s[..1][..0] == [];
    assert Value(s[..1]) == Value(s[..1][..0]) * 10 + Digit(s[0]);
    assert Value(s[..2]) == Value(s[..2][..1]) * 10 + Digit(s[1]);
    assert Value(s[..3]) == Value(s[..3][..2]) * 10 + Digit(s[2]);
  }

  lemma FourMore(a: string, b: string)
    requires AllDigits(a) && AllDigits(b) && |b| == 4
    ensures AllDigits(a + b)
    ensures Value(a + b) ==
            Value(a) * 10_000 + (Digit(b[0]) * 1000 + Digit(b[1]) * 100 + Digit(b[2]) * 10 + Digit(b[3]))
  {
    FourDigits(b);
    ValueConcat(a, b);
    assert Pow10(4) == 10_000;
    assert Value(a) * Pow10(|b|) == Value(a) * 10_000;
  }

  lemma HugeDigits()
    ensures AllDigits("9223372036854775808") && Value("9223372036854775808") == I64_LIMIT
  {
    hide Value;
    var a := "922";
    assert Value(a) == 922 by {
      FourMore("", "0922");
      assert "" + "0922" == "0922" && TrimStart("0922") == TrimStart("922");
      TrimStartKeeps("0922");
      TrimStartKeeps("922");
      assert Value("") == 0 by { EmptyValue(); }
    }
    var b := a + "3372";
    FourMore(a, "3372");
    var c := b + "0368";
    FourMore(b, "0368");
    var d := c + "5477";
    FourMore(c, "5477");
    FourMore(d, "5808");
    assert d + "5808" == "9223372036854775808";
  }

  lemma EmptyValue()
    ensures Value("") == 0
  {
  }

  // --------------------------------------------------- told of the text alone

  /** A JSON number, shorter than 2^63 characters. */
  ghost predicate IsNumber(text: string) {
    |text| < I64_LIMIT && exists t :: Valid(t) && Print(t) == text
  }

  /** The number with this text is exactly `n`, and its exponent fits an i64. */
  ghost predicate Stands(text: string, n: int) {
    exists t :: Valid(t) && Print(t) == text && -I64_LIMIT <= ExponentValue(t) < I64_LIMIT && Denotes(t, n)
  }

  lemma IntegerOfStanding(text: string, n: int)
    requires |text| < I64_LIMIT && Stands(text, n) && -MAX_SAFE <= n <= MAX_SAFE
    ensures Integer(text) == Ok(SignedText(n))
  {
    hide Integer, Print, Denotes, ExponentValue, SignedText;
    var t :| Valid(t) && Print(t) == text && -I64_LIMIT <= ExponentValue(t) < I64_LIMIT && Denotes(t, n);
    IntegerIsExact(t);
  }

  /** A number text is accepted exactly when it stands for an integer of the safe range, and the answer is its decimal. */
  lemma IntegerIff(text: string)
    requires IsNumber(text)
    ensures Integer(text).Ok? <==> exists n :: -MAX_SAFE <= n <= MAX_SAFE && Stands(text, n)
    ensures forall n :: -MAX_SAFE <= n <= MAX_SAFE && Stands(text, n) ==> Integer(text) == Ok(SignedText(n))
  {
    hide Integer, Print, Denotes, ExponentValue, SignedText, Stands;
    forall n | -MAX_SAFE <= n <= MAX_SAFE && Stands(text, n) ensures Integer(text) == Ok(SignedText(n)) {
      IntegerOfStanding(text, n);
    }
    if Integer(text).Ok? {
      var t :| Valid(t) && Print(t) == text;
      if -I64_LIMIT <= ExponentValue(t) < I64_LIMIT {
        IntegerIsExact(t);
        var n :| -MAX_SAFE <= n <= MAX_SAFE && Denotes(t, n);
        assert Stands(text, n) by { ItStands(t, n); }
      } else {
        HugeExponentRefused(t);
      }
    }
  }

  lemma ItStands(t: NumberText, n: int)
    requires Valid(t) && -I64_LIMIT <= ExponentValue(t) < I64_LIMIT && Denotes(t, n)
    ensures Stands(Print(t), n)
  {
  }
}
