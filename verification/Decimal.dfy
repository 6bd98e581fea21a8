/** Decimal text to scaled 64-bit integers and back. */
module Decimal {
  import opened Models
  import opened Texts
  import opened Numeric

  datatype DecimalError =
    | BadScale | Missing | Exponent | NoDigits | Malformed | BadFraction | BadInteger | TooManyDigits | Overflow

  // ----- text -----

  predicate IsDigit(c: char) {
    '0' <= c <= '9'
  }

  ghost predicate AllDigits(s: string) {
    forall i :: 0 <= i < |s| ==> IsDigit(s[i])
  }

  predicate OnlyDigits(s: string) {
    s == "" || (IsDigit(s[0]) && OnlyDigits(s[1..]))
  }

  function DropLeading(s: string, c: char): string {
    if s != "" && s[0] == c then DropLeading(s[1..], c) else s
  }

  function DropTrailing(s: string, c: char): string {
    if s != "" && s[|s| - 1] == c then DropTrailing(s[..|s| - 1], c) else s
  }

  function Repeat(c: char, n: nat): string {
    if n == 0 then "" else Repeat(c, n - 1) + [c]
  }

  function Split(s: string, sep: char): (parts: seq<string>)
    ensures |parts| >= 1
  {
    if s == "" then [""]
    else
      var rest := Split(s[1..], sep);
      if s[0] == sep then [""] + rest else [[s[0]] + rest[0]] + rest[1..]
  }

  function DigitValue(c: char): nat
    requires IsDigit(c)
  {
    (c as int) - ('0' as int)
  }

  function DigitChar(d: nat): (c: char)
    requires d < 10
    ensures IsDigit(c) && DigitValue(c) == d
  {
    (('0' as int) + d) as char
  }

  /** The number a digit string denotes. */
  function NumberOf(s: string): nat
    requires AllDigits(s)
  {
    if s == "" then 0 else 10 * NumberOf(s[..|s| - 1]) + DigitValue(s[|s| - 1])
  }

  function Digits(n: nat): (s: string)
    ensures s != "" && AllDigits(s)
  {
    if n < 10 then [DigitChar(n)] else Digits(n / 10) + [DigitChar(n % 10)]
  }

  function FormatInt(v: int): string {
    if v < 0 then "-" + Digits(-v) else Digits(v)
  }

  // ----- parsing and printing -----

  /** The sign and what follows it. */
  function SplitSign(value: string): (int, string)
    requires value != ""
  {
    if value[0] == '-' then (-1, value[1..]) else if value[0] == '+' then (1, value[1..]) else (1, value)
  }

  function ParseScaled(raw: string, scale: int): Result<int, DecimalError> {
    if scale < 0 || scale > 18 then Err(BadScale)
    else
      var value := TrimSpace(raw);
      if value == "" then Err(Missing)
      else if 'e' in value || 'E' in value then Err(Exponent)
      else
        var (sign, unsigned) := SplitSign(value);
        if unsigned == "" then Err(NoDigits)
        else ParseUnsigned(sign, Split(unsigned, '.'), scale)
  }

  function ParseUnsigned(sign: int, parts: seq<string>, scale: nat): Result<int, DecimalError>
    requires |parts| >= 1
  {
    if |parts| > 2 then Err(Malformed)
    else
      var fraction := if |parts| == 2 then parts[1] else "";
      if fraction != "" && !OnlyDigits(fraction) then Err(BadFraction)
      else if parts[0] == "" && fraction == "" then Err(NoDigits)
      else
        var whole := if parts[0] == "" then "0" else parts[0];
        if !OnlyDigits(whole) then Err(BadInteger)
        else if |fraction| > scale then Err(TooManyDigits)
        else
          DigitsOnly(whole);
          DigitsOnly(fraction);
          ZerosOnly(scale - |fraction|);
          ParseDigits(sign, whole + fraction + Repeat('0', scale - |fraction|))
  }

  function ParseDigits(sign: int, digits: string): Result<int, DecimalError>
    requires AllDigits(digits)
  {
    var combined := DropLeading(digits, '0');
    DropLeadingDigits(digits);
    if combined == "" then Ok(0)
    else
      var parsed := if sign < 0 then -(NumberOf(combined) as int) else NumberOf(combined);
      if IsInt64(parsed) then Ok(parsed) else Err(Overflow)
  }

  /** Zeros in front, so that at least one digit stands before the point. */
  function Pad(digits: string, scale: nat): (padded: string)
    ensures |padded| > scale
  {
    ZerosOnly(if |digits| <= scale then scale + 1 - |digits| else 0);
    if |digits| <= scale then Repeat('0', scale + 1 - |digits|) + digits else digits
  }

  /** Padded digits with a point before the last scale of them, trailing zeros dropped. */
  function PointAt(digits: string, scale: nat): string {
    var padded := Pad(digits, scale);
    var point := |padded| - scale;
    var pointed := padded[..point] + "." + DropTrailing(padded[point..], '0');
    if pointed[|pointed| - 1] == '.' then pointed[..|pointed| - 1] else pointed
  }

  /** Negation wraps around on the smallest value, whose printed form then carries its own sign. */
  function FormatScaled(value: Int64, scale: int): string {
    if scale <= 0 then FormatInt(value)
    else
      var negative := value < 0;
      var shown := PointAt(FormatInt(if negative then Wrap64(-(value as int)) else value), scale);
      if negative && shown != "0" then "-" + shown else shown
  }

  /** -1, 0 or 1 for any well-formed decimal, whatever its length. */
  function DecimalSign(raw: string): Result<int, DecimalError> {
    var value := TrimSpace(raw);
    if value == "" || 'e' in value || 'E' in value then Err(Malformed)
    else
      var (sign, unsigned) := SplitSign(value);
      if unsigned == "" then Err(NoDigits)
      else
        var parts := Split(unsigned, '.');
        if |parts| > 2 || (parts[0] == "" && (|parts| == 1 || parts[1] == "")) then Err(Malformed)
        else if !(OnlyDigits(parts[0]) && (|parts| == 1 || OnlyDigits(parts[1]))) then Err(Malformed)
        else if forall i :: 0 <= i < |unsigned| ==> unsigned[i] == '0' || unsigned[i] == '.' then Ok(0)
        else Ok(sign)
  }

  // ----- facts about digits -----

  lemma DigitsOnly(s: string)
    ensures OnlyDigits(s) <==> AllDigits(s)
  {
    if s != "" {
      DigitsOnly(s[1..]);
      if AllDigits(s[1..]) && IsDigit(s[0]) {
        assert forall i :: 0 < i < |s| ==> s[i] == s[1..][i - 1];
      }
    }
  }

  lemma {:induction false} ZerosOnly(n: nat)
    ensures |Repeat('0', n)| == n && AllDigits(Repeat('0', n)) && NumberOf(Repeat('0', n)) == 0
  {
    if n > 0 {
      ZerosOnly(n - 1);
      assert Repeat('0', n)[..n - 1] == Repeat('0', n - 1);
    }
  }

  /** The scan of a value's characters from the left. */
  method ScanDigits(value: string) returns (ok: bool)
    ensures ok == OnlyDigits(value)
  {
    var i := 0;
    while i < |value|
      invariant 0 <= i <= |value| && OnlyDigits(value) == OnlyDigits(value[i..])
    {
      if !IsDigit(value[i]) {
        return false;
      }
      i := i + 1;
    }
    return true;
  }

  lemma {:induction false} NumberOfConcat(a: string, b: string)
    requires AllDigits(a) && AllDigits(b)
    ensures AllDigits(a + b) && NumberOf(a + b) == NumberOf(a) * Pow10(|b|) + NumberOf(b)
    decreases |b|
  {
    if b == "" {
      assert a + b == a;
    } else {
      var front := b[..|b| - 1];
      assert (a + b)[..|a + b| - 1] == a + front;
      NumberOfConcat(a, front);
      ShiftDigit(NumberOf(a), Pow10(|front|), NumberOf(front), DigitValue(b[|b| - 1]));
    }
  }

  lemma ShiftDigit(x: int, p: int, y: int, d: int)
    ensures 10 * (x * p + y) + d == x * (10 * p) + (10 * y + d)
  {
  }

  lemma {:induction false} DropLeadingDigits(s: string)
    requires AllDigits(s)
    ensures var t := DropLeading(s, '0');
            AllDigits(t) && NumberOf(t) == NumberOf(s) && (t == "" ==> NumberOf(s) == 0)
  {
    if s != "" && s[0] == '0' {
      assert s == "0" + s[1..];
      NumberOfConcat("0", s[1..]);
      DropLeadingDigits(s[1..]);
    }
  }

  lemma {:induction false} DigitsDenote(n: nat)
    ensures NumberOf(Digits(n)) == n
  {
    if n >= 10 {
      DigitsDenote(n / 10);
      assert Digits(n)[..|Digits(n)| - 1] == Digits(n / 10);
    }
  }

  // ----- the reference grammar -----

  /** A decimal spelled out: an optional sign, digits, and perhaps a point with more digits. */
  datatype Spelling = Spelling(sign: string, whole: string, pointed: bool, fraction: string)

  ghost predicate WellSpelled(d: Spelling) {
    && (d.sign == "" || d.sign == "+" || d.sign == "-")
    && AllDigits(d.whole) && AllDigits(d.fraction)
    && (d.fraction != "" ==> d.pointed) && d.whole + d.fraction != ""
  }

  function Unsigned(d: Spelling): string {
    d.whole + (if d.pointed then "." + d.fraction else "")
  }

  function Spelled(d: Spelling): string {
    d.sign + Unsigned(d)
  }

  /** Its value in units of 10 to the power -scale; exact because no digit lies beyond the scale. */
  function ScaledValue(d: Spelling, scale: nat): int
    requires AllDigits(d.whole) && AllDigits(d.fraction) && |d.fraction| <= scale
  {
    var magnitude := NumberOf(d.whole) * Pow10(scale) + NumberOf(d.fraction) * Pow10(scale - |d.fraction|);
    if d.sign == "-" then -magnitude else magnitude
  }

  // ----- splitting at the point -----

  lemma {:induction false} SplitWhole(s: string, sep: char)
    requires sep !in s
    ensures Split(s, sep) == [s]
  {
    if s != "" {
      SplitWhole(s[1..], sep);
      assert [s[0]] + s[1..] == s;
    }
  }

  lemma {:induction false} SplitAt(a: string, sep: char, b: string)
    requires sep !in a
    ensures Split(a + [sep] + b, sep) == [a] + Split(b, sep)
  {
    var s := a + [sep] + b;
    if a == "" {
      assert s[1..] == b;
    } else {
      assert s[1..] == a[1..] + [sep] + b;
      SplitAt(a[1..], sep, b);
      assert [a[0]] + a[1..] == a;
    }
  }

  /** The parts put together again. */
  lemma {:induction false} SplitJoins(s: string, sep: char)
    ensures var parts := Split(s, sep);
            && sep !in parts[0]
            && (|parts| == 1 ==> s == parts[0])
            && (|parts| == 2 ==> s == parts[0] + [sep] + parts[1] && sep !in parts[1])
  {
    if s != "" {
      SplitJoins(s[1..], sep);
      assert s == [s[0]] + s[1..];
    }
  }

  lemma UnsignedSplits(d: Spelling)
    requires WellSpelled(d)
    ensures Split(Unsigned(d), '.') == if d.pointed then [d.whole, d.fraction] else [d.whole]
    ensures Unsigned(d) != "" && (Unsigned(d)[0] == '.' || IsDigit(Unsigned(d)[0]))
  {
    assert '.' !in d.whole && '.' !in d.fraction;
    if d.pointed {
      assert Unsigned(d) == d.whole + ['.'] + d.fraction;
      SplitAt(d.whole, '.', d.fraction);
      SplitWhole(d.fraction, '.');
    } else {
      assert Unsigned(d) == d.whole;
      SplitWhole(d.whole, '.');
    }
  }

  lemma NoExponent(d: Spelling)
    requires WellSpelled(d)
    ensures 'e' !in Spelled(d) && 'E' !in Spelled(d)
  {
    assert 'e' !in d.sign && 'e' !in d.whole && 'e' !in d.fraction;
    assert 'E' !in d.sign && 'E' !in d.whole && 'E' !in d.fraction;
  }

  /** A spelled decimal comes apart into its sign and its parts. */
  lemma SpelledParts(d: Spelling)
    requires WellSpelled(d)
    ensures var v := Spelled(d);
            && v != "" && 'e' !in v && 'E' !in v
            && SplitSign(v) == (if d.sign == "-" then -1 else 1, Unsigned(d))
            && Unsigned(d) != ""
            && Split(Unsigned(d), '.') == if d.pointed then [d.whole, d.fraction] else [d.whole]
  {
    UnsignedSplits(d);
    NoExponent(d);
    hide Unsigned, Split;
    var v := Spelled(d);
    if d.sign == "" {
      assert v == Unsigned(d);
    } else {
      assert v[1..] == Unsigned(d);
    }
  }

  /** A value whose parts are digits, not all empty, is a spelled decimal. */
  lemma PartsSpell(value: string) returns (d: Spelling)
    requires value != "" && SplitSign(value).1 != ""
    requires var parts := Split(SplitSign(value).1, '.');
             && |parts| <= 2 && AllDigits(parts[0]) && (|parts| == 2 ==> AllDigits(parts[1]))
             && (parts[0] != "" || (|parts| == 2 && parts[1] != ""))
    ensures WellSpelled(d) && Spelled(d) == value
  {
    hide Split, SplitSign, NumberOf;
    var unsigned := SplitSign(value).1;
    var parts := Split(unsigned, '.');
    SplitJoins(unsigned, '.');
    var sign := SignText(value);
    d := Spelling(sign, parts[0], |parts| == 2, if |parts| == 2 then parts[1] else "");
    if |parts| == 2 {
      assert unsigned == parts[0] + ("." + parts[1]);
      assert d.fraction == parts[1] && Unsigned(d) == unsigned;
    } else {
      assert Unsigned(d) == unsigned;
    }
  }

  lemma SignText(value: string) returns (sign: string)
    requires value != ""
    ensures sign == "" || sign == "+" || sign == "-"
    ensures value == sign + SplitSign(value).1
  {
    sign := if value[0] == '-' || value[0] == '+' then [value[0]] else "";
  }

  /** The integer part the parser works with: a missing one is zero. */
  function Whole(whole: string): string {
    if whole == "" then "0" else whole
  }

  lemma WholeIs(whole: string)
    requires AllDigits(whole)
    ensures AllDigits(Whole(whole)) && OnlyDigits(Whole(whole)) && NumberOf(Whole(whole)) == NumberOf(whole)
  {
    DigitsOnly(Whole(whole));
  }

  lemma DigitsValue(whole: string, fraction: string, n: nat)
    requires AllDigits(whole) && AllDigits(fraction)
    ensures var digits := Whole(whole) + fraction + Repeat('0', n);
            && AllDigits(digits)
            && NumberOf(digits) == NumberOf(whole) * Pow10(|fraction| + n) + NumberOf(fraction) * Pow10(n)
  {
    hide NumberOf, Pow10, Repeat, OnlyDigits, Whole;
    WholeIs(whole);
    ZerosOnly(n);
    NumberOfConcat(fraction, Repeat('0', n));
    NumberOfConcat(Whole(whole), fraction + Repeat('0', n));
    assert Whole(whole) + fraction + Repeat('0', n) == Whole(whole) + (fraction + Repeat('0', n));
  }

  lemma ParseUnsignedValue(sign: int, d: Spelling, scale: nat)
    requires WellSpelled(d) && sign == if d.sign == "-" then -1 else 1
    ensures ParseUnsigned(sign, if d.pointed then [d.whole, d.fraction] else [d.whole], scale) ==
            if |d.fraction| > scale then Err(TooManyDigits)
            else if IsInt64(ScaledValue(d, scale)) then Ok(ScaledValue(d, scale)) else Err(Overflow)
  {
    hide NumberOf, Pow10, Repeat, DropLeading;
    DigitsOnly(d.fraction);
    WholeIs(d.whole);
    if |d.fraction| <= scale {
      hide OnlyDigits;
      var n := scale - |d.fraction|;
      DigitsValue(d.whole, d.fraction, n);
      DropLeadingDigits(Whole(d.whole) + d.fraction + Repeat('0', n));
    }
  }

  /** What parsing makes of any well-spelled decimal: its exact scaled value, or the one thing wrong with it. */
  lemma ParseSpelled(raw: string, scale: nat, d: Spelling)
    requires WellSpelled(d) && TrimSpace(raw) == Spelled(d) && scale <= 18
    ensures ParseScaled(raw, scale) ==
            if |d.fraction| > scale then Err(TooManyDigits)
            else if IsInt64(ScaledValue(d, scale)) then Ok(ScaledValue(d, scale)) else Err(Overflow)
  {
    hide TrimSpace, ParseUnsigned, Split, SplitSign, ScaledValue, WellSpelled, Spelled;
    SpelledParts(d);
    ParseUnsignedValue(if d.sign == "-" then -1 else 1, d, scale);
  }

  lemma SpellingOf(raw: string, scale: int) returns (d: Spelling)
    requires ParseScaled(raw, scale).Ok?
    ensures 0 <= scale <= 18 && WellSpelled(d) && Spelled(d) == TrimSpace(raw)
  {
    hide TrimSpace, ParseDigits;
    var parts := Split(SplitSign(TrimSpace(raw)).1, '.');
    DigitsOnly(parts[0]);
    if |parts| == 2 {
      DigitsOnly(parts[1]);
    }
    d := PartsSpell(TrimSpace(raw));
  }

  ghost predicate Denotes(raw: string, d: Spelling, scale: nat, v: int) {
    WellSpelled(d) && Spelled(d) == TrimSpace(raw) && |d.fraction| <= scale && IsInt64(v) && ScaledValue(d, scale) == v
  }

  /** Parsing accepts exactly the decimals that fit, and gives their exact value. */
  lemma ParseIff(raw: string, scale: int, v: int)
    ensures ParseScaled(raw, scale) == Ok(v) <==> 0 <= scale <= 18 && exists d :: Denotes(raw, d, scale, v)
  {
    hide TrimSpace, ParseScaled, Spelled, WellSpelled, ScaledValue;
    if ParseScaled(raw, scale).Ok? {
      var d := SpellingOf(raw, scale);
      ParseSpelled(raw, scale, d);
      assert Denotes(raw, d, scale, ParseScaled(raw, scale).value);
    }
    if 0 <= scale <= 18 {
      forall d | Denotes(raw, d, scale, v) ensures ParseScaled(raw, scale) == Ok(v) {
        ParseSpelled(raw, scale, d);
      }
    }
  }

  /** The errors that are told apart before the digits are looked at. */
  lemma EarlyErrors(raw: string, scale: int)
    ensures ParseScaled(raw, scale) == Err(BadScale) <==> !(0 <= scale <= 18)
    ensures ParseScaled(raw, scale) == Err(Missing) <==> 0 <= scale <= 18 && TrimSpace(raw) == ""
    ensures ParseScaled(raw, scale) == Err(Exponent) <==>
              0 <= scale <= 18 && exists i :: 0 <= i < |TrimSpace(raw)| && TrimSpace(raw)[i] in {'e', 'E'}
  {
    hide TrimSpace, Split, OnlyDigits;
  }

  // ----- the sign -----

  lemma {:induction false} ZeroIff(s: string)
    requires AllDigits(s)
    ensures NumberOf(s) == 0 <==> forall i :: 0 <= i < |s| ==> s[i] == '0'
  {
    if s != "" {
      ZeroIff(s[..|s| - 1]);
    }
  }

  lemma ValueZeroIff(d: Spelling)
    requires WellSpelled(d)
    ensures NumberOf(d.whole) == 0 && NumberOf(d.fraction) == 0 <==>
            forall i :: 0 <= i < |Unsigned(d)| ==> Unsigned(d)[i] == '0' || Unsigned(d)[i] == '.'
  {
    hide NumberOf;
    ZeroIff(d.whole);
    ZeroIff(d.fraction);
    var u := Unsigned(d);
    assert forall i :: 0 <= i < |d.whole| ==> u[i] == d.whole[i];
    assert d.pointed ==> forall i :: 0 <= i < |d.fraction| ==> u[|d.whole| + 1 + i] == d.fraction[i];
  }

  function SignOf(v: int): int {
    if v < 0 then -1 else if v == 0 then 0 else 1
  }

  /** The sign of any well-spelled decimal. */
  lemma SignSpelled(raw: string, d: Spelling)
    requires WellSpelled(d) && TrimSpace(raw) == Spelled(d)
    ensures DecimalSign(raw) ==
            Ok(if NumberOf(d.whole) == 0 && NumberOf(d.fraction) == 0 then 0 else if d.sign == "-" then -1 else 1)
  {
    SpelledParts(d);
    ValueZeroIff(d);
    DigitsOnly(d.whole);
    DigitsOnly(d.fraction);
    hide TrimSpace, Split, SplitSign, Spelled, Unsigned, NumberOf, OnlyDigits;
  }

  /** DecimalSign accepts exactly the well-spelled decimals. */
  lemma SignIff(raw: string)
    ensures DecimalSign(raw).Ok? <==> exists d :: WellSpelled(d) && Spelled(d) == TrimSpace(raw)
  {
    hide TrimSpace, WellSpelled, Spelled;
    if DecimalSign(raw).Ok? {
      var parts := Split(SplitSign(TrimSpace(raw)).1, '.');
      DigitsOnly(parts[0]);
      if |parts| == 2 {
        DigitsOnly(parts[1]);
      }
      var d := PartsSpell(TrimSpace(raw));
    }
    forall d | WellSpelled(d) && Spelled(d) == TrimSpace(raw) ensures DecimalSign(raw).Ok? {
      SignSpelled(raw, d);
    }
  }

  lemma ValueSign(d: Spelling, scale: nat)
    requires WellSpelled(d) && |d.fraction| <= scale
    ensures SignOf(ScaledValue(d, scale)) ==
            if NumberOf(d.whole) == 0 && NumberOf(d.fraction) == 0 then 0 else if d.sign == "-" then -1 else 1
  {
    hide NumberOf, Pow10, AllDigits;
    Times(NumberOf(d.whole), Pow10(scale));
    Times(NumberOf(d.fraction), Pow10(scale - |d.fraction|));
  }

  lemma Times(n: nat, p: nat)
    requires p > 0
    ensures n * p >= 0 && (n * p == 0 <==> n == 0)
  {
  }

  /** The sign agrees with the parsed value at every scale. */
  lemma SignAgrees(raw: string, scale: int)
    requires ParseScaled(raw, scale).Ok?
    ensures DecimalSign(raw) == Ok(SignOf(ParseScaled(raw, scale).value))
  {
    var d := SpellingOf(raw, scale);
    hide TrimSpace, ParseScaled, Spelled, WellSpelled, ScaledValue, DecimalSign, NumberOf;
    ParseSpelled(raw, scale, d);
    SignSpelled(raw, d);
    ValueSign(d, scale);
  }

  // ----- printing -----

  lemma {:induction false} DropTrailingValue(s: string)
    requires AllDigits(s)
    ensures var t := DropTrailing(s, '0');
            t <= s && AllDigits(t) && NumberOf(s) == NumberOf(t) * Pow10(|s| - |t|)
  {
    if s != "" && s[|s| - 1] == '0' {
      DropTrailingValue(s[..|s| - 1]);
      var t := DropTrailing(s, '0');
      Tenfold(NumberOf(t), Pow10(|s| - 1 - |t|));
    }
  }

  lemma Tenfold(n: int, p: int)
    ensures 10 * (n * p) == n * (10 * p)
  {
  }

  lemma PaddedIs(m: nat, scale: nat)
    ensures AllDigits(Pad(Digits(m), scale)) && NumberOf(Pad(Digits(m), scale)) == m
  {
    hide NumberOf, Digits;
    DigitsDenote(m);
    if |Digits(m)| <= scale {
      var zeros := scale + 1 - |Digits(m)|;
      ZerosOnly(zeros);
      NumberOfConcat(Repeat('0', zeros), Digits(m));
    }
  }

  /** The printed form of a value: its sign, whole part and fraction without trailing zeros. */
  function Printed(v: int, scale: nat): Spelling {
    var padded := Pad(Digits(if v < 0 then -v else v), scale);
    PaddedIs(if v < 0 then -v else v, scale);
    var point := |padded| - scale;
    var fraction := DropTrailing(padded[point..], '0');
    Spelling(if v < 0 then "-" else "", padded[..point], fraction != "", fraction)
  }

  lemma PrintedIs(v: int, scale: nat)
    ensures var d := Printed(v, scale);
            WellSpelled(d) && d.whole != "" && |d.fraction| <= scale && ScaledValue(d, scale) == v
  {
    hide NumberOf, Pad, Digits, Pow10;
    var m := if v < 0 then -v else v;
    var padded := Pad(Digits(m), scale);
    PaddedIs(m, scale);
    var point := |padded| - scale;
    DropTrailingValue(padded[point..]);
    NumberOfConcat(padded[..point], padded[point..]);
    assert padded[..point] + padded[point..] == padded;
  }

  lemma {:induction false} DropTrailingLast(s: string)
    ensures var t := DropTrailing(s, '0'); t != "" ==> t[|t| - 1] != '0'
  {
    if s != "" && s[|s| - 1] == '0' {
      DropTrailingLast(s[..|s| - 1]);
    }
  }

  lemma {:induction false} DigitsLead(n: nat)
    ensures n > 0 ==> Digits(n)[0] != '0'
  {
    if n >= 10 {
      DigitsLead(n / 10);
    }
  }

  lemma {:induction false} ZerosAre(n: nat)
    ensures |Repeat('0', n)| == n && forall i :: 0 <= i < n ==> Repeat('0', n)[i] == '0'
  {
    if n > 0 {
      ZerosAre(n - 1);
    }
  }

  /** The printed form has no needless digit: no leading zero but a single one, no trailing zero after the point, no bare point. */
  lemma PrintedIsShort(v: int, scale: nat)
    ensures var d := Printed(v, scale);
            && (d.whole == "0" || d.whole[0] != '0')
            && (d.fraction != "" ==> d.fraction[|d.fraction| - 1] != '0')
            && (d.pointed <==> d.fraction != "") && (d.sign == if v < 0 then "-" else "")
  {
    hide Digits, NumberOf, DropTrailing;
    PrintedIs(v, scale);
    var m := if v < 0 then -v else v;
    var padded := Pad(Digits(m), scale);
    DropTrailingLast(padded[|padded| - scale..]);
    DigitsLead(m);
    if |Digits(m)| <= scale {
      ZerosAre(scale + 1 - |Digits(m)|);
      assert padded[..1] == "0";
    } else if m == 0 {
      ZeroDigits();
    }
  }

  lemma ZeroDigits()
    ensures Digits(0) == "0"
  {
  }

  lemma PointAtPrints(m: nat, scale: nat)
    ensures PointAt(Digits(m), scale) == Unsigned(Printed(m, scale))
  {
    PrintedIs(m, scale);
    hide Digits, NumberOf, DropTrailing, Repeat, Pow10;
    var d := Printed(m, scale);
    var pointed := d.whole + "." + d.fraction;
    if d.fraction == "" {
      assert pointed[|pointed| - 1] == '.';
      assert pointed[..|pointed| - 1] == d.whole;
    } else {
      assert pointed[|pointed| - 1] == d.fraction[|d.fraction| - 1];
      assert pointed == d.whole + ("." + d.fraction);
    }
  }

  /** Only zero prints as zero. */
  lemma PrintedZero(m: nat, scale: nat)
    requires Unsigned(Printed(m, scale)) == "0"
    ensures m == 0
  {
    PrintedIs(m, scale);
    var d := Printed(m, scale);
    hide Printed;
    assert |Unsigned(d)| == 1 && !d.pointed;
    assert d.whole == "0" && NumberOf(d.whole) == 0;
  }

  lemma MagnitudeDigits(v: Int64)
    requires v != MIN_INT64
    ensures FormatInt(if v < 0 then Wrap64(-(v as int)) else v) == Digits(if v < 0 then -(v as int) else v)
  {
    hide Digits;
    if v < 0 {
      var m: nat := -(v as int);
      assert IsInt64(v) && IsInt64(m);
      assert Wrap64(m) == m;
      assert FormatInt(m) == Digits(m);
    }
  }

  lemma PrintedSign(v: int, scale: nat)
    ensures Spelled(Printed(v, scale)) == (if v < 0 then "-" else "") + Unsigned(Printed(if v < 0 then -v else v, scale))
  {
    hide Pad, Digits, DropTrailing;
  }

  /** Every value but the smallest prints as its spelling. */
  lemma FormatPrints(v: Int64, scale: int)
    requires scale > 0 && v != MIN_INT64
    ensures FormatScaled(v, scale) == Spelled(Printed(v, scale))
  {
    var m: nat := if v < 0 then -(v as int) else v;
    hide Digits, PointAt, Printed, Spelled, Unsigned, FormatInt, Wrap64;
    MagnitudeDigits(v);
    PointAtPrints(m, scale);
    PrintedSign(v, scale);
    if v < 0 && Unsigned(Printed(m, scale)) == "0" {
      PrintedZero(m, scale);
    }
  }

  // ----- the round trip -----

  lemma TrimmedAlready(t: string)
    requires t != "" ==> !IsSpace(t[0]) && !IsSpace(t[|t| - 1])
    ensures TrimSpace(t) == t
  {
    hide IsSpace;
  }

  lemma SpelledIsTrimmed(d: Spelling)
    requires WellSpelled(d)
    ensures TrimSpace(Spelled(d)) == Spelled(d)
  {
    var t := Spelled(d);
    UnsignedSplits(d);
    assert t[|t| - 1] == Unsigned(d)[|Unsigned(d)| - 1];
    TrimmedAlready(t);
  }

  /** A whole number printed without a scale. */
  function WholeSpelling(v: int): Spelling {
    Spelling(if v < 0 then "-" else "", Digits(if v < 0 then -v else v), false, "")
  }

  lemma WholeSpelled(v: int)
    ensures var d := WholeSpelling(v);
            WellSpelled(d) && FormatInt(v) == Spelled(d) && ScaledValue(d, 0) == v
  {
    DigitsDenote(if v < 0 then -v else v);
  }

  /** A text that starts with two signs is no decimal. */
  lemma TwoSigns(t: string, scale: int)
    requires |t| >= 2 && t[0] == '-' && t[1] == '-'
    ensures ParseScaled(t, scale).Err?
  {
    if ParseScaled(t, scale).Ok? {
      var d := SpellingOf(t, scale);
      UnsignedSplits(d);
      TrimKeepsSigns(t);
    }
  }

  lemma TrimKeepsSigns(t: string)
    requires |t| >= 2 && t[0] == '-' && t[1] == '-'
    ensures |TrimSpace(t)| >= 2 && TrimSpace(t)[0] == '-' && TrimSpace(t)[1] == '-'
  {
    TrimRightKeeps(t, 2);
  }

  lemma {:induction false} TrimRightKeeps(t: string, n: nat)
    requires 0 < n <= |t| && !IsSpace(t[n - 1])
    ensures |TrimRight(t)| >= n
  {
    if IsSpace(t[|t| - 1]) {
      TrimRightKeeps(t[..|t| - 1], n);
    }
  }

  lemma {:induction false} DigitsLength(n: nat, k: nat)
    requires n >= Pow10(k)
    ensures |Digits(n)| > k
  {
    if k > 0 {
      DigitsLength(n / 10, k - 1);
    }
  }

  lemma TenTo18()
    ensures Pow10(18) == 1_000_000_000_000_000_000
  {
    assert Pow10(6) == 1_000_000;
    assert Pow10(12) == 1_000_000_000_000;
  }

  lemma PointAtKeepsFirst(digits: string, scale: nat)
    requires |digits| > scale && digits[0] != '.'
    ensures PointAt(digits, scale) != "" && PointAt(digits, scale)[0] == digits[0]
  {
    hide DropTrailing;
  }

  /** The smallest value prints with two signs at every scale that can be parsed. */
  lemma SmallestPrintsTwoSigns(scale: int)
    requires 0 < scale <= 18
    ensures var t := FormatScaled(MIN_INT64, scale);
            |t| >= 2 && t[0] == '-' && t[1] == '-'
  {
    var digits := FormatInt(MIN_INT64);
    assert Wrap64(-MIN_INT64) == MIN_INT64;
    TenTo18();
    DigitsLength(-MIN_INT64, 18);
    assert |digits| > scale && digits[0] == '-';
    hide Digits, FormatInt, Pow10;
    PointAtKeepsFirst(digits, scale);
  }

  /**
   * Parsing undoes printing, at the scales parsing accepts, for every 64-bit value except the smallest
   * with a fraction: its magnitude does not fit, so it prints with two signs.
   */
  lemma RoundTrip(v: Int64, scale: int)
    ensures ParseScaled(FormatScaled(v, scale), scale) == Ok(v) <==> 0 <= scale <= 18 && !(v == MIN_INT64 && scale > 0)
  {
    hide ParseScaled, FormatScaled, WellSpelled, Spelled, TrimSpace, ScaledValue, Printed, WholeSpelling;
    if 0 < scale <= 18 && v != MIN_INT64 {
      FormatPrints(v, scale);
      PrintedIs(v, scale);
      SpelledIsTrimmed(Printed(v, scale));
      ParseSpelled(FormatScaled(v, scale), scale, Printed(v, scale));
    } else if scale == 0 {
      WholeSpelled(v);
      FormatWhole(v);
      SpelledIsTrimmed(WholeSpelling(v));
      ParseSpelled(FormatScaled(v, 0), 0, WholeSpelling(v));
    } else if 0 < scale <= 18 {
      SmallestPrintsTwoSigns(scale);
      TwoSigns(FormatScaled(v, scale), scale);
    } else {
      ParseNeedsScale(FormatScaled(v, scale), scale);
    }
  }

  lemma FormatWhole(v: Int64)
    ensures FormatScaled(v, 0) == FormatInt(v) && |WholeSpelling(v).fraction| == 0
  {
  }

  lemma ParseNeedsScale(raw: string, scale: int)
    requires scale < 0 || scale > 18
    ensures ParseScaled(raw, scale) == Err(BadScale)
  {
  }
}
