/** Conversation-local base-36 message and bundle codes (crates/protocol/src/lib.rs).

    `Value` and `Canonical` say independently of the loops what a code denotes and which
    strings are codes; the two methods are the source's digit loops. */
module MessageCodes {
  import opened Basics
  import opened Results

  const DIGITS := "0123456789abcdefghijklmnopqrstuvwxyz"

  predicate IsDigit(c: char) {
    '0' <= c <= '9' || 'a' <= c <= 'z'
  }

  predicate AllDigits(code: string) {
    forall i :: 0 <= i < |code| ==> IsDigit(code[i])
  }

  function DigitValue(c: char): (d: nat)
    requires IsDigit(c)
    ensures d < 36 && DIGITS[d] == c
  {
    if c <= '9' then c as int - '0' as int else c as int - 'a' as int + 10
  }

  /** The number a digit string denotes, most significant digit first. */
  function Value(code: string): nat
    requires AllDigits(code)
  {
    if code == "" then 0 else 36 * Value(code[..|code| - 1]) + DigitValue(code[|code| - 1])
  }

  /** At least three digits, and no leading zero beyond the padding to three. */
  predicate Canonical(code: string) {
    |code| >= 3 && AllDigits(code) && (|code| > 3 ==> code[0] != '0')
  }

  /** The digits of `value`, most significant first, without padding. */
  function Unpadded(value: nat): (code: string)
    ensures code != "" && AllDigits(code) && Value(code) == value
    ensures |code| > 1 ==> code[0] != '0'
  {
    if value < 36 then
      DigitIsDigit(value);
      [DIGITS[value]]
    else
      DigitIsDigit(value % 36);
      var high := Unpadded(value / 36);
      var code := high + [DIGITS[value % 36]];
      assert code[..|code| - 1] == high;
      if |high| == 1 then
        assert high[..0] == "";
        assert Value(high) == 36 * Value(high[..0]) + DigitValue(high[0]);
        assert high[0] != '0';
        code
      else code
  }

  lemma DigitIsDigit(d: nat)
    requires d < 36
    ensures IsDigit(DIGITS[d]) && DigitValue(DIGITS[d]) == d
  {
    if d < 10 {
      assert DIGITS[d] == '0' + d as char;
    } else {
      assert DIGITS[d] == 'a' + (d - 10) as char;
    }
  }

  /** The canonical code of `value`. */
  function Code(value: nat): (code: string)
    ensures Canonical(code) && Value(code) == value
  {
    var digits := Unpadded(value);
    if |digits| == 1 then
      LeadingZero(digits);
      LeadingZero("0" + digits);
      assert "0" + ("0" + digits) == "00" + digits;
      "00" + digits
    else if |digits| == 2 then
      LeadingZero(digits);
      "0" + digits
    else digits
  }

  lemma {:induction false} LeadingZero(code: string)
    requires AllDigits(code)
    ensures AllDigits("0" + code) && Value("0" + code) == Value(code)
  {
    var padded := "0" + code;
    assert forall i :: 0 < i < |padded| ==> padded[i] == code[i - 1];
    if code == "" {
      assert padded[..0] == "";
    } else {
      LeadingZero(code[..|code| - 1]);
      assert padded[..|padded| - 1] == "0" + code[..|code| - 1];
    }
  }

  function Power(n: nat): (p: nat)
    ensures p >= 1
  {
    if n == 0 then 1 else 36 * Power(n - 1)
  }

  /** A code of n digits is below 36^n; with a nonzero first digit it is at least 36^(n-1). */
  lemma {:induction false} ValueBounds(code: string)
    requires AllDigits(code)
    ensures Value(code) < Power(|code|)
    ensures code != "" && code[0] != '0' ==> Power(|code| - 1) <= Value(code)
  {
    if |code| > 1 {
      ValueBounds(code[..|code| - 1]);
    } else if |code| == 1 {
      assert code[..0] == "";
      assert Power(1) == 36 * Power(0);
      assert code[0] != '0' ==> DigitValue(code[0]) > 0;
    }
  }

  lemma {:induction false} PowerMonotone(m: nat, n: nat)
    requires m <= n
    ensures Power(m) <= Power(n)
    decreases n
  {
    if m < n {
      PowerMonotone(m, n - 1);
    }
  }

  lemma I64Fits()
    ensures I64_MAX < Power(13)
  {
    assert Power(4) == 36 * 36 * 36 * 36;
    assert Power(8) == 36 * (36 * (36 * (36 * Power(4))));
    assert Power(12) == 36 * (36 * (36 * (36 * Power(8))));
  }

  /** Lexicographic order on digit strings of one length. */
  predicate LexLess(a: string, b: string)
    requires |a| == |b|
  {
    exists i :: 0 <= i < |a| && a[..i] == b[..i] && a[i] < b[i]
  }

  /** Shorter codes first, then character order. */
  predicate CodeLess(a: string, b: string) {
    |a| < |b| || (|a| == |b| && LexLess(a, b))
  }

  lemma LexStep(p: string, x: char, q: string, y: char)
    requires |p| == |q|
    ensures LexLess(p + [x], q + [y]) <==> LexLess(p, q) || (p == q && x < y)
  {
    var n, a, b := |p|, p + [x], q + [y];
    assert a[..n] == p && b[..n] == q;
    if LexLess(p, q) {
      var i :| 0 <= i < n && p[..i] == q[..i] && p[i] < q[i];
      assert a[..i] == p[..i] && b[..i] == q[..i] && a[i] < b[i];
    }
    if LexLess(a, b) {
      var i :| 0 <= i < |a| && a[..i] == b[..i] && a[i] < b[i];
      if i < n {
        assert p[..i] == a[..i] && q[..i] == b[..i] && p[i] < q[i];
      }
    }
  }

  lemma Snoc<T>(s: seq<T>)
    requires s != []
    ensures s == s[..|s| - 1] + [s[|s| - 1]]
  {
  }

  lemma {:induction false} SameLengthOrder(a: string, b: string)
    requires AllDigits(a) && AllDigits(b) && |a| == |b|
    ensures Value(a) < Value(b) <==> LexLess(a, b)
    ensures Value(a) == Value(b) <==> a == b
  {
    if a != "" {
      var n := |a| - 1;
      var p, q := a[..n], b[..n];
      SameLengthOrder(p, q);
      Snoc(a);
      Snoc(b);
      LexStep(p, a[n], q, b[n]);
      DigitOrder(a[n], b[n]);
    }
  }

  lemma DigitOrder(x: char, y: char)
    requires IsDigit(x) && IsDigit(y)
    ensures DigitValue(x) < DigitValue(y) <==> x < y
    ensures DigitValue(x) == DigitValue(y) <==> x == y
  {
  }

  lemma ShorterIsSmaller(a: string, b: string)
    requires Canonical(a) && Canonical(b) && |a| < |b|
    ensures Value(a) < Value(b)
  {
    ValueBounds(a);
    ValueBounds(b);
    PowerMonotone(|a|, |b| - 1);
  }

  /** Codes ordered by length and then by characters are in numeric order, and a number
      has exactly one canonical code. */
  lemma CodeOrderIsNumeric(a: string, b: string)
    requires Canonical(a) && Canonical(b)
    ensures CodeLess(a, b) <==> Value(a) < Value(b)
    ensures a == b <==> Value(a) == Value(b)
  {
    if |a| < |b| {
      ShorterIsSmaller(a, b);
    } else if |b| < |a| {
      ShorterIsSmaller(b, a);
    } else {
      SameLengthOrder(a, b);
    }
  }

  lemma {:induction false} PrefixIsSmaller(code: string, n: nat)
    requires AllDigits(code) && n <= |code|
    ensures AllDigits(code[..n]) && Value(code[..n]) <= Value(code)
  {
    if n == |code| {
      assert code[..n] == code;
    } else {
      var shorter := code[..|code| - 1];
      PrefixIsSmaller(shorter, n);
      assert shorter[..n] == code[..n];
    }
  }

  /** A canonical code of an i64 has at most thirteen characters. */
  lemma CodeLength(code: string)
    requires Canonical(code) && Value(code) <= I64_MAX
    ensures |code| <= 13
  {
    if |code| > 13 {
      ValueBounds(code);
      PowerMonotone(13, |code| - 1);
      I64Fits();
    }
  }

  /** The reversed digit vector, least significant digit first. */
  function LittleValue(digits: string): nat
    requires AllDigits(digits)
  {
    if digits == "" then 0 else DigitValue(digits[0]) + 36 * LittleValue(digits[1..])
  }

  function Reverse(s: string): (r: string)
    ensures |r| == |s|
    ensures forall i :: 0 <= i < |s| ==> r[i] == s[|s| - 1 - i]
  {
    if s == "" then "" else Reverse(s[1..]) + [s[0]]
  }

  lemma {:induction false} ReverseValue(digits: string)
    requires AllDigits(digits)
    ensures AllDigits(Reverse(digits)) && Value(Reverse(digits)) == LittleValue(digits)
  {
    if digits != "" {
      ReverseValue(digits[1..]);
      var r := Reverse(digits);
      assert r[..|r| - 1] == Reverse(digits[1..]);
    }
  }

  lemma {:induction false} LittleAppend(digits: string, c: char)
    requires AllDigits(digits) && IsDigit(c)
    ensures AllDigits(digits + [c])
    ensures LittleValue(digits + [c]) == LittleValue(digits) + Scaled(DigitValue(c), |digits|)
  {
    if digits != "" {
      var rest := digits[1..];
      LittleAppend(rest, c);
      assert (digits + [c])[1..] == rest + [c];
    }
  }

  /** `value` moved up by `n` digits. */
  function Scaled(value: nat, n: nat): nat {
    if n == 0 then value else 36 * Scaled(value, n - 1)
  }

  lemma {:induction false} ScaledZero(n: nat)
    ensures Scaled(0, n) == 0
  {
    if n > 0 {
      ScaledZero(n - 1);
    }
  }

  /** One step of the division loop keeps what is done and what is left together the same. */
  lemma {:induction false} DivideStep(value: nat, n: nat)
    ensures Scaled(value, n) == Scaled(value % 36, n) + Scaled(value / 36, n + 1)
  {
    if n > 0 {
      DivideStep(value, n - 1);
    } else {
      assert Scaled(value / 36, 1) == 36 * Scaled(value / 36, 0);
    }
  }

  lemma DigitStep(digits: string, left: nat)
    requires AllDigits(digits)
    ensures var more := digits + [DIGITS[left % 36]];
            && AllDigits(more)
            && LittleValue(more) + Scaled(left / 36, |more|) == LittleValue(digits) + Scaled(left, |digits|)
            && (left % 36 > 0 ==> more[|digits|] != '0')
  {
    DigitIsDigit(left % 36);
    LittleAppend(digits, DIGITS[left % 36]);
    DivideStep(left, |digits|);
  }

  /** The division loop: the digits of `value`, least significant first. */
  method LittleDigits(value: nat) returns (digits: string)
    ensures digits != "" && AllDigits(digits) && LittleValue(digits) == value
    ensures |digits| > 1 ==> digits[|digits| - 1] != '0'
  {
    digits := "";
    var left, looping := value, true;
    while looping
      invariant AllDigits(digits)
      invariant LittleValue(digits) + Scaled(left, |digits|) == value
      invariant looping ==> digits == "" || left > 0
      invariant !looping ==> left == 0 && digits != ""
      invariant !looping && |digits| > 1 ==> digits[|digits| - 1] != '0'
      decreases looping, left
    {
      DigitStep(digits, left);
      digits := digits + [DIGITS[left % 36]];
      left := left / 36;
      if left == 0 {
        looping := false;
      }
    }
    ScaledZero(|digits|);
  }

  /** The padding loop. */
  method Pad(digits: string) returns (padded: string)
    requires AllDigits(digits)
    ensures |padded| >= 3 && AllDigits(padded) && LittleValue(padded) == LittleValue(digits)
    ensures |padded| > 3 ==> padded == digits
  {
    padded := digits;
    while |padded| < 3
      invariant AllDigits(padded) && LittleValue(padded) == LittleValue(digits)
      invariant |padded| > 3 ==> padded == digits
    {
      LittleAppend(padded, '0');
      ScaledZero(|padded|);
      padded := padded + "0";
    }
  }

  method MessageCode(sequence: int) returns (code: Option<string>)
    requires IsI64(sequence)
    ensures code.None? <==> sequence < 1
    ensures code.Some? ==> Canonical(code.value) && Value(code.value) == sequence - 1 && |code.value| <= 13
    ensures code.Some? ==> code.value == Code(sequence - 1)
  {
    if sequence - 1 < 0 {
      return None;
    }
    var digits := LittleDigits(sequence - 1);
    digits := Pad(digits);
    ReverseValue(digits);
    digits := Reverse(digits);
    CodeLength(digits);
    CodeOrderIsNumeric(digits, Code(sequence - 1));
    return Some(digits);
  }

  /** The accumulating loop: the number, or nothing once it leaves 64 bits. */
  method Accumulate(code: string) returns (value: Option<nat>)
    ensures value.Some? <==> AllDigits(code) && Value(code) <= I64_MAX
    ensures value.Some? ==> value.value == Value(code)
  {
    var total := 0;
    for i := 0 to |code|
      invariant AllDigits(code[..i])
      invariant total == Value(code[..i]) <= I64_MAX
    {
      if !IsDigit(code[i]) {
        return None;
      }
      assert code[..i + 1][..i] == code[..i];
      var digit := DigitValue(code[i]);
      if 36 * total > I64_MAX || 36 * total + digit > I64_MAX {
        if AllDigits(code) {
          PrefixIsSmaller(code, i + 1);
        }
        return None;
      }
      total := 36 * total + digit;
    }
    assert code[..|code|] == code;
    return Some(total);
  }

  method MessageSequence(code: string) returns (sequence: Option<int>)
    ensures sequence.Some? <==> Canonical(code) && Value(code) < I64_MAX
    ensures sequence.Some? ==> sequence.value == Value(code) + 1
  {
    if !(3 <= |code| <= 13) {
      if Canonical(code) && Value(code) < I64_MAX {
        CodeLength(code);
      }
      return None;
    }
    var value := Accumulate(code);
    if value.None? || value.value + 1 > I64_MAX {
      return None;
    }
    var canonical := MessageCode(value.value + 1);
    if Canonical(code) {
      CodeOrderIsNumeric(code, canonical.value);
    }
    return if canonical == Some(code) then Some(value.value + 1) else None;
  }

  method BundleCode(sequence: int) returns (code: Option<string>)
    requires IsI64(sequence)
    ensures code.Some? <==> 1 <= sequence < I64_MAX
    ensures code.Some? ==> code.value == Code(sequence) && code.value != "000"
  {
    if sequence < 1 || sequence + 1 > I64_MAX {
      return None;
    }
    code := MessageCode(sequence + 1);
    ZeroCode();
  }

  method BundleSequence(code: string) returns (sequence: Option<int>)
    ensures sequence.Some? <==> Canonical(code) && Value(code) < I64_MAX && code != "000"
    ensures sequence.Some? ==> sequence.value == Value(code)
  {
    var message := MessageSequence(code);
    ZeroCode();
    if message.None? {
      return None;
    }
    CodeOrderIsNumeric(code, "000");
    return if message.value - 1 > 0 then Some(message.value - 1) else None;
  }

  lemma ZeroCode()
    ensures Canonical("000") && Value("000") == 0
  {
    assert "0"[..0] == "";
    assert Value("0") == 0;
    LeadingZero("0");
    LeadingZero("00");
    assert "0" + "0" == "00" && "0" + "00" == "000";
  }

  /** Decoding undoes encoding for every i64 sequence from one up, encoding undoes decoding
      for every accepted string, and the bundle codes are the same bijection shifted by one
      (bundle n is message n + 1), on 1 to i64::MAX - 1 and without "000". */
  method RoundTrips(sequence: int, code: string)
    returns (message: Option<int>, again: Option<string>, bundle: Option<int>)
    requires 1 <= sequence <= I64_MAX
    ensures message == Some(sequence)
    ensures again.Some? ==> again.value == code
    ensures again.Some? <==> Canonical(code) && Value(code) < I64_MAX
    ensures bundle == if sequence < I64_MAX then Some(sequence) else None
  {
    var encoded := MessageCode(sequence);
    message := MessageSequence(encoded.value);
    var decoded := MessageSequence(code);
    again := None;
    if decoded.Some? {
      again := MessageCode(decoded.value);
      CodeOrderIsNumeric(again.value, code);
    }
    var bundled := BundleCode(sequence);
    bundle := None;
    if bundled.Some? {
      bundle := BundleSequence(bundled.value);
    }
  }
}
