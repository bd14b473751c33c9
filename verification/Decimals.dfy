/** Unbounded decimal integers kept as text: step ordinals, their sum, their order,
    and the text key under which the viewer sorts them. */
module Decimals {
  import opened Results

  datatype Ordering = Less | Equal | Greater

  function Reverse(o: Ordering): Ordering {
    match o
    case Less => Greater
    case Equal => Equal
    case Greater => Less
  }

  function CompareInt(a: int, b: int): Ordering {
    if a < b then Less else if a > b then Greater else Equal
  }

  predicate IsDigit(c: char) { '0' <= c <= '9' }

  predicate IsDigits(s: string) { forall i :: 0 <= i < |s| ==> IsDigit(s[i]) }

  function Digit(c: char): nat
    requires IsDigit(c)
  {
    c as int - '0' as int
  }

  function DigitChar(n: nat): char
    requires n < 10
  {
    (n + '0' as int) as char
  }

  /** d * 10^n, kept linear for the solver. */
  function Shift(d: int, n: nat): int { if n == 0 then d else 10 * Shift(d, n - 1) }

  function Pow10(n: nat): int { Shift(1, n) }

  lemma {:induction false} ShiftAdds(a: int, b: int, n: nat)
    ensures Shift(a, n) + Shift(b, n) == Shift(a + b, n)
  {
    if n > 0 { ShiftAdds(a, b, n - 1); }
  }

  lemma {:induction false} ShiftTen(d: int, n: nat)
    ensures Shift(10 * d, n) == Shift(d, n + 1)
  {
    if n > 0 { ShiftTen(d, n - 1); }
  }

  lemma {:induction false} ShiftGrows(d: int, e: int, n: nat)
    requires d <= e
    ensures Shift(d, n) <= Shift(e, n)
    ensures d >= 1 ==> Shift(d, n) >= 1
    ensures Shift(0, n) == 0
  {
    if n > 0 { ShiftGrows(d, e, n - 1); }
  }

  /** The number a run of digits denotes, most significant first. */
  function Natural(s: string): int
    requires IsDigits(s)
  {
    if s == "" then 0 else Shift(Digit(s[0]), |s| - 1) + Natural(s[1..])
  }

  predicate CanonicalNat(s: string) {
    IsDigits(s) && s != "" && (|s| > 1 ==> s[0] != '0')
  }

  /** The spellings a parsed step can have: no leading zero, no "-0". */
  predicate Canonical(s: string) {
    if s != "" && s[0] == '-' then CanonicalNat(s[1..]) && s[1..] != "0" else CanonicalNat(s)
  }

  predicate Negative(s: string) { s != "" && s[0] == '-' }

  function Magnitude(s: string): string { if Negative(s) then s[1..] else s }

  function Value(s: string): int
    requires Canonical(s)
  {
    if Negative(s) then -Natural(s[1..]) else Natural(s)
  }

  /** `Step::parse` on text that carries no surrounding blanks. */
  function ParseStep(text: string): Option<string> {
    if text == "true" then Some("1")
    else if text == "false" then Some("0")
    else
      var digits := Magnitude(text);
      if digits == "" || !IsDigits(digits) || (|digits| > 1 && digits[0] == '0') then None
      else if text == "-0" then Some("0") else Some(text)
  }

  /** What can be read as a step: a truth value, or an integer without leading zeros. */
  predicate Readable(text: string) {
    text == "true" || text == "false" || CanonicalNat(Magnitude(text))
  }

  function Denoted(text: string): int
    requires Readable(text)
  {
    if text == "true" then 1
    else if text == "false" then 0
    else if Negative(text) then -Natural(text[1..])
    else Natural(text)
  }

  /** Exactly the readable texts are accepted; the step keeps their number, in canonical spelling. */
  lemma ParseStepMeans(text: string)
    ensures ParseStep(text).Some? <==> Readable(text)
    ensures Readable(text) ==>
      var step := ParseStep(text).value; Canonical(step) && Value(step) == Denoted(text)
    ensures Canonical(text) ==> ParseStep(text) == Some(text)
  {
  }

  /** Texts that denote the same integer become the same step. */
  lemma ParseStepIdentifies(a: string, b: string)
    requires Readable(a) && Readable(b)
    ensures ParseStep(a) == ParseStep(b) <==> Denoted(a) == Denoted(b)
  {
    ParseStepMeans(a);
    ParseStepMeans(b);
    CompareStepIsNumeric(ParseStep(a).value, ParseStep(b).value);
  }

  // ---------------------------------------------------------------- digits

  lemma {:induction false} NaturalBound(s: string)
    requires IsDigits(s)
    ensures 0 <= Natural(s) < Pow10(|s|)
  {
    if s != "" {
      NaturalBound(s[1..]);
      ShiftGrows(0, Digit(s[0]), |s| - 1);
      ShiftGrows(Digit(s[0]), 9, |s| - 1);
      ShiftAdds(9, 1, |s| - 1);
      ShiftTen(1, |s| - 1);
    }
  }

  lemma {:induction false} NaturalPush(s: string, c: char)
    requires IsDigits(s) && IsDigit(c)
    ensures Natural(s + [c]) == 10 * Natural(s) + Digit(c)
  {
    if s == "" {
      assert "" + [c] == [c];
    } else {
      NaturalPush(s[1..], c);
      assert (s + [c])[1..] == s[1..] + [c];
    }
  }

  function TrimZeros(s: string): string { if s != "" && s[0] == '0' then TrimZeros(s[1..]) else s }

  lemma {:induction false} TrimmedValue(s: string)
    requires IsDigits(s)
    ensures IsDigits(TrimZeros(s)) && Natural(TrimZeros(s)) == Natural(s)
    ensures TrimZeros(s) == "" || TrimZeros(s)[0] != '0'
  {
    if s != "" && s[0] == '0' {
      TrimmedValue(s[1..]);
      ShiftGrows(0, 0, |s| - 1);
    }
  }

  /** Lexicographic order of text, as `str::cmp` and a binary text column use it. */
  function Lex(a: string, b: string): Ordering {
    if a == "" || b == "" then CompareInt(|a|, |b|)
    else if a[0] != b[0] then if a[0] < b[0] then Less else Greater
    else Lex(a[1..], b[1..])
  }

  /** Among digit runs of one length, text order is numeric order. */
  lemma {:induction false} LexIsNumeric(a: string, b: string)
    requires IsDigits(a) && IsDigits(b) && |a| == |b|
    ensures Lex(a, b) == CompareInt(Natural(a), Natural(b))
  {
    if a != "" {
      LexIsNumeric(a[1..], b[1..]);
      NaturalBound(a[1..]);
      NaturalBound(b[1..]);
      LeadingDigit(Digit(a[0]), Digit(b[0]), |a| - 1);
    }
  }

  lemma LeadingDigit(d: nat, e: nat, n: nat)
    ensures d < e ==> Shift(d, n) + Pow10(n) <= Shift(e, n)
    ensures d > e ==> Shift(e, n) + Pow10(n) <= Shift(d, n)
  {
    ShiftAdds(d, 1, n);
    ShiftAdds(e, 1, n);
    if d < e { ShiftGrows(d + 1, e, n); }
    if d > e { ShiftGrows(e + 1, d, n); }
  }

  lemma LeadingTerm(s: string)
    requires CanonicalNat(s) && s != "0"
    ensures Natural(s) >= Pow10(|s| - 1)
  {
    assert s == "0" || s[0] != '0';
    ShiftGrows(1, Digit(s[0]), |s| - 1);
    NaturalBound(s[1..]);
  }

  /** A canonical run with more digits is the larger number. */
  lemma LongerIsLarger(a: string, b: string)
    requires CanonicalNat(a) && CanonicalNat(b) && |a| < |b|
    ensures Natural(a) < Natural(b)
  {
    NaturalBound(a);
    Pow10Grows(|a|, |b| - 1);
    LeadingTerm(b);
  }

  lemma {:induction false} Pow10Grows(m: nat, n: nat)
    requires m <= n
    ensures 0 < Pow10(m) <= Pow10(n)
  {
    ShiftGrows(1, 1, m);
    if m < n { Pow10Grows(m, n - 1); }
  }

  function ByLengthThenText(a: string, b: string): Ordering {
    if |a| == |b| then Lex(a, b) else CompareInt(|a|, |b|)
  }

  lemma MagnitudeOrder(a: string, b: string)
    requires CanonicalNat(a) && CanonicalNat(b)
    ensures ByLengthThenText(a, b) == CompareInt(Natural(a), Natural(b))
  {
    if |a| == |b| {
      LexIsNumeric(a, b);
    } else if |a| < |b| {
      LongerIsLarger(a, b);
    } else {
      LongerIsLarger(b, a);
    }
  }

  lemma CanonicalSign(s: string)
    requires Canonical(s)
    ensures CanonicalNat(Magnitude(s))
    ensures Negative(s) ==> Value(s) < 0
    ensures !Negative(s) ==> Value(s) >= 0
  {
    NaturalBound(Magnitude(s));
    if Negative(s) {
      LeadingTerm(s[1..]);
      Pow10Grows(0, |s| - 2);
    }
  }

  /** `Step::cmp`. */
  function CompareStep(a: string, b: string): Ordering {
    if Negative(a) && Negative(b) then Reverse(ByLengthThenText(a[1..], b[1..]))
    else if Negative(a) then Less
    else if Negative(b) then Greater
    else ByLengthThenText(a, b)
  }

  lemma CompareStepIsNumeric(a: string, b: string)
    requires Canonical(a) && Canonical(b)
    ensures CompareStep(a, b) == CompareInt(Value(a), Value(b))
    ensures Value(a) == Value(b) <==> a == b
  {
    CanonicalSign(a);
    CanonicalSign(b);
    MagnitudeOrder(Magnitude(a), Magnitude(b));
    if Value(a) == Value(b) {
      LexEqual(Magnitude(a), Magnitude(b));
      if Negative(a) { assert a == "-" + a[1..] && b == "-" + b[1..]; }
    }
  }

  lemma {:induction false} LexEqual(a: string, b: string)
    requires Lex(a, b) == Equal
    ensures a == b
  {
    if a != "" && b != "" {
      LexEqual(a[1..], b[1..]);
      assert a == [a[0]] + a[1..] && b == [b[0]] + b[1..];
    }
  }

  // ---------------------------------------------------------------- addition

  /** Digits least significant first, the order in which a sum is produced. */
  function LowFirst(s: string): int
    requires IsDigits(s)
  {
    if s == "" then 0 else LowFirst(s[..|s| - 1]) + Shift(Digit(s[|s| - 1]), |s| - 1)
  }

  function Backwards(s: string): (r: string)
    ensures |r| == |s| && forall i :: 0 <= i < |s| ==> r[i] == s[|s| - 1 - i]
  {
    if s == "" then "" else [s[|s| - 1]] + Backwards(s[..|s| - 1])
  }

  lemma {:induction false} BackwardsValue(s: string)
    requires IsDigits(s)
    ensures IsDigits(Backwards(s)) && Natural(Backwards(s)) == LowFirst(s)
  {
    if s != "" {
      BackwardsValue(s[..|s| - 1]);
      assert Backwards(s)[1..] == Backwards(s[..|s| - 1]);
    }
  }

  function Tail(s: string, n: nat): string { if n <= |s| then s[|s| - n..] else s }

  function TailDigit(s: string, i: nat): (d: nat)
    requires IsDigits(s)
    ensures d <= 9
  {
    if i < |s| then Digit(s[|s| - 1 - i]) else 0
  }

  lemma TailGrows(s: string, i: nat)
    requires IsDigits(s)
    ensures Natural(Tail(s, i + 1)) == Natural(Tail(s, i)) + Shift(TailDigit(s, i), i)
  {
    ShiftGrows(0, 0, i);
    if i < |s| {
      assert Tail(s, i + 1)[1..] == Tail(s, i);
    }
  }

  function Signed(same: bool, n: int): int { if same then n else -n }

  /** The digit columns of `add_int`, least significant first, with a signed carry. */
  method AddColumns(big: string, small: string, same: bool) returns (out: string)
    requires CanonicalNat(big) && IsDigits(small) && |small| <= |big|
    requires same || Natural(small) <= Natural(big)
    ensures IsDigits(out) && out != ""
    ensures LowFirst(out) == Natural(big) + Signed(same, Natural(small))
  {
    hide Shift, Natural, LowFirst, Tail, TailDigit, Digit;
    var carry := 0;
    out := "";
    var i := 0;
    NoColumns(big, small, same);
    while i < |big|
      invariant 0 <= i <= |big| && |out| == i
      invariant IsDigits(out)
      invariant if same then 0 <= carry <= 1 else -1 <= carry <= 0
      invariant Columns(big, small, same, i, LowFirst(out), carry)
    {
      var right: int := TailDigit(small, i);
      var column := TailDigit(big, i) + carry + (if same then right else -right);
      var digit := if column < 0 then column + 10 else column % 10;
      var next := if column < 0 then -1 else column / 10;
      AddColumn(big, small, same, i, LowFirst(out), carry, digit, next);
      LowFirstPush(out, digit);
      out := out + [DigitChar(digit)];
      carry := next;
      i := i + 1;
    }
    AllColumns(big, small);
    NaturalBound(big);
    NaturalBound(small);
    LowFirstBound(out);
    ShiftGrows(0, 0, |big|);
    if carry > 0 {
      LowFirstPush(out, carry);
      out := out + [DigitChar(carry)];
    } else if carry < 0 {
      ShiftAdds(-1, 1, |big|);
      assert false;
    }
  }

  lemma NoColumns(big: string, small: string, same: bool)
    requires IsDigits(big) && IsDigits(small)
    ensures Columns(big, small, same, 0, LowFirst(""), 0)
  {
    assert Tail(big, 0) == "" && Tail(small, 0) == "";
  }

  lemma AllColumns(big: string, small: string)
    requires |small| <= |big|
    ensures Tail(big, |big|) == big && Tail(small, |big|) == small
  {
  }

  /** The sum of the columns below `i`: what has been emitted, plus the carry. */
  predicate Columns(big: string, small: string, same: bool, i: nat, low: int, carry: int)
    requires IsDigits(big) && IsDigits(small)
  {
    Natural(Tail(big, i)) + Signed(same, Natural(Tail(small, i))) == low + Shift(carry, i)
  }

  lemma AddColumn(big: string, small: string, same: bool, i: nat, low: int, carry: int, digit: int, next: int)
    requires IsDigits(big) && IsDigits(small)
    requires TailDigit(big, i) + carry + Signed(same, TailDigit(small, i)) == digit + 10 * next
    requires Columns(big, small, same, i, low, carry)
    ensures Columns(big, small, same, i + 1, low + Shift(digit, i), next)
  {
    hide Shift, Natural, Tail, TailDigit, Digit, IsDigits;
    var d, f: int := TailDigit(big, i), TailDigit(small, i);
    var e := Signed(same, f);
    TailGrows(big, i);
    TailGrows(small, i);
    ShiftAdds(f, -f, i);
    ShiftAdds(d, carry, i);
    ShiftAdds(d + carry, e, i);
    ShiftTen(next, i);
    ShiftAdds(digit, 10 * next, i);
    ShiftGrows(0, 0, i);
  }

  lemma LowFirstPush(s: string, d: nat)
    requires IsDigits(s) && d < 10
    ensures IsDigits(s + [DigitChar(d)])
    ensures LowFirst(s + [DigitChar(d)]) == LowFirst(s) + Shift(d, |s|)
  {
    hide Shift, DigitChar, LowFirst;
    DigitOfChar(d);
    LowFirstMore(s, DigitChar(d));
  }

  lemma DigitOfChar(d: nat)
    requires d < 10
    ensures IsDigit(DigitChar(d)) && Digit(DigitChar(d)) == d
  {
  }

  lemma LowFirstMore(s: string, c: char)
    requires IsDigits(s) && IsDigit(c)
    ensures IsDigits(s + [c]) && LowFirst(s + [c]) == LowFirst(s) + Shift(Digit(c), |s|)
  {
    hide Shift, Digit;
    assert (s + [c])[..|s|] == s && (s + [c])[|s|] == c;
  }

  lemma LowFirstBound(s: string)
    requires IsDigits(s)
    ensures 0 <= LowFirst(s) < Pow10(|s|)
  {
    BackwardsValue(s);
    NaturalBound(Backwards(s));
  }

  /** `add_int`. */
  method AddInt(a: string, b: string) returns (sum: string)
    requires Canonical(a) && Canonical(b)
    ensures Canonical(sum)
    ensures Value(sum) == Value(a) + Value(b)
  {
    CanonicalSign(a);
    CanonicalSign(b);
    var x, y := Magnitude(a), Magnitude(b);
    MagnitudeOrder(x, y);
    var less := ByLengthThenText(x, y) == Less;
    var big, small := if less then y else x, if less then x else y;
    var negative := if less then Negative(b) else Negative(a);
    var out := AddColumns(big, small, Negative(a) == Negative(b));
    ghost var total := LowFirst(out);
    while |out| > 1 && out[|out| - 1] == '0'
      invariant IsDigits(out) && out != "" && LowFirst(out) == total
    {
      ShiftGrows(0, 0, |out| - 1);
      out := out[..|out| - 1];
    }
    BackwardsValue(out);
    sum := Backwards(out);
    Zero(sum);
    if negative && out != "0" {
      sum := "-" + sum;
      assert sum[1..] == Backwards(out);
    }
    assert out == "0" <==> Backwards(out) == "0";
  }

  lemma Zero(s: string)
    requires CanonicalNat(s)
    ensures s == "0" <==> Natural(s) == 0
  {
    if s == "0" {
      assert s[1..] == "";
    } else {
      LeadingTerm(s);
      Pow10Grows(0, |s| - 1);
    }
  }

  /** `Step::next` moves strictly up, by exactly one. */
  method NextStep(s: string) returns (r: string)
    requires Canonical(s)
    ensures Canonical(r) && Value(r) == Value(s) + 1 && CompareStep(s, r) == Less
  {
    assert Value("1") == 1 by { assert "1"[1..] == ""; }
    r := AddInt(s, "1");
    CompareStepIsNumeric(s, r);
  }

  // ---------------------------------------------------------------- sort key

  const U64_MAX: nat := 0xFFFF_FFFF_FFFF_FFFF

  /** `{:0w}` formatting. */
  function Padded(n: nat, width: nat): (s: string)
    ensures IsDigits(s) && |s| == width
  {
    if width == 0 then "" else Padded(n / 10, width - 1) + [DigitChar(n % 10)]
  }

  lemma {:induction false} PaddedValue(n: nat, width: nat)
    requires n < Pow10(width)
    ensures Natural(Padded(n, width)) == n
  {
    if width > 0 {
      PaddedValue(n / 10, width - 1);
      NaturalPush(Padded(n / 10, width - 1), DigitChar(n % 10));
    }
  }

  function Inverse(s: string): (r: string)
    requires IsDigits(s)
    ensures IsDigits(r) && |r| == |s|
  {
    if s == "" then "" else [DigitChar(9 - Digit(s[0]))] + Inverse(s[1..])
  }

  lemma {:induction false} InverseReverses(a: string, b: string)
    requires IsDigits(a) && IsDigits(b) && |a| == |b|
    ensures Lex(Inverse(a), Inverse(b)) == Reverse(Lex(a, b))
  {
    if a != "" {
      InverseReverses(a[1..], b[1..]);
      assert Inverse(a)[1..] == Inverse(a[1..]) && Inverse(b)[1..] == Inverse(b[1..]);
    }
  }

  lemma {:induction false} LexConcat(a: string, x: string, b: string, y: string)
    requires |a| == |b|
    ensures Lex(a + x, b + y) == if Lex(a, b) == Equal then Lex(x, y) else Lex(a, b)
  {
    if a == "" {
      assert a + x == x && b + y == y;
    } else {
      LexConcat(a[1..], x, b[1..], y);
      assert (a + x)[1..] == a[1..] + x && (b + y)[1..] == b[1..] + y;
    }
  }

  /** `step_key`: the text under which the viewer's table sorts a step. */
  function SortKey(s: string): string
    requires Canonical(s) && |s| <= U64_MAX
  {
    if Negative(s) then "0" + (Padded(U64_MAX - |s[1..]|, 20) + Inverse(s[1..]))
    else "1" + (Padded(|s|, 20) + s)
  }

  lemma PaddedOrder(m: nat, n: nat)
    requires m <= U64_MAX && n <= U64_MAX
    ensures Lex(Padded(m, 20), Padded(n, 20)) == CompareInt(m, n)
  {
    assert U64_MAX < Pow10(20) by {
      assert Shift(1, 5) == 100000;
      assert Shift(1, 10) == 10000000000;
      assert Shift(1, 15) == 1000000000000000;
      assert Shift(1, 20) == 100000000000000000000;
    }
    PaddedValue(m, 20);
    PaddedValue(n, 20);
    LexIsNumeric(Padded(m, 20), Padded(n, 20));
  }

  lemma LengthPrefixed(m: nat, x: string, n: nat, y: string)
    requires m <= U64_MAX && n <= U64_MAX
    ensures Lex(Padded(m, 20) + x, Padded(n, 20) + y) == if m == n then Lex(x, y) else CompareInt(m, n)
  {
    PaddedOrder(m, n);
    LexConcat(Padded(m, 20), x, Padded(n, 20), y);
  }

  /** Text order of the keys is numeric order of the steps, for all signs and lengths,
      and every key sorts below the upper sentinel "2". */
  lemma SortKeyIsNumeric(a: string, b: string)
    requires Canonical(a) && Canonical(b) && |a| <= U64_MAX && |b| <= U64_MAX
    ensures Lex(SortKey(a), SortKey(b)) == CompareInt(Value(a), Value(b))
    ensures Lex(SortKey(a), "2") == Less
  {
    hide Natural, Padded, Inverse, Value, Canonical;
    assert Canonical(a) && Canonical(b);
    CompareStepIsNumeric(a, b);
    var x, y := Magnitude(a), Magnitude(b);
    if Negative(a) != Negative(b) {
      CanonicalSign(a);
      CanonicalSign(b);
    } else if Negative(a) {
      CanonicalSign(a);
      CanonicalSign(b);
      LengthPrefixed(U64_MAX - |x|, Inverse(x), U64_MAX - |y|, Inverse(y));
      if |x| == |y| { InverseReverses(x, y); }
      SameLead("0", Padded(U64_MAX - |x|, 20) + Inverse(x), Padded(U64_MAX - |y|, 20) + Inverse(y));
    } else {
      LengthPrefixed(|a|, a, |b|, b);
      SameLead("1", Padded(|a|, 20) + a, Padded(|b|, 20) + b);
    }
  }

  lemma SameLead(c: string, x: string, y: string)
    requires |c| == 1
    ensures Lex(c + x, c + y) == Lex(x, y)
  {
    assert (c + x)[1..] == x && (c + y)[1..] == y;
  }
}
