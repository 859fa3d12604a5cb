/** Decimal text and Rust's `u32`: `str::parse::<u32>()` and the `{}`
    formatting of a `u32`. */
module Decimal {
  import opened Results

  const U32_MAX: nat := 0xFFFF_FFFF

  /** Rust's `u32`. */
  type U32 = n: nat | n <= U32_MAX

  predicate IsDigit(c: char) {
    '0' <= c && c <= '9'
  }

  function DigitValue(c: char): (d: nat)
    requires IsDigit(c)
    ensures d < 10
  {
    (c as int) - ('0' as int)
  }

  function DigitChar(d: nat): (c: char)
    requires d < 10
    ensures IsDigit(c) && DigitValue(c) == d
  {
    (('0' as int) + d) as char
  }

  predicate AllDigits(s: string) {
    forall i :: 0 <= i < |s| ==> IsDigit(s[i])
  }

  /** The number a string of decimal digits denotes, most significant digit first. */
  function DigitsValue(ds: string): nat
    requires AllDigits(ds)
    decreases |ds|
  {
    if ds == [] then 0 else 10 * DigitsValue(ds[..|ds| - 1]) + DigitValue(ds[|ds| - 1])
  }

  /** The digit part of a `u32` literal: one leading `+` is allowed and skipped. */
  function Unsigned(s: string): string {
    if |s| > 0 && s[0] == '+' then s[1..] else s
  }

  /** The texts `u32::from_str` accepts: an optional `+`, then one or more
      ASCII digits whose value fits in 32 bits (leading zeros allowed). */
  predicate IsU32Text(s: string) {
    && |Unsigned(s)| > 0
    && AllDigits(Unsigned(s))
    && DigitsValue(Unsigned(s)) <= U32_MAX
  }

  /** The digit loop of `u32::from_str`: fold the digits into `acc`, failing
      on a non-digit, on an overflowing `checked_mul(10)` and on an
      overflowing `checked_add(digit)`. */
  function Accumulate(ds: string, acc: U32): Option<U32>
    decreases |ds|
  {
    if ds == [] then Some(acc)
    else if !IsDigit(ds[0]) then None
    else if acc * 10 > U32_MAX then None
    else if acc * 10 + DigitValue(ds[0]) > U32_MAX then None
    else Accumulate(ds[1..], acc * 10 + DigitValue(ds[0]))
  }

  /** `s.parse::<u32>().ok()`: the empty string and a lone sign are
      rejected, one leading `+` is skipped, and the rest must be digits
      whose value fits in 32 bits. */
  function ParseU32(s: string): (r: Option<U32>)
    ensures r.Some? <==> IsU32Text(s)
    ensures r.Some? ==> r.value == DigitsValue(Unsigned(s))
  {
    AccumulateMeaning([], Unsigned(s));
    assert [] + Unsigned(s) == Unsigned(s);
    if s == [] then None
    else if (s[0] == '+' || s[0] == '-') && |s| == 1 then None
    else Accumulate(Unsigned(s), 0)
  }

  /** Extending a digit string never decreases its value. */
  lemma {:induction false} DigitsValueMonotone(p: string, q: string)
    requires AllDigits(p) && AllDigits(q)
    ensures AllDigits(p + q)
    ensures DigitsValue(p) <= DigitsValue(p + q)
    decreases |q|
  {
    assert AllDigits(p + q) by {
      forall i | 0 <= i < |p + q| ensures IsDigit((p + q)[i]) {
        if i < |p| { assert (p + q)[i] == p[i]; } else { assert (p + q)[i] == q[i - |p|]; }
      }
    }
    if q != [] {
      var q' := q[..|q| - 1];
      assert (p + q)[..|p + q| - 1] == p + q';
      DigitsValueMonotone(p, q');
    } else {
      assert p + q == p;
    }
  }

  /** Appending one digit multiplies the value by ten and adds the digit. */
  lemma DigitsValueSnoc(p: string, c: char)
    requires AllDigits(p) && IsDigit(c)
    ensures AllDigits(p + [c])
    ensures DigitsValue(p + [c]) == 10 * DigitsValue(p) + DigitValue(c)
  {
    assert (p + [c])[..|p + [c]| - 1] == p;
  }

  /** The checked digit loop, started on the value of digits already read,
      succeeds exactly when the remaining text is all digits and the whole
      value fits in 32 bits; overflow on the way is overflow at the end,
      because the running value only grows. */
  lemma {:induction false} AccumulateMeaning(pre: string, rest: string)
    requires AllDigits(pre) && DigitsValue(pre) <= U32_MAX
    ensures Accumulate(rest, DigitsValue(pre)).Some? <==>
              AllDigits(rest) && DigitsValue(pre + rest) <= U32_MAX
    ensures Accumulate(rest, DigitsValue(pre)).Some? ==>
              Accumulate(rest, DigitsValue(pre)).value == DigitsValue(pre + rest)
    decreases |rest|
  {
    if rest == [] {
      assert pre + rest == pre;
    } else if IsDigit(rest[0]) {
      var c := rest[0];
      var acc := DigitsValue(pre);
      DigitsValueSnoc(pre, c);
      assert pre + rest == (pre + [c]) + rest[1..];
      if AllDigits(rest[1..]) {
        DigitsValueMonotone(pre + [c], rest[1..]);
      }
      if acc * 10 + DigitValue(c) <= U32_MAX {
        AccumulateMeaning(pre + [c], rest[1..]);
      } else if AllDigits(rest) {
        assert AllDigits(rest[1..]) by {
          forall i | 0 <= i < |rest[1..]| ensures IsDigit(rest[1..][i]) { assert rest[1..][i] == rest[i + 1]; }
        }
      }
    } else {
      assert !IsDigit(rest[0]);
    }
  }

  /** `format!("{}", n)`: the shortest decimal digit string denoting `n`. */
  function ToDecimal(n: nat): (s: string)
    ensures |s| >= 1 && AllDigits(s)
    ensures DigitsValue(s) == n
    ensures s[0] == '0' ==> s == "0"
    decreases n
  {
    if n < 10 then [DigitChar(n)]
    else
      var front := ToDecimal(n / 10);
      DigitsValueSnoc(front, DigitChar(n % 10));
      front + [DigitChar(n % 10)]
  }

  /** Formatting a `u32` and parsing it back gives the same number. */
  lemma ParseToDecimal(n: U32)
    ensures ParseU32(ToDecimal(n)) == Some(n)
  {
    assert Unsigned(ToDecimal(n)) == ToDecimal(n);
  }

  /** `u32::from_str` also accepts the formatted number behind a `+`. */
  lemma ParsePlusToDecimal(n: U32)
    ensures ParseU32("+" + ToDecimal(n)) == Some(n)
  {
    assert Unsigned("+" + ToDecimal(n)) == ToDecimal(n);
  }

  /** Values beyond 32 bits are refused rather than wrapped. */
  lemma ParseRejectsOverflow(n: nat)
    requires n > U32_MAX
    ensures ParseU32(ToDecimal(n)) == None
  {
    assert Unsigned(ToDecimal(n)) == ToDecimal(n);
  }
}
