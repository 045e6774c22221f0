/** Rust's `usize::from_str` (`str::parse::<usize>`) for the 64-bit targets the scraper is
    built for, and the decimal rendering it inverts. */
module UsizeParse {
  import opened Outcomes

  /** The largest `usize` on a 64-bit target. */
  const USIZE_MAX: nat := 0xFFFF_FFFF_FFFF_FFFF

  predicate IsDigit(c: char) {
    '0' <= c <= '9'
  }

  predicate AllDigits(s: string) {
    forall i :: 0 <= i < |s| ==> IsDigit(s[i])
  }

  function DigitValue(c: char): nat
    requires IsDigit(c)
  {
    c as int - '0' as int
  }

  /** The positional value of a decimal digit string, most significant digit first. */
  function DecimalValue(ds: string): nat
    requires AllDigits(ds)
  {
    if |ds| == 0 then 0
    else DecimalValue(ds[..|ds| - 1]) * 10 + DigitValue(ds[|ds| - 1])
  }

  /** The digits of an unsigned integer literal: one leading '+' is allowed and dropped. */
  function Unsigned(s: string): string {
    if 0 < |s| && s[0] == '+' then s[1..] else s
  }

  /** The parser's digit loop: left to right, the accumulator is multiplied by ten and the
      next digit added. A character that is not a digit stops it with InvalidDigit; a step
      whose result would exceed USIZE_MAX stops it with PosOverflow. At one position the
      digit is checked before the overflow. */
  function Accumulate(digits: string, acc: nat): (r: Result<nat, IntErrorKind>)
    requires acc <= USIZE_MAX
    ensures r != Err(Empty)
  {
    if |digits| == 0 then Ok(acc)
    else if !IsDigit(digits[0]) then Err(InvalidDigit)
    else
      var next := acc * 10 + DigitValue(digits[0]);
      if next > USIZE_MAX then Err(PosOverflow) else Accumulate(digits[1..], next)
  }

  /** The integer parser: the empty string is Empty, a lone sign is InvalidDigit, and
      otherwise the digits after the optional '+' go through the digit loop. */
  function ParseUsize(s: string): (r: Result<nat, IntErrorKind>)
    ensures r == Err(Empty) <==> |s| == 0
    ensures r.Ok? <==> 0 < |Unsigned(s)| && AllDigits(Unsigned(s)) && DecimalValue(Unsigned(s)) <= USIZE_MAX
    ensures r.Ok? ==> r.value == DecimalValue(Unsigned(s)) <= USIZE_MAX
    ensures r == Err(PosOverflow) <==> OverflowingPrefix(Unsigned(s))
  {
    if |s| == 0 then Err(Empty)
    else if s[0] == '+' && |s| == 1 then Err(InvalidDigit)
    else
      var ds := Unsigned(s);
      AccumulateValue("", ds);
      AccumulateOverflow("", ds);
      assert "" + ds == ds;
      Accumulate(ds, 0)
  }

  /** Some non-empty run of digits at the start of `ds` already exceeds USIZE_MAX. */
  predicate OverflowingPrefix(ds: string) {
    OverflowsAfter("", ds)
  }

  /** Appending digits never decreases the value. */
  lemma {:induction false} DecimalValueMonotone(p: string, q: string)
    requires AllDigits(p) && AllDigits(q)
    ensures AllDigits(p + q)
    ensures DecimalValue(p + q) >= DecimalValue(p)
  {
    assert AllDigits(p + q) by {
      forall i | 0 <= i < |p + q| ensures IsDigit((p + q)[i]) {
        if i >= |p| { assert (p + q)[i] == q[i - |p|]; }
      }
    }
    if |q| == 0 {
      assert p + q == p;
    } else {
      var q' := q[..|q| - 1];
      assert (p + q)[..|p + q| - 1] == p + q';
      DecimalValueMonotone(p, q');
    }
  }

  /** Reading the digits `p` and then some non-empty run of digits at the start of `ds`
      gives a value above USIZE_MAX. */
  predicate OverflowsAfter(p: string, ds: string)
    requires AllDigits(p)
  {
    exists k :: 0 < k <= |ds| && AllDigits(ds[..k]) && DecimalValue(p + ds[..k]) > USIZE_MAX
  }

  /** One step of the digit loop: reading `ds[0]` moves it from `p` to the digits read. */
  lemma DigitStep(p: string, ds: string)
    requires AllDigits(p) && 0 < |ds| && IsDigit(ds[0])
    ensures AllDigits(p + [ds[0]])
    ensures DecimalValue(p + [ds[0]]) == DecimalValue(p) * 10 + DigitValue(ds[0])
    ensures (p + [ds[0]]) + ds[1..] == p + ds
    ensures AllDigits(ds) <==> AllDigits(ds[1..])
    ensures OverflowsAfter(p, ds) <==> DecimalValue(p + [ds[0]]) > USIZE_MAX || OverflowsAfter(p + [ds[0]], ds[1..])
  {
    var p', rest := p + [ds[0]], ds[1..];
    assert p'[..|p'| - 1] == p;
    assert p' + rest == p + ds;
    assert ds == [ds[0]] + rest;
    forall k | 0 < k <= |rest|
      ensures AllDigits(rest[..k]) <==> AllDigits(ds[..k + 1])
      ensures p' + rest[..k] == p + ds[..k + 1]
    {
      assert ds[..k + 1] == [ds[0]] + rest[..k];
    }
    assert ds[..1] == [ds[0]] && p + ds[..1] == p';
    if OverflowsAfter(p, ds) {
      var k :| 0 < k <= |ds| && AllDigits(ds[..k]) && DecimalValue(p + ds[..k]) > USIZE_MAX;
      if k > 1 {
        assert 0 < k - 1 <= |rest| && AllDigits(rest[..k - 1]) && DecimalValue(p' + rest[..k - 1]) > USIZE_MAX;
      }
    }
    if OverflowsAfter(p', rest) {
      var k :| 0 < k <= |rest| && AllDigits(rest[..k]) && DecimalValue(p' + rest[..k]) > USIZE_MAX;
      assert 0 < k + 1 <= |ds| && AllDigits(ds[..k + 1]) && DecimalValue(p + ds[..k + 1]) > USIZE_MAX;
    }
  }

  /** The digit loop, started with the value of the digits `p` already read, succeeds
      exactly when the rest is all digits and `p + ds` fits, with the value of `p + ds`. */
  lemma {:induction false} AccumulateValue(p: string, ds: string)
    requires AllDigits(p) && DecimalValue(p) <= USIZE_MAX
    ensures AllDigits(ds) ==> AllDigits(p + ds)
    ensures Accumulate(ds, DecimalValue(p)).Ok? <==> AllDigits(ds) && DecimalValue(p + ds) <= USIZE_MAX
    ensures Accumulate(ds, DecimalValue(p)).Ok? ==> Accumulate(ds, DecimalValue(p)).value == DecimalValue(p + ds)
    decreases |ds|
  {
    if |ds| == 0 {
      assert p + ds == p;
    } else if IsDigit(ds[0]) {
      var p' := p + [ds[0]];
      DigitStep(p, ds);
      if AllDigits(ds) {
        DecimalValueMonotone(p', ds[1..]);
      }
      if DecimalValue(p') <= USIZE_MAX {
        AccumulateValue(p', ds[1..]);
      }
    }
  }

  /** The digit loop stops with PosOverflow exactly when some prefix of the digits overflows
      before any non-digit is reached. */
  lemma {:induction false} AccumulateOverflow(p: string, ds: string)
    requires AllDigits(p) && DecimalValue(p) <= USIZE_MAX
    ensures Accumulate(ds, DecimalValue(p)) == Err(PosOverflow) <==> OverflowsAfter(p, ds)
    decreases |ds|
  {
    if |ds| == 0 {
    } else if !IsDigit(ds[0]) {
      forall k | 0 < k <= |ds| ensures !AllDigits(ds[..k]) {
        assert ds[..k][0] == ds[0];
      }
    } else {
      var p' := p + [ds[0]];
      DigitStep(p, ds);
      if DecimalValue(p') <= USIZE_MAX {
        AccumulateOverflow(p', ds[1..]);
      }
    }
  }

  /** The decimal rendering of `n` (Rust's `Display` for integers): no sign and no leading
      zero. */
  function Decimal(n: nat): (s: string)
    ensures 0 < |s| && AllDigits(s)
    ensures DecimalValue(s) == n
    ensures s[0] != '0' || n == 0
  {
    var c := ('0' as int + n % 10) as char;
    if n < 10 then [c]
    else
      var high := Decimal(n / 10);
      assert (high + [c])[..|high|] == high;
      high + [c]
  }

  /** Parsing a rendered count gives the count back, with or without a '+' sign. */
  lemma ParseUsizeRoundTrip(n: nat)
    requires n <= USIZE_MAX
    ensures ParseUsize(Decimal(n)) == Ok(n)
    ensures ParseUsize("+" + Decimal(n)) == Ok(n)
  {
  }

  /** A digit string without a leading zero is the rendering of its value, so the
      rendering and the parser are inverse on canonical numerals. */
  lemma {:induction false} DecimalOfValue(ds: string)
    requires 0 < |ds| && AllDigits(ds)
    requires ds[0] != '0' || |ds| == 1
    ensures Decimal(DecimalValue(ds)) == ds
  {
    var n := DecimalValue(ds);
    if |ds| == 1 {
      assert ds[..0] == "";
      assert DecimalValue(ds[..0]) == 0;
      assert n == DigitValue(ds[0]) < 10;
      assert ('0' as int + n % 10) as char == ds[0];
    } else {
      var high := ds[..|ds| - 1];
      assert AllDigits(high);
      assert high[0] == ds[0];
      assert DecimalValue(high) > 0 by {
        DecimalValueMonotone([ds[0]], high[1..]);
        assert [ds[0]] + high[1..] == high;
        assert [ds[0]][..0] == "";
      }
      DecimalOfValue(high);
      assert n / 10 == DecimalValue(high) && n % 10 == DigitValue(ds[|ds| - 1]);
    }
  }

  lemma ParseUsizeExamples()
    ensures ParseUsize("123") == Ok(123)
    ensures ParseUsize("+7") == Ok(7)
    ensures ParseUsize("1,234") == Err(InvalidDigit)
    ensures ParseUsize("") == Err(Empty)
    ensures ParseUsize("+") == Err(InvalidDigit)
    ensures ParseUsize("-1") == Err(InvalidDigit)
  {
    assert "123"[..2] == "12" && "12"[..1] == "1" && "1"[..0] == "";
    assert Unsigned("+7") == "7" && "7"[..0] == "";
    assert "1,234"[1..] == ",234";
  }
}
