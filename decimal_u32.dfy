/** Rust's `u32::from_str`: the base-10 parse that `parse_events` runs on
    the raw `events` value. The parse itself (`FromStr`, over `Accumulate`)
    follows the standard library's digit loop, with its checked
    multiplication and addition; `IsU32Literal` and `LiteralValue` are an
    independent statement of which strings denote a `u32` and which one. */
module DecimalU32 {
  import opened Wrappers
  import opened Uint32

  predicate IsDigit(c: char) {
    '0' <= c <= '9'
  }

  function DigitValue(c: char): (d: nat)
    requires IsDigit(c)
    ensures d < 10
  {
    (c as int) - ('0' as int)
  }

  function DigitChar(d: nat): (c: char)
    requires d < 10
    ensures IsDigit(c) && DigitValue(c) == d
  {
    (('0' as int) + d) as char
  }

  predicate AllDigits(ds: string) {
    forall i :: 0 <= i < |ds| ==> IsDigit(ds[i])
  }

  function Pow10(k: nat): (p: nat)
    ensures p >= 1
  {
    if k == 0 then 1 else 10 * Pow10(k - 1)
  }

  /** Positional value of a digit string, most significant digit first. */
  function DigitsValue(ds: string): nat
    requires AllDigits(ds)
    decreases |ds|
  {
    if ds == [] then 0 else DigitsValue(ds[..|ds| - 1]) * 10 + DigitValue(ds[|ds| - 1])
  }

  // ---------------------------------------------------------------------
  // Reference: which strings denote a u32
  // ---------------------------------------------------------------------

  /** A non-empty run of decimal digits (leading zeros allowed) whose value fits in a u32. */
  predicate IsDecimal(ds: string) {
    |ds| > 0 && AllDigits(ds) && DigitsValue(ds) <= U32_MAX
  }

  /** Digits, optionally preceded by one `+`. No `-` (the type is unsigned),
      no whitespace, no other prefix. */
  predicate IsU32Literal(s: string) {
    IsDecimal(s) || (|s| > 0 && s[0] == '+' && IsDecimal(s[1..]))
  }

  function LiteralValue(s: string): U32
    requires IsU32Literal(s)
  {
    if IsDecimal(s) then DigitsValue(s) else DigitsValue(s[1..])
  }

  // ---------------------------------------------------------------------
  // The parse
  // ---------------------------------------------------------------------

  /** The digit loop: per character, reject a non-digit, then multiply the
      accumulator by ten and add the digit, rejecting either step when it
      would leave the u32 range. */
  function Accumulate(acc: U32, ds: string): Option<U32>
    decreases |ds|
  {
    if ds == [] then Some(acc)
    else if !IsDigit(ds[0]) then None
    else if acc * 10 > U32_MAX then None
    else if acc * 10 + DigitValue(ds[0]) > U32_MAX then None
    else Accumulate(acc * 10 + DigitValue(ds[0]), ds[1..])
  }

  /** `u32::from_str`: the empty string and a lone sign are errors; a single
      leading `+` is skipped; what remains goes through the digit loop. The
      error kinds (empty, invalid digit, overflow) are collapsed into `None`,
      as the only caller discards them with `.ok()`. */
  function FromStr(s: string): (r: Option<U32>)
    ensures r.Some? <==> IsU32Literal(s)
    ensures r.Some? ==> r.value == LiteralValue(s)
  {
    if s == [] then None
    else
      var digits := if s[0] == '+' then s[1..] else s;
      if digits == [] then None
      else
        AccumulateMeansValue(0, digits);
        Accumulate(0, digits)
  }

  // ---------------------------------------------------------------------
  // Lemmas
  // ---------------------------------------------------------------------

  lemma MulAtLeast(a: nat, p: nat)
    requires p >= 1
    ensures a * p >= a
  {
  }

  lemma Regroup(acc: nat, d: nat, p: nat, v: nat)
    ensures acc * (10 * p) + (d * p + v) == (acc * 10 + d) * p + v
  {
  }

  lemma ShiftDigit(d: nat, q: nat, v: nat, e: nat)
    ensures (d * q + v) * 10 + e == d * (10 * q) + (v * 10 + e)
  {
  }

  /** Peeling the most significant digit. */
  lemma {:induction false} DigitsValueHead(ds: string)
    requires |ds| > 0 && AllDigits(ds)
    ensures AllDigits(ds[1..])
    ensures DigitsValue(ds) == DigitValue(ds[0]) * Pow10(|ds| - 1) + DigitsValue(ds[1..])
  {
    assert forall i :: 0 <= i < |ds| - 1 ==> ds[1..][i] == ds[i + 1];
    if |ds| > 1 {
      var init := ds[..|ds| - 1];
      assert forall i :: 0 <= i < |init| ==> init[i] == ds[i];
      DigitsValueHead(init);
      assert init[1..] == ds[1..][..|ds| - 2];
      assert ds[1..][|ds| - 2] == ds[|ds| - 1];
      var d, q := DigitValue(ds[0]), Pow10(|ds| - 2);
      assert Pow10(|ds| - 1) == 10 * q;
      ShiftDigit(d, q, DigitsValue(init[1..]), DigitValue(ds[|ds| - 1]));
    }
  }

  /** The accumulator can be continued exactly when every remaining character
      is a digit and the final value `acc * 10^|ds| + value(ds)` fits. */
  ghost predicate Fits(acc: U32, ds: string) {
    AllDigits(ds) && acc * Pow10(|ds|) + DigitsValue(ds) <= U32_MAX
  }

  /** Rejecting as soon as a partial value overflows loses nothing: the loop
      accepts exactly the digit strings whose whole value fits, and returns
      that value. */
  lemma {:induction false} AccumulateMeansValue(acc: U32, ds: string)
    ensures Accumulate(acc, ds) == if Fits(acc, ds) then Some(acc * Pow10(|ds|) + DigitsValue(ds)) else None
    decreases |ds|
  {
    if ds != [] {
      if !IsDigit(ds[0]) {
        assert !AllDigits(ds);
      } else {
        var d := DigitValue(ds[0]);
        var rest := ds[1..];
        assert AllDigits(ds) <==> AllDigits(rest) by {
          assert forall i :: 0 <= i < |rest| ==> rest[i] == ds[i + 1];
        }
        if AllDigits(ds) {
          var p := Pow10(|rest|);
          var total := acc * Pow10(|ds|) + DigitsValue(ds);
          DigitsValueHead(ds);
          assert Pow10(|ds|) == 10 * p;
          Regroup(acc, d, p, DigitsValue(rest));
          assert total == (acc * 10 + d) * p + DigitsValue(rest);
          MulAtLeast(acc * 10 + d, p);
          assert total >= acc * 10 + d;
        }
        if acc * 10 <= U32_MAX && acc * 10 + d <= U32_MAX {
          AccumulateMeansValue(acc * 10 + d, rest);
        }
      }
    }
  }

  // ---------------------------------------------------------------------
  // Spelling a number, and the round trip
  // ---------------------------------------------------------------------

  /** The shortest decimal spelling of `n` (no sign, no leading zeros). */
  function Decimal(n: nat): (ds: string)
    ensures |ds| > 0 && AllDigits(ds) && DigitsValue(ds) == n
  {
    if n < 10 then [DigitChar(n)]
    else
      var init := Decimal(n / 10);
      var ds := init + [DigitChar(n % 10)];
      assert ds[..|ds| - 1] == init;
      ds
  }

  /** Every u32 value is parsed back from its spelling, with or without `+`. */
  lemma FromStrDecimal(n: U32)
    ensures FromStr(Decimal(n)) == Some(n)
    ensures FromStr("+" + Decimal(n)) == Some(n)
  {
  }

  /** A spelled number beyond 4294967295 is rejected, whatever its sign prefix. */
  lemma FromStrOverflow(n: nat)
    requires n > U32_MAX
    ensures FromStr(Decimal(n)) == None
    ensures FromStr("+" + Decimal(n)) == None
  {
  }

  /** What the parse rejects outright: the empty string, a lone sign, a minus
      sign, a second `+`, surrounding whitespace and non-digits. */
  lemma FromStrRejects(ds: string)
    requires |ds| > 0 && AllDigits(ds)
    ensures FromStr("") == None && FromStr("+") == None && FromStr("-") == None
    ensures FromStr("-" + ds) == None
    ensures FromStr("++" + ds) == None
    ensures FromStr(" " + ds) == None && FromStr(ds + " ") == None
    ensures FromStr("abc") == None
  {
  }
}
