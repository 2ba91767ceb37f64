/**
 * Six-digit PINs (backend/utils/pin.go): the validity test and the
 * arithmetic of the generator, with the random draw as an input.
 */
module Pin {
  import opened Wrappers
  import opened Strs

  const PinLength := 6
  const DrawBound := 900000
  const Offset := 100000

  /** A valid PIN: six characters, every one of them a decimal digit. */
  predicate IsPIN(pin: string)
  {
    |pin| == PinLength && AllDigits(pin)
  }

  /** `ValidatePIN`. */
  method ValidatePIN(pin: string) returns (ok: bool)
    ensures ok <==> IsPIN(pin)
  {
    if |pin| != PinLength {
      return false;
    }
    var i := 0;
    while i < |pin|
      invariant 0 <= i <= |pin|
      invariant forall k :: 0 <= k < i ==> IsDigit(pin[k])
    {
      if pin[i] < '0' || pin[i] > '9' {
        return false;
      }
      i := i + 1;
    }
    return true;
  }

  function Pow10(k: nat): (p: nat)
    ensures p >= 1
  {
    if k == 0 then 1 else 10 * Pow10(k - 1)
  }

  /** A number with `k` decimal digits is written with `k` characters. */
  lemma {:induction false} NatToStringLength(n: nat, k: nat)
    requires k >= 1 && Pow10(k - 1) <= n < Pow10(k)
    ensures |NatToString(n)| == k
  {
    if k > 1 {
      assert n >= 10;
      assert Pow10(k - 2) <= n / 10 < Pow10(k - 1);
      NatToStringLength(n / 10, k - 1);
    }
  }

  /** `fmt.Sprintf("%06d", v)` for a non-negative `v`: its decimal digits,
      padded on the left with zeros to six characters. */
  function Format06(v: nat): (r: string)
    ensures AllDigits(r) && |r| >= PinLength
    ensures DigitsValue(r) == v
  {
    var digits := NatToString(v);
    if |digits| >= PinLength then digits
    else
      var padded := Zeros(PinLength - |digits|) + digits;
      ZerosValue(PinLength - |digits|, digits);
      padded
  }

  function Zeros(n: nat): (z: string)
    ensures |z| == n && AllDigits(z)
  {
    if n == 0 then [] else Zeros(n - 1) + ['0']
  }

  /** Leading zeros do not change a number's value. */
  lemma {:induction false} ZerosValue(n: nat, digits: string)
    requires AllDigits(digits)
    ensures DigitsValue(Zeros(n) + digits) == DigitsValue(digits)
    decreases n, |digits|
  {
    if digits == [] {
      assert Zeros(n) + digits == Zeros(n);
      ZerosWorthNothing(n);
    } else {
      var init := digits[..|digits| - 1];
      assert (Zeros(n) + digits)[..|Zeros(n) + digits| - 1] == Zeros(n) + init;
      ZerosValue(n, init);
    }
  }

  lemma {:induction false} ZerosWorthNothing(n: nat)
    ensures DigitsValue(Zeros(n)) == 0
  {
    if n > 0 {
      assert Zeros(n)[..n - 1] == Zeros(n - 1);
      ZerosWorthNothing(n - 1);
    }
  }

  /** `GeneratePIN`, given the outcome of drawing a number below 900000. */
  function GeneratePIN(draw: Result<nat, ()>): (r: Result<string, ()>)
    requires draw.Ok? ==> draw.value < DrawBound
    ensures r.Err? <==> draw.Err?
    ensures r.Ok? ==> IsPIN(r.value) && DigitsValue(r.value) == draw.value + Offset
  {
    match draw
    case Err(e) => Err(e)
    case Ok(n) =>
      SixDigits(n + Offset);
      Ok(Format06(n + Offset))
  }

  /** A six-digit number is formatted without padding. */
  lemma SixDigits(v: nat)
    requires Offset <= v < 1000000
    ensures |NatToString(v)| == PinLength && Format06(v) == NatToString(v)
  {
    assert Pow10(5) == 100000 by {
      assert Pow10(2) == 100;
      assert Pow10(4) == 10000;
    }
    NatToStringLength(v, 6);
  }

  /** Every generated PIN lies between "100000" and "999999": its first digit
      is never '0', so "000000" is never generated. */
  lemma GeneratedRange(n: nat)
    requires n < DrawBound
    ensures (var pin := GeneratePIN(Ok(n)).value;
             Offset <= DigitsValue(pin) <= 999999 && pin[0] != '0' && pin != "000000")
  {
    SixDigits(n + Offset);
  }

  /** Distinct draws give distinct PINs. */
  lemma GeneratedInjective(m: nat, n: nat)
    requires m < DrawBound && n < DrawBound && m != n
    ensures GeneratePIN(Ok(m)) != GeneratePIN(Ok(n))
  {
  }

  /** "000000" is valid although it is never generated; five or seven digits,
      or any letter, are not (cases of backend/utils/pin_test.go:30-51). */
  lemma ValidationExamples()
    ensures IsPIN("000000") && IsPIN("123456") && IsPIN("999999")
    ensures !IsPIN("12345") && !IsPIN("1234567") && !IsPIN("") && !IsPIN("12345a")
    ensures !IsPIN("abc123")
  {
    assert !IsDigit("12345a"[5]);
    assert !IsDigit("abc123"[0]);
  }
}
