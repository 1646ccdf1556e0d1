/** Value types shared by every module: optional values, the outcome of a call
    that may raise, and exact decimal numbers standing for the floats and
    Decimals of the service. */
module Values {

  datatype Option<+T> = None | Some(value: T)

  /** What a Python call gives back: a value, or an exception that it lets
      escape (the string is the exception's message). */
  datatype Outcome<+T> = Returned(value: T) | Raised(error: string)

  /** 10 to the power n. */
  function Pow10(n: nat): (r: nat)
    ensures r >= 1
  {
    if n == 0 then 1 else 10 * Pow10(n - 1)
  }

  /** An exact decimal number: mantissa * 10^(-scale). "3.25" is Dec(325, 2). */
  datatype Dec = Dec(mantissa: int, scale: nat)

  /** The number a decimal stands for. */
  function Value(d: Dec): real
  {
    d.mantissa as real / Pow10(d.scale) as real
  }

  /** d multiplied by 10^e, exactly. */
  function ShiftLeft(d: Dec, e: nat): Dec
  {
    Dec(d.mantissa * Pow10(e), d.scale)
  }

  /** Shifting multiplies the value by the power of ten. */
  lemma ShiftLeftScales(d: Dec, e: nat)
    ensures Value(ShiftLeft(d, e)) == Value(d) * Pow10(e) as real
  {
    var m, p, q := d.mantissa as real, Pow10(e) as real, Pow10(d.scale) as real;
    assert (d.mantissa * Pow10(e)) as real == m * p;
    DivTimes(m, p, q);
  }

  lemma DivTimes(m: real, p: real, q: real)
    requires q > 0.0
    ensures (m * p) / q == (m / q) * p
  {
    var x := m / q;
    assert m == x * q;
    assert m * p == (x * p) * q;
  }

  /** The sign of a decimal follows its mantissa (used for "> 0" tests). */
  lemma PositiveValue(d: Dec)
    ensures Value(d) > 0.0 <==> d.mantissa > 0
  {
    var p := Pow10(d.scale) as real;
    assert p > 0.0;
    if d.mantissa > 0 {
      assert d.mantissa as real / p > 0.0;
    } else {
      assert d.mantissa as real <= 0.0;
      assert d.mantissa as real / p <= 0.0;
    }
  }
}
