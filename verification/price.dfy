/** The simulated market-price lookup, with the clock reading passed in. */
module PriceSource {
  import opened Types

  /** Price per kWh returned when the lookup succeeds. */
  const NominalPrice: real := 0.30

  /** One in this many clock readings makes the lookup fail. */
  const FailurePeriod: int := 13

  /** Look up the current price given the nanosecond clock reading `clockNanos`.
      The reading may be negative (an instant before 1970); a zero remainder means
      the same under Go's truncating `%` as under Dafny's Euclidean one. */
  function GetCurrentElectricityPrice(clockNanos: int): (r: (real, Option<CalcError>))
    ensures r.1 == Some(NetworkTimeout) <==> clockNanos % 13 == 0
    ensures r.1.None? <==> clockNanos % 13 != 0
    ensures r.1.Some? ==> r.0 == 0.0
    ensures r.1.None? ==> r.0 == 0.30 && r.0 > 0.0
  {
    if clockNanos % FailurePeriod == 0 then (0.0, Some(NetworkTimeout))
    else (NominalPrice, None)
  }

  /** How many of the `count` consecutive clock readings starting at `start`
      make the lookup fail. */
  function FailuresIn(start: int, count: nat): nat
  {
    if count == 0 then 0
    else FailuresIn(start, count - 1)
         + (if GetCurrentElectricityPrice(start + count - 1).1.Some? then 1 else 0)
  }

  /** Integer division by the failure period, stated by its defining bounds. */
  lemma DivisionBounds(m: int, q: int)
    requires FailurePeriod * q <= m < FailurePeriod * q + FailurePeriod
    ensures m / FailurePeriod == q
  {
  }

  /** Failures in a window are the multiples of the period in it:
      the readings in [start, start + count) divisible by 13. */
  lemma {:induction false} FailuresClosedForm(start: int, count: nat)
    ensures FailuresIn(start, count) == (start + count + 12) / 13 - (start + 12) / 13
  {
    if count > 0 {
      FailuresClosedForm(start, count - 1);
      var m := start + count - 1;
      var q := m / 13;
      assert m == 13 * q + m % 13;
      if m % 13 == 0 {
        DivisionBounds(m + 12, q);
        DivisionBounds(m + 13, q + 1);
      } else {
        DivisionBounds(m + 12, q + 1);
        DivisionBounds(m + 13, q + 1);
      }
    }
  }

  /** Over any run of 13·k consecutive clock readings, exactly k lookups fail:
      the failure rate is exactly one in 13 on every such window. */
  lemma OneFailurePerPeriod(start: int, k: nat)
    ensures FailuresIn(start, 13 * k) == k
  {
    FailuresClosedForm(start, 13 * k);
    var q := (start + 12) / 13;
    assert start + 12 == 13 * q + (start + 12) % 13;
    DivisionBounds(start + 13 * k + 12, q + k);
  }
}
