/** Properties that relate several calls of the calculator core. */
module CalculatorProperties {
  import opened Types
  import opened Logging
  import opened Calculator
  import opened PriceSource

  /** The three cost scenarios of the test suite hold exactly over the reals,
      with no logger. */
  lemma CostScenarios()
    ensures CalculateElectricityCost(15.0, 24.0, 0.25, NoLogger) == Costing(0.09, None, NoLogger)
    ensures CalculateElectricityCost(300.0, 5.0, 0.25, NoLogger) == Costing(0.375, None, NoLogger)
    ensures CalculateElectricityCost(150.0, 24.0, 0.25, NoLogger) == Costing(0.9, None, NoLogger)
  {
  }

  /** The three failure scenarios of the test suite: each names its own error
      and reports cost zero. */
  lemma ErrorScenarios()
    ensures CalculateElectricityCost(-100.0, 5.0, 0.25, NoLogger) == Costing(0.0, Some(InvalidTdp), NoLogger)
    ensures CalculateElectricityCost(100.0, -5.0, 0.25, NoLogger) == Costing(0.0, Some(InvalidRuntime), NoLogger)
    ensures CalculateElectricityCost(100.0, 5.0, -0.25, NoLogger) == Costing(0.0, Some(InvalidPrice), NoLogger)
  {
  }

  /** What a logger that keeps messages and errors in two separate lists sees
      after a successful call: two more messages and no new error. */
  lemma {:induction false} TraceViewOnSuccess(tdpWatts: real, runtimeHours: real, pricePerKWh: real,
                                              prior: seq<LogEvent>)
    requires tdpWatts >= 0.0 && runtimeHours >= 0.0 && pricePerKWh > 0.0
    ensures var r := CalculateElectricityCost(tdpWatts, runtimeHours, pricePerKWh, Recording(prior));
            && Messages(r.logger.trace) == Messages(prior)
                 + [Computing(tdpWatts, runtimeHours),
                    Computed(r.cost, tdpWatts * runtimeHours / 1000.0, pricePerKWh)]
            && ErrorCauses(r.logger.trace) == ErrorCauses(prior)
  {
    var r := CalculateElectricityCost(tdpWatts, runtimeHours, pricePerKWh, Recording(prior));
    var added := [Info(Computing(tdpWatts, runtimeHours)),
                  Info(Computed(r.cost, tdpWatts * runtimeHours / 1000.0, pricePerKWh))];
    ProjectionsDistribute(prior, added);
    assert added[1..][1..] == [];
    assert Messages(added[1..]) == [added[1].msg];
    assert ErrorCauses(added[1..]) == [];
  }

  /** After a failing call the logger holds exactly one more message, the one
      announcing the inputs, and exactly one more error, the returned one. */
  lemma {:induction false} TraceViewOnFailure(tdpWatts: real, runtimeHours: real, pricePerKWh: real,
                                              prior: seq<LogEvent>)
    requires !(tdpWatts >= 0.0 && runtimeHours >= 0.0 && pricePerKWh > 0.0)
    ensures var r := CalculateElectricityCost(tdpWatts, runtimeHours, pricePerKWh, Recording(prior));
            && r.err.Some?
            && Messages(r.logger.trace) == Messages(prior) + [Computing(tdpWatts, runtimeHours)]
            && ErrorCauses(r.logger.trace) == ErrorCauses(prior) + [r.err.value]
  {
    var r := CalculateElectricityCost(tdpWatts, runtimeHours, pricePerKWh, Recording(prior));
    var added := [Info(Computing(tdpWatts, runtimeHours)), Error(r.err.value)];
    ProjectionsDistribute(prior, added);
    assert added[1..][1..] == [];
    assert Messages(added[1..]) == [];
    assert ErrorCauses(added[1..]) == [r.err.value];
  }

  /** The dependency-injection scenario of the test suite: a fresh recording
      logger receives exactly two messages and no error, so every event it
      recorded is a message, and the cost is 0.1. */
  lemma DependencyInjectionScenario()
    ensures var r := CalculateElectricityCost(100.0, 5.0, 0.20, Recording([]));
            && r.cost == 0.1 && r.err.None?
            && |Messages(r.logger.trace)| == 2 && ErrorCauses(r.logger.trace) == []
            && |r.logger.trace| == |Messages(r.logger.trace)|
  {
    TraceViewOnSuccess(100.0, 5.0, 0.20, []);
    ProjectionsPartition(CalculateElectricityCost(100.0, 5.0, 0.20, Recording([])).logger.trace);
  }

  /** Which logger is passed (none, silent or recording) never changes the
      returned cost or error. */
  lemma LoggerHasNoEffect(tdpWatts: real, runtimeHours: real, pricePerKWh: real, a: Logger, b: Logger)
    ensures CalculateElectricityCost(tdpWatts, runtimeHours, pricePerKWh, a).cost
         == CalculateElectricityCost(tdpWatts, runtimeHours, pricePerKWh, b).cost
    ensures CalculateElectricityCost(tdpWatts, runtimeHours, pricePerKWh, a).err
         == CalculateElectricityCost(tdpWatts, runtimeHours, pricePerKWh, b).err
  {
  }

  /** Running for h1 + h2 hours costs what running h1 hours and then h2 hours costs. */
  lemma CostAdditiveInRuntime(tdpWatts: real, h1: real, h2: real, pricePerKWh: real, logger: Logger)
    requires tdpWatts >= 0.0 && h1 >= 0.0 && h2 >= 0.0 && pricePerKWh > 0.0
    ensures CalculateElectricityCost(tdpWatts, h1 + h2, pricePerKWh, logger).cost
         == CalculateElectricityCost(tdpWatts, h1, pricePerKWh, logger).cost
          + CalculateElectricityCost(tdpWatts, h2, pricePerKWh, logger).cost
  {
  }

  /** The monthly cost is thirty times the cost of one 24-hour day. */
  lemma MonthlyIsThirtyDays(tdpWatts: real, pricePerKWh: real, logger: Logger)
    ensures CalculateMonthlyCost(tdpWatts, pricePerKWh, logger).cost
         == 30.0 * CalculateElectricityCost(tdpWatts, 24.0, pricePerKWh, logger).cost
    ensures CalculateMonthlyCost(tdpWatts, pricePerKWh, logger).err
         == CalculateElectricityCost(tdpWatts, 24.0, pricePerKWh, logger).err
  {
  }

  /** The boundary TDPs 0 W and 1000 W pass validation with a non-empty name;
      just outside them validation fails. */
  lemma ValidationBoundaries(deviceName: string)
    requires deviceName != ""
    ensures ValidateDevice(0.0, deviceName).None?
    ensures ValidateDevice(1000.0, deviceName).None?
    ensures ValidateDevice(-0.001, deviceName) == Some(InvalidTdp)
    ensures ValidateDevice(1000.001, deviceName) == Some(SuspiciousTdp)
  {
  }

  /** Device validation and the calculation agree on which TDPs are negative;
      a device that passes validation, run for a non-negative time at a positive
      price, always makes the calculation succeed. */
  lemma ValidationAgreesWithCalculation(tdpWatts: real, deviceName: string,
                                        runtimeHours: real, pricePerKWh: real, logger: Logger)
    ensures ValidateDevice(tdpWatts, deviceName) == Some(InvalidTdp)
        <==> CalculateElectricityCost(tdpWatts, runtimeHours, pricePerKWh, logger).err == Some(InvalidTdp)
    ensures ValidateDevice(tdpWatts, deviceName).None? && runtimeHours >= 0.0 && pricePerKWh > 0.0 ==>
              CalculateElectricityCost(tdpWatts, runtimeHours, pricePerKWh, logger).err.None?
  {
  }

  /** A price the lookup returns without error is always accepted by the
      calculation: it never leads to InvalidPrice. */
  lemma LookedUpPriceIsAccepted(clockNanos: int, tdpWatts: real, runtimeHours: real, logger: Logger)
    requires GetCurrentElectricityPrice(clockNanos).1.None?
    ensures var price := GetCurrentElectricityPrice(clockNanos).0;
            CalculateElectricityCost(tdpWatts, runtimeHours, price, logger).err != Some(InvalidPrice)
  {
  }
}
