/** Electricity cost calculation, monthly projection and device validation. */
module Calculator {
  import opened Types
  import opened Logging

  /** Hours in the fixed 30-day month of the monthly projection. */
  const HoursPerMonth: real := 24.0 * 30.0

  /** Watts per kilowatt. */
  const WattsPerKilowatt: real := 1000.0

  /** Plausibility ceiling for a device's TDP, in watts. */
  const MaxPlausibleTdp: real := 1000.0

  /** What a calculation hands back: the cost, the error (`None` for `nil`)
      and the logger after every event of the call has been delivered to it. */
  datatype Costing = Costing(cost: real, err: Option<CalcError>, logger: Logger)

  /** Cost of running a device of `tdpWatts` for `runtimeHours` at `pricePerKWh`.
      An info event is logged before the inputs are checked; the checks run in the
      order TDP, runtime, price, and the first that fails ends the call with cost
      zero and one error event; otherwise a second info event reports the figures. */
  function CalculateElectricityCost(tdpWatts: real, runtimeHours: real, pricePerKWh: real,
                                    logger: Logger): (r: Costing)
    // error precedence, each case an if-and-only-if
    ensures r.err == Some(InvalidTdp) <==> tdpWatts < 0.0
    ensures r.err == Some(InvalidRuntime) <==> tdpWatts >= 0.0 && runtimeHours < 0.0
    ensures r.err == Some(InvalidPrice) <==>
              tdpWatts >= 0.0 && runtimeHours >= 0.0 && pricePerKWh <= 0.0
    ensures r.err.None? <==> tdpWatts >= 0.0 && runtimeHours >= 0.0 && pricePerKWh > 0.0
    // no partial computation leaks out of a failed call
    ensures r.err.Some? ==> r.cost == 0.0
    // on success the cost is the energy in watt-hours priced per thousand
    ensures r.err.None? ==> r.cost * WattsPerKilowatt == tdpWatts * runtimeHours * pricePerKWh
    ensures r.cost >= 0.0
    // the logger sees exactly this, and nothing else changes
    ensures r.logger.Recording? <==> logger.Recording?
    ensures !logger.Recording? ==> r.logger == logger
    ensures logger.Recording? && r.err.None? ==>
              r.logger.trace == logger.trace
                + [Info(Computing(tdpWatts, runtimeHours)),
                   Info(Computed(r.cost, tdpWatts * runtimeHours / WattsPerKilowatt, pricePerKWh))]
    ensures logger.Recording? && r.err.Some? ==>
              r.logger.trace == logger.trace
                + [Info(Computing(tdpWatts, runtimeHours)), Error(r.err.value)]
  {
    var announced := Log(logger, Info(Computing(tdpWatts, runtimeHours)));
    if tdpWatts < 0.0 then
      Costing(0.0, Some(InvalidTdp), Log(announced, Error(InvalidTdp)))
    else if runtimeHours < 0.0 then
      Costing(0.0, Some(InvalidRuntime), Log(announced, Error(InvalidRuntime)))
    else if pricePerKWh <= 0.0 then
      Costing(0.0, Some(InvalidPrice), Log(announced, Error(InvalidPrice)))
    else
      var tdpKW := tdpWatts / WattsPerKilowatt;
      var energyKWh := tdpKW * runtimeHours;
      var totalCost := energyKWh * pricePerKWh;
      assert energyKWh == tdpWatts * runtimeHours / WattsPerKilowatt;
      Costing(totalCost, None, Log(announced, Info(Computed(totalCost, energyKWh, pricePerKWh))))
  }

  /** Cost of running a device for the fixed 720-hour month. */
  function CalculateMonthlyCost(tdpWatts: real, pricePerKWh: real, logger: Logger): (r: Costing)
    ensures r == CalculateElectricityCost(tdpWatts, 720.0, pricePerKWh, logger)
    ensures r.err != Some(InvalidRuntime)
    ensures r.err.None? <==> tdpWatts >= 0.0 && pricePerKWh > 0.0
    ensures r.err.None? ==> r.cost == tdpWatts * pricePerKWh * 0.72
  {
    CalculateElectricityCost(tdpWatts, HoursPerMonth, pricePerKWh, logger)
  }

  /** Sanity check of a named device: TDP not negative, then not above the
      plausibility ceiling, then a non-empty name. Logs nothing. */
  function ValidateDevice(tdpWatts: real, deviceName: string): (r: Option<CalcError>)
    ensures r == Some(InvalidTdp) <==> tdpWatts < 0.0
    ensures r == Some(SuspiciousTdp) <==> tdpWatts > 1000.0
    ensures r == Some(EmptyDeviceName) <==> 0.0 <= tdpWatts <= 1000.0 && |deviceName| == 0
    ensures r.None? <==> 0.0 <= tdpWatts <= 1000.0 && |deviceName| > 0
  {
    if tdpWatts < 0.0 then Some(InvalidTdp)
    else if tdpWatts > MaxPlausibleTdp then Some(SuspiciousTdp)
    else if deviceName == "" then Some(EmptyDeviceName)
    else None
  }
}
