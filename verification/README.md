# Electricity cost calculator — Dafny model

A model of the validation and calculation core of a small command-line tool that
estimates what it costs to run a device, given its thermal design power (TDP) in
watts, a runtime in hours and a price per kWh (`calculator.go`). The model covers:

- `CalculateElectricityCost`: three input checks in fixed order (TDP, runtime,
  price), each with its own error, then `(tdp / 1000) · hours · price`; zero cost
  on every error; the exact sequence of events delivered to the logger.
- `CalculateMonthlyCost`: the same calculation over a fixed 720-hour month.
- `ValidateDevice`: the device sanity check (negative TDP, TDP above 1000 W,
  empty name, in that order).
- `GetCurrentElectricityPrice`: the simulated price lookup, with the clock
  reading passed in as a parameter, failing on every reading divisible by 13.
- The `Logger` interface as an event trace: no logger (`nil`), a silent logger,
  or a recording logger that keeps every `Log` / `LogError` call in order.

Numbers are Dafny `real`, so the cost formula is exact (`15/1000 · 24 · 0.25`
is exactly `0.09`); errors are the enum `Types.CalcError`; log events carry the
figures their message reports but not the formatted text.

Files: `types.dfy` (Option, error kinds), `logging.dfy` (events, loggers, the
message/error projections of a trace), `calculator.dfy` (cost, monthly cost,
validation), `price.dfy` (price lookup and its failure rate),
`properties.dfy` (lemmas relating several calls).

A failing calculation delivers one info event and then one error event to the
logger, because the inputs are logged before any check (`calculator.go:37-46`).

## Model

| member | source | states |
|---|---|---|
| Calculator.CalculateElectricityCost | calculator.go:36-71 | Error precedence as three if-and-only-ifs: InvalidTdp exactly when tdp < 0; InvalidRuntime exactly when tdp >= 0 and hours < 0; InvalidPrice exactly when tdp and hours are >= 0 and price <= 0 (zero included); no error exactly when all inputs are valid. Cost is 0 on every error, never negative, and on success 1000 · cost = tdp · hours · price. Without a recording logger the logger is untouched; with one, the trace grows by exactly [info(inputs), info(cost, energy, price)] on success and by exactly [info(inputs), error(returned error)] on failure. Cost and error are determined by the numbers alone. |
| Calculator.CalculateMonthlyCost | calculator.go:73-76 | Equals the calculation at 720 hours, logger trace included; can never report InvalidRuntime; succeeds exactly when tdp >= 0 and price > 0, then costing tdp · price · 0.72. |
| Calculator.ValidateDevice | calculator.go:78-89 | InvalidTdp exactly when tdp < 0; SuspiciousTdp exactly when tdp > 1000; EmptyDeviceName exactly when 0 <= tdp <= 1000 and the name is empty; success exactly when 0 <= tdp <= 1000 and the name is non-empty. |
| PriceSource.GetCurrentElectricityPrice | calculator.go:91-99 | With the clock reading n passed in: (0, NetworkTimeout) exactly when n % 13 == 0, otherwise (0.30, no error), a positive price. |
| PriceSource.FailuresClosedForm | calculator.go:94-95 | The number of failing lookups over the readings [s, s + c) is the number of multiples of 13 in that range. |
| PriceSource.OneFailurePerPeriod | calculator.go:94-95 | Over any 13·k consecutive clock readings exactly k lookups fail: the one-in-13 failure rate holds exactly on every such window. |
| Logging.Log | calculator.go:9-30 | Delivering an event to a recording logger grows its trace by exactly that event at the end; no logger and the silent logger come back unchanged. |
| Logging.ProjectionsPartition | calculator_test.go:7-18 | Splitting a trace into info messages and error causes, as the test double does, loses no event: the two lengths add up to the trace length. |
| Logging.ProjectionsDistribute | calculator_test.go:12-18 | Both projections of a trace distribute over concatenation, so events logged later never change what earlier events contributed. |
| CalculatorProperties.TraceViewOnSuccess | calculator.go:37-69 | For any prior trace, a successful call adds exactly the two messages (inputs, then cost/energy/price) and no error. |
| CalculatorProperties.TraceViewOnFailure | calculator.go:37-61 | For any prior trace, a failing call adds exactly one message (the inputs, logged before the checks) and exactly one error, the one returned. |
| CalculatorProperties.DependencyInjectionScenario | calculator_test.go:105-126 | A fresh recording logger passed to (100 W, 5 h, 0.20) receives exactly two messages and no error, so every recorded event is a message, and the cost is exactly 0.1. |
| CalculatorProperties.CostScenarios | calculator_test.go:28-30 | (15, 24, 0.25) costs exactly 0.09, (300, 5, 0.25) exactly 0.375, (150, 24, 0.25) exactly 0.9, with no error. |
| CalculatorProperties.ErrorScenarios | calculator_test.go:56-79 | (-100, 5, 0.25) gives (0, InvalidTdp); (100, -5, 0.25) gives (0, InvalidRuntime); (100, 5, -0.25) gives (0, InvalidPrice). |
| CalculatorProperties.LoggerHasNoEffect | calculator.go:37-69 | Any two loggers give the same cost and the same error for the same inputs. |
| CalculatorProperties.CostAdditiveInRuntime | calculator.go:63-65 | For valid inputs, the cost of h1 + h2 hours is the cost of h1 hours plus the cost of h2 hours. |
| CalculatorProperties.MonthlyIsThirtyDays | calculator.go:73-76 | The monthly cost is 30 times the cost of a 24-hour day, with the same error. |
| CalculatorProperties.ValidationBoundaries | calculator.go:79-88 | With a non-empty name, 0 W and 1000 W pass validation; just below 0 W gives InvalidTdp and just above 1000 W gives SuspiciousTdp. |
| CalculatorProperties.ValidationAgreesWithCalculation | calculator.go:41-47 | Validation reports InvalidTdp exactly when the calculation does; a device that passes validation, run for a non-negative time at a positive price, always makes the calculation succeed. |
| CalculatorProperties.LookedUpPriceIsAccepted | calculator.go:55-61 | A price returned by a successful lookup never makes the calculation report InvalidPrice. |

## Left out

- `main.go`: flag parsing, help text, exit codes and stdout formatting are command-line glue around the core.
- `FormatCostEuro` (`calculator.go:32-34`): `%.2f` formatting whose rounding depends on the float64 representation of the cost; it cannot be stated faithfully over reals.
- Message text of log events and errors (`calculator.go:38`, `calculator.go:68`, `calculator.go:83`): errors are an enum and info events carry their figures, not the formatted string; the device name in the SuspiciousTdp message is therefore not modelled.
- `ConsoleLogger` printing (`calculator.go:16-22`): console I/O; the recording logger stands for the sequence of lines it would print. `SilentLogger` is the logger that discards events.
- The 100 ms sleep and the wall-clock read in `GetCurrentElectricityPrice` (`calculator.go:92-94`): the clock reading is a parameter and the delay has no modelled effect.
- float64 rounding of the cost: the model computes over exact reals, so the test suite's epsilon comparison becomes an exact equality.
- NaN and infinite inputs: every float64 comparison with NaN is false, so a NaN value passes the check on its own parameter; when the other inputs are valid the call returns a NaN cost and no error, and when another input is invalid the call still returns that input's error with cost 0 (`calculator.go:41-61`). A +Inf TDP with 0 hours likewise passes every check and yields a NaN cost (+Inf with positive hours yields +Inf); a -Inf TDP gives InvalidTdp as any negative TDP does. Reals have no NaN or infinities, so these paths are not modelled.
- float64 overflow and underflow: finite float64 inputs can overflow to +Inf or underflow to 0 in the three products at `calculator.go:63-65`; the exact-real model never overflows or underflows.
