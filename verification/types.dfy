/** Value types shared by the whole calculator core. */
module Types {

  /** Present-or-absent value; `None` plays the role of Go's `nil` error. */
  datatype Option<+T> = None | Some(value: T)

  /** The semantic error kinds the core reports. Each one stands for one or
      more `errors.New` / `fmt.Errorf` site; the message text is not modelled. */
  datatype CalcError =
    | InvalidTdp        // negative TDP, in the calculation and in device validation
    | InvalidRuntime    // negative runtime hours
    | InvalidPrice      // price per kWh that is zero or negative
    | SuspiciousTdp     // TDP above the plausibility ceiling during device validation
    | EmptyDeviceName   // empty device name during device validation
    | NetworkTimeout    // simulated failure of the price lookup
}
