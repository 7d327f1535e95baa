/** The `Logger` capability of the calculator as an event trace. */
module Logging {
  import opened Types

  /** Payload of an informational event: the figures the formatted message reports. */
  datatype InfoMsg =
    | Computing(tdpWatts: real, runtimeHours: real)
    | Computed(totalCost: real, energyKWh: real, pricePerKWh: real)

  /** One call on the logger: `Log(message)` or `LogError(message, err)`. */
  datatype LogEvent = Info(msg: InfoMsg) | Error(cause: CalcError)

  /** The logger argument of a calculation: absent (`nil`), a sink that discards
      every event (`SilentLogger`), or a sink that keeps every event in call order
      (the lines `ConsoleLogger` prints, or the lists a test double collects). */
  datatype Logger = NoLogger | Silent | Recording(trace: seq<LogEvent>)

  /** Deliver one event to the logger. */
  function Log(logger: Logger, e: LogEvent): (l: Logger)
    ensures l.Recording? <==> logger.Recording?
    ensures logger.Recording? ==> l.trace == logger.trace + [e]
    ensures !logger.Recording? ==> l == logger
  {
    match logger
    case Recording(t) => Recording(t + [e])
    case _ => logger
  }

  /** The informational messages of a trace, in order. */
  function Messages(t: seq<LogEvent>): seq<InfoMsg>
  {
    if t == [] then []
    else (if t[0].Info? then [t[0].msg] else []) + Messages(t[1..])
  }

  /** The causes of the error events of a trace, in order. */
  function ErrorCauses(t: seq<LogEvent>): seq<CalcError>
  {
    if t == [] then []
    else (if t[0].Error? then [t[0].cause] else []) + ErrorCauses(t[1..])
  }

  /** Splitting a trace into messages and error causes loses no event. */
  lemma {:induction false} ProjectionsPartition(t: seq<LogEvent>)
    ensures |Messages(t)| + |ErrorCauses(t)| == |t|
  {
    if t != [] {
      ProjectionsPartition(t[1..]);
    }
  }

  /** Both projections distribute over concatenation of traces: events logged
      later never change what earlier events contributed. */
  lemma {:induction false} ProjectionsDistribute(a: seq<LogEvent>, b: seq<LogEvent>)
    ensures Messages(a + b) == Messages(a) + Messages(b)
    ensures ErrorCauses(a + b) == ErrorCauses(a) + ErrorCauses(b)
  {
    if a == [] {
      assert a + b == b;
    } else {
      assert (a + b)[0] == a[0];
      assert (a + b)[1..] == a[1..] + b;
      ProjectionsDistribute(a[1..], b);
    }
  }
}
