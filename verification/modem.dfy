/**
 * What ModemManager answers, scripted. Each field holds the result of one call the
 * exporter makes on a modem or on one of its capability objects (SIM, 3GPP,
 * simple-connect, location, signal); `Err` is an error return. Nothing here
 * behaves: the exporter only reads these answers in its fixed order.
 */
module ModemManager {
  import opened Outcomes

  /** A float64 the exporter forwards untouched, kept as its IEEE-754 bit pattern. */
  datatype Float = Float(bits: bv64)

  /** The SIM object: `GetSimIdentifier`, `GetImsi`, `GetOperatorIdentifier`, `GetOperatorName`. */
  datatype Sim = Sim(
    identifier: Result<string>,
    imsi: Result<string>,
    operatorIdentifier: Result<string>,
    operatorName: Result<string>)

  /**
   * The 3GPP object: `GetImei`, `GetOperatorName`, and the `String()` names of
   * `GetRegistrationState`, and `GetOperatorCode`.
   */
  datatype ThreeGpp = ThreeGpp(
    imei: Result<string>,
    operatorName: Result<string>,
    registrationState: Result<string>,
    operatorCode: Result<string>)

  /** A bearer listed by `GetBearers`, known by its object path. */
  datatype Bearer = Bearer(path: string)

  /** The simple-connect object; only whether `GetSimpleModem` answers matters. */
  datatype SimpleModem = SimpleModem

  /** What `nmea.Parse` makes of one raw sentence: an error, a GGA fix, or any other type. */
  datatype Sentence = ParseError | GGA(latitude: Float, longitude: Float, altitude: Float) | OtherType

  /**
   * `GetCurrentLocation`: the hexadecimal 3GPP cell id, LAC and TAC, the stored
   * NMEA sentences in log order, and the raw GPS UTC time as a Unix timestamp.
   */
  datatype CurrentLocation = CurrentLocation(
    cellId: string,
    lac: string,
    tac: string,
    sentences: seq<Sentence>,
    utcTime: Float)

  /** The location object and its `GetCurrentLocation`. */
  datatype Location = Location(current: Result<CurrentLocation>)

  /** One entry of `GetCurrentSignals`, one per radio technology reporting. */
  datatype SignalSample = SignalSample(rssi: Float, rsrp: Float, snr: Float, sinr: Float, rsrq: Float)

  /** The signal object: `Setup(1)`, `GetCurrentSignals`, `Setup(0)`. */
  datatype Signal = Signal(
    enableRefresh: Result<()>,
    current: Result<seq<SignalSample>>,
    disableRefresh: Result<()>)

  /**
   * One modem. `state` and `stateAfter` are the two `GetState` reads (their
   * `String()` names); `accessTechnologies` are the `String()` names of
   * `GetAccessTechnologies`; `bearers` is the list `GetBearers` hands back,
   * whose error the exporter discards.
   */
  datatype Modem = Modem(
    state: Result<string>,
    enable: Result<()>,
    sim: Result<Sim>,
    threeGpp: Result<ThreeGpp>,
    accessTechnologies: Result<seq<string>>,
    stateAfter: Result<string>,
    bearers: seq<Bearer>,
    simple: Result<SimpleModem>,
    stateFailedReason: Result<string>,
    location: Result<Location>,
    signal: Result<Signal>)
}
