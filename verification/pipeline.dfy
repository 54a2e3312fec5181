/**
 * The collection pipeline of `Exporter.Collect` stated as values: every stage of the
 * per-modem sequence is a `Run` (what it emits, which modem-changing calls it makes,
 * and how it ends), and stages are chained with `Then`, which stops at the first
 * stage that skips the rest of the modem or ends the process.
 */
module Pipeline {
  import opened Outcomes
  import opened Text
  import opened Strconv
  import opened ModemManager
  import opened Metrics

  /**
   * How a stage ends: `Next` goes on to the next stage, `Skip` drops the rest of
   * this modem (a `continue` of the modem loop), `Fatal` ends the process (`log.Fatal`).
   */
  datatype End = Next | Skip | Fatal

  datatype Run = Run(obs: seq<Observation>, calls: seq<Call>, end: End)

  const Empty: Run := Run([], [], Next)

  /** `a` followed by `b`, unless `a` did not end with `Next`. */
  function Then(a: Run, b: Run): Run {
    if a.end == Next then Run(a.obs + b.obs, a.calls + b.calls, b.end) else a
  }

  /** Seen from the modem loop, skipping the rest of a modem is the same as finishing it. */
  function Settle(r: Run): Run {
    if r.end == Skip then Run(r.obs, r.calls, Next) else r
  }

  // ----- state and enable ---------------------------------------------------------

  /** The first `GetState`; a "Disabled" modem gets an `Enable`, and either failure skips it. */
  function EnableStage(m: Modem): Run {
    match m.state
    case Err => Run([], [], Skip)
    case Ok(state) =>
      if state == "Disabled" then Run([], [Enable], if m.enable.Ok? then Next else Skip)
      else Empty
  }

  // ----- identity ------------------------------------------------------------------

  /**
   * The label tuple, when the SIM and 3GPP objects and all six identity getters
   * answer and exactly one access technology is reported; its name is lower-cased.
   */
  function Identify(m: Modem): Option<Labels> {
    match (m.sim, m.threeGpp, m.accessTechnologies)
    case (Ok(sim), Ok(t), Ok(rats)) =>
      if sim.identifier.Ok? && sim.imsi.Ok? && sim.operatorIdentifier.Ok? && sim.operatorName.Ok?
        && t.imei.Ok? && t.operatorName.Ok? && |rats| == 1
      then Some(Labels(t.imei.value, sim.identifier.value, sim.imsi.value, sim.operatorIdentifier.value,
                       sim.operatorName.value, t.operatorName.value, LowerAscii(rats[0])))
      else None
    case _ => None
  }

  // ----- bearers and the state gauges -------------------------------------------

  /** Disconnect then delete each listed bearer, in list order; a failed delete changes nothing. */
  function BearerCalls(bearers: seq<Bearer>): seq<Call> {
    if bearers == [] then []
    else
      var b := bearers[|bearers| - 1];
      BearerCalls(bearers[..|bearers| - 1]) + [Disconnect(b.path), DeleteBearer(b.path)]
  }

  /** The bearer reset: all listed bearers go, then `Connect(apn)` if the simple-connect object is there. */
  function ResetCalls(bearers: seq<Bearer>, simple: Result<SimpleModem>, apn: string): seq<Call> {
    BearerCalls(bearers) + (if simple.Ok? then [Connect(apn)] else [])
  }

  /** The bearer reset is made only when the re-read state is "Registered" and an APN is configured. */
  function BearerStage(m: Modem, state: string, apn: string): seq<Call> {
    if state == "Registered" && apn != "" then ResetCalls(m.bearers, m.simple, apn) else []
  }

  function StateGauges(state: string, labels: Labels): seq<Observation> {
    [Gauge(Registered, labels, Flag(state == "Registered" || state == "Connected")),
     Gauge(Connected, labels, Flag(state == "Connected"))]
  }

  // ----- location ------------------------------------------------------------------

  /** One observation of `metric` when `digits` reads as a 64-bit hexadecimal number, none otherwise. */
  function HexGauge(metric: Metric, digits: string, labels: Labels): seq<Observation> {
    match ParseHexInt64(digits)
    case Some(v) => [Gauge(metric, labels, Exact(v))]
    case None => []
  }

  function FixGauges(utc: Float, latitude: Float, longitude: Float, altitude: Float, labels: Labels): seq<Observation> {
    [Gauge(TimeFix, labels, Reading(utc)), Gauge(Lat, labels, Reading(latitude)),
     Gauge(Lon, labels, Reading(longitude)), Gauge(Alt, labels, Reading(altitude))]
  }

  /** What one NMEA sentence contributes: a GGA emits a fix, a parse error is fatal. */
  function SentenceRun(s: Sentence, utc: Float, labels: Labels): Run {
    match s
    case ParseError => Run([], [], Fatal)
    case GGA(latitude, longitude, altitude) => Run(FixGauges(utc, latitude, longitude, altitude, labels), [], Next)
    case OtherType => Empty
  }

  /** The scan of the sentence log from its last sentence to its first. */
  function GpsRun(sentences: seq<Sentence>, utc: Float, labels: Labels): Run {
    if sentences == [] then Empty
    else Then(GpsRun(sentences[1..], utc, labels), SentenceRun(sentences[0], utc, labels))
  }

  function LocationStage(loc: CurrentLocation, labels: Labels): Run {
    var hex := HexGauge(CellId, loc.cellId, labels) + HexGauge(Lac, loc.lac, labels) + HexGauge(Tac, loc.tac, labels);
    Then(Run(hex, [], Next), GpsRun(loc.sentences, loc.utcTime, labels))
  }

  // ----- roaming and operator code -------------------------------------------------

  function OperatorCodeGauge(code: string, labels: Labels): seq<Observation> {
    match ParseDecimal(code)
    case Some(v) => [Gauge(OperatorCode, labels, Exact(v))]
    case None => []
  }

  function RegistrationStage(t: ThreeGpp, labels: Labels): Run {
    match t.registrationState
    case Err => Run([], [], Skip)
    case Ok(regState) =>
      var roaming := Gauge(Roaming, labels, Flag(regState == "Roaming"));
      match t.operatorCode
      case Err => Run([roaming], [], Skip)
      case Ok(code) => Run([roaming] + OperatorCodeGauge(code, labels), [], Next)
  }

  // ----- signal --------------------------------------------------------------------

  function SampleGauges(s: SignalSample, labels: Labels): seq<Observation> {
    [Gauge(Rssi, labels, Reading(s.rssi)), Gauge(Rsrp, labels, Reading(s.rsrp)),
     Gauge(Snr, labels, Reading(s.snr)), Gauge(Sinr, labels, Reading(s.sinr)),
     Gauge(Rsrq, labels, Reading(s.rsrq))]
  }

  function SignalGauges(samples: seq<SignalSample>, labels: Labels): seq<Observation> {
    if samples == [] then []
    else SignalGauges(samples[..|samples| - 1], labels) + SampleGauges(samples[|samples| - 1], labels)
  }

  /** Refresh on, a two-second wait, one read of the current signals, refresh off. */
  function SignalStage(signal: Result<Signal>, labels: Labels): Run {
    match signal
    case Err => Run([], [], Skip)
    case Ok(s) =>
      if s.enableRefresh.Err? then Run([], [Setup(1)], Skip)
      else match s.current
        case Err => Run([], [Setup(1), Sleep(2)], Skip)
        case Ok(samples) =>
          Run(SignalGauges(samples, labels), [Setup(1), Sleep(2), Setup(0)],
              if s.disableRefresh.Ok? then Next else Skip)
  }

  // ----- one modem, and the sweep -----------------------------------------------------

  /** The failure-reason probe and the location fetch gate the reporting stages. */
  function ReportStage(m: Modem, labels: Labels): Run {
    match (m.stateFailedReason, m.location, m.threeGpp)
    case (Ok(_), Ok(Location(Ok(loc))), Ok(t)) =>
      Then(Then(LocationStage(loc, labels), RegistrationStage(t, labels)), SignalStage(m.signal, labels))
    case _ => Run([], [], Skip)
  }

  /** Everything after the enable step: identity, the state re-read, then bearers, gauges and reports. */
  function IdentifiedRun(m: Modem, apn: string): Run {
    match (Identify(m), m.stateAfter)
    case (Some(labels), Ok(state)) =>
      Then(Run(StateGauges(state, labels), BearerStage(m, state, apn), Next), ReportStage(m, labels))
    case _ => Run([], [], Skip)
  }

  /** The whole per-modem pipeline. */
  function ModemRun(m: Modem, apn: string): Run {
    Then(EnableStage(m), IdentifiedRun(m, apn))
  }

  /** The modems in order, until one of them ends the process. */
  function Runs(modems: seq<Modem>, apn: string): Run {
    if modems == [] then Empty
    else Then(Runs(modems[..|modems| - 1], apn), Settle(ModemRun(modems[|modems| - 1], apn)))
  }

  /** What one scrape produces: the observations in channel order, the calls, and whether it was fatal. */
  datatype Scrape = Scrape(observations: seq<Observation>, calls: seq<Call>, fatal: bool)

  /** `GetModems` failing emits nothing; otherwise `up` comes first, then every modem's run. */
  function Sweep(modems: Result<seq<Modem>>, apn: string): Scrape {
    match modems
    case Err => Scrape([], [], false)
    case Ok(ms) =>
      var r := Runs(ms, apn);
      Scrape([UpObservation] + r.obs, r.calls, r.end == Fatal)
  }

  /** `ModemRun` by cases: stopped at the enable step, stopped before the gauges, or reporting. */
  lemma ModemRunCases(m: Modem, apn: string)
    ensures EnableStage(m).end != Next ==> ModemRun(m, apn) == EnableStage(m)
    ensures EnableStage(m).end == Next && (Identify(m).None? || m.stateAfter.Err?) ==>
      ModemRun(m, apn) == Run([], EnableStage(m).calls, Skip)
    ensures EnableStage(m).end == Next && Identify(m).Some? && m.stateAfter.Ok? ==>
      var labels, report := Identify(m).value, ReportStage(m, Identify(m).value);
      ModemRun(m, apn) == Run(StateGauges(m.stateAfter.value, labels) + report.obs,
                              EnableStage(m).calls + (BearerStage(m, m.stateAfter.value, apn) + report.calls),
                              report.end)
  {
  }

  // ----- algebra of runs ----------------------------------------------------------------

  lemma ThenEmpty(a: Run)
    ensures Then(a, Empty) == a && Then(Empty, a) == a
  {
  }

  lemma ThenAssoc(a: Run, b: Run, c: Run)
    ensures Then(Then(a, b), c) == Then(a, Then(b, c))
  {
  }

  /** Scanning a log made of `a` then `b` scans all of `b` (the later part) before `a`. */
  lemma {:induction false} GpsAppend(a: seq<Sentence>, b: seq<Sentence>, utc: Float, labels: Labels)
    ensures GpsRun(a + b, utc, labels) == Then(GpsRun(b, utc, labels), GpsRun(a, utc, labels))
  {
    if a == [] {
      assert a + b == b;
      ThenEmpty(GpsRun(b, utc, labels));
    } else {
      assert (a + b)[1..] == a[1..] + b;
      GpsAppend(a[1..], b, utc, labels);
      ThenAssoc(GpsRun(b, utc, labels), GpsRun(a[1..], utc, labels), SentenceRun(a[0], utc, labels));
    }
  }

  /** The sweep over `a + b` is the sweep over `a` followed by the sweep over `b`. */
  lemma {:induction false} RunsAppend(a: seq<Modem>, b: seq<Modem>, apn: string)
    ensures Runs(a + b, apn) == Then(Runs(a, apn), Runs(b, apn))
    decreases |b|
  {
    if b == [] {
      assert a + b == a;
      ThenEmpty(Runs(a, apn));
    } else {
      var b' := b[..|b| - 1];
      assert (a + b)[..|a + b| - 1] == a + b';
      assert (a + b)[|a + b| - 1] == b[|b| - 1];
      RunsAppend(a, b', apn);
      ThenAssoc(Runs(a, apn), Runs(b', apn), Settle(ModemRun(b[|b| - 1], apn)));
    }
  }

  /**
   * One more modem that does not end the process: after a sweep over `modems[..i]`
   * that went through, the sweep over `modems[..i + 1]` goes through with modem `i`'s
   * settled run appended.
   */
  lemma RunsStepNext(modems: seq<Modem>, i: nat, apn: string, done: Run, step: Run)
    requires i < |modems|
    requires Runs(modems[..i], apn) == done && done.end == Next
    requires Settle(ModemRun(modems[i], apn)) == step && step.end != Fatal
    ensures Runs(modems[..i + 1], apn) == Run(done.obs + step.obs, done.calls + step.calls, Next)
  {
    RunsPrefix(modems, i, apn);
  }

  /**
   * One more modem that ends the process: after a sweep over `modems[..i]` that went
   * through, the whole sweep is fatal with modem `i`'s run as its last contribution.
   */
  lemma RunsStepFatal(modems: seq<Modem>, i: nat, apn: string, done: Run, step: Run)
    requires i < |modems|
    requires Runs(modems[..i], apn) == done && done.end == Next
    requires Settle(ModemRun(modems[i], apn)) == step && step.end == Fatal
    ensures Runs(modems, apn) == Run(done.obs + step.obs, done.calls + step.calls, Fatal)
  {
    RunsPrefix(modems, i, apn);
    RunsFatalPrefix(modems, i + 1, apn);
  }

  /** The sweep over the first `i + 1` modems extends the sweep over the first `i` by modem `i`. */
  lemma RunsPrefix(modems: seq<Modem>, i: nat, apn: string)
    requires i < |modems|
    ensures Runs(modems[..i + 1], apn) == Then(Runs(modems[..i], apn), Settle(ModemRun(modems[i], apn)))
  {
    assert modems[..i + 1][..i] == modems[..i];
  }

  /** Once the sweep over the first `k` modems is fatal, the rest change nothing. */
  lemma RunsFatalPrefix(modems: seq<Modem>, k: nat, apn: string)
    requires k <= |modems| && Runs(modems[..k], apn).end == Fatal
    ensures Runs(modems, apn) == Runs(modems[..k], apn)
  {
    SplitAt(modems, k);
    RunsFatalAppend(modems[..k], modems[k..], apn);
  }

  /** A sequence is its prefix followed by its suffix. */
  lemma SplitAt<T>(s: seq<T>, k: nat)
    requires k <= |s|
    ensures s[..k] + s[k..] == s
  {
  }

  /** Once the sweep over `a` is fatal, the modems after it change nothing. */
  lemma RunsFatalAppend(a: seq<Modem>, b: seq<Modem>, apn: string)
    requires Runs(a, apn).end == Fatal
    ensures Runs(a + b, apn) == Runs(a, apn)
  {
    RunsAppend(a, b, apn);
  }


  /** A sweep never ends by skipping: it either runs to completion or is fatal. */
  lemma {:induction false} RunsEnd(modems: seq<Modem>, apn: string)
    ensures Runs(modems, apn).end != Skip
  {
    if modems != [] {
      RunsEnd(modems[..|modems| - 1], apn);
    }
  }

  /** The sentence scan only emits, never acts on the modem, and never merely skips. */
  lemma {:induction false} GpsRunShape(sentences: seq<Sentence>, utc: Float, labels: Labels)
    ensures GpsRun(sentences, utc, labels).calls == []
    ensures GpsRun(sentences, utc, labels).end != Skip
  {
    if sentences != [] {
      GpsRunShape(sentences[1..], utc, labels);
    }
  }
}
