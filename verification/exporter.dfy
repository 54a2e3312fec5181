/**
 * `Exporter.Collect` as the step-by-step code it is. Observations go out in channel
 * order and modem-changing calls are recorded in call order; each method is proved
 * to produce exactly the run the pipeline functions describe.
 */
module Exporter {
  import opened Outcomes
  import opened Text
  import opened Strconv
  import opened ModemManager
  import opened Metrics
  import opened Pipeline

  /** Tear down every listed bearer, then ask for a new one on `apn`. */
  method ResetBearers(bearers: seq<Bearer>, simple: Result<SimpleModem>, apn: string) returns (calls: seq<Call>)
    ensures calls == ResetCalls(bearers, simple, apn)
  {
    calls := [];
    var i := 0;
    while i < |bearers|
      invariant 0 <= i <= |bearers|
      invariant calls == BearerCalls(bearers[..i])
    {
      var bearer := bearers[i];
      calls := calls + [Disconnect(bearer.path)];
      calls := calls + [DeleteBearer(bearer.path)];
      // a failed delete is logged and the loop goes on with the next bearer
      assert bearers[..i + 1][..i] == bearers[..i];
      i := i + 1;
    }
    assert bearers[..i] == bearers;
    if simple.Ok? {
      // the new bearer, or the error, is only printed
      calls := calls + [Connect(apn)];
    }
  }

  /** Visit the NMEA sentences from the last to the first; a GGA emits a fix, a parse error is fatal. */
  method ScanNmea(sentences: seq<Sentence>, utc: Float, labels: Labels) returns (obs: seq<Observation>, fatal: bool)
    ensures obs == GpsRun(sentences, utc, labels).obs
    ensures fatal <==> GpsRun(sentences, utc, labels).end == Fatal
  {
    obs, fatal := [], false;
    var i := |sentences| - 1;
    while i >= 0
      invariant -1 <= i < |sentences|
      invariant GpsRun(sentences[i + 1..], utc, labels) == Run(obs, [], Next)
    {
      assert sentences[i..][1..] == sentences[i + 1..];
      match sentences[i] {
        case ParseError =>
          // log.Fatal: the process ends here
          GpsAppend(sentences[..i], sentences[i..], utc, labels);
          assert sentences[..i] + sentences[i..] == sentences;
          fatal := true;
          return;
        case GGA(latitude, longitude, altitude) =>
          obs := obs + [Gauge(TimeFix, labels, Reading(utc))];
          obs := obs + [Gauge(Lat, labels, Reading(latitude))];
          obs := obs + [Gauge(Lon, labels, Reading(longitude))];
          obs := obs + [Gauge(Alt, labels, Reading(altitude))];
        case OtherType =>
      }
      i := i - 1;
    }
    assert sentences[0..] == sentences;
  }

  /** Emit rssi, rsrp, snr, sinr and rsrq for every sample, in sample order. */
  method EmitSignals(samples: seq<SignalSample>, labels: Labels) returns (obs: seq<Observation>)
    ensures obs == SignalGauges(samples, labels)
  {
    obs := [];
    for i := 0 to |samples|
      invariant obs == SignalGauges(samples[..i], labels)
    {
      var sp := samples[i];
      obs := obs + [Gauge(Rssi, labels, Reading(sp.rssi))];
      obs := obs + [Gauge(Rsrp, labels, Reading(sp.rsrp))];
      obs := obs + [Gauge(Snr, labels, Reading(sp.snr))];
      obs := obs + [Gauge(Sinr, labels, Reading(sp.sinr))];
      obs := obs + [Gauge(Rsrq, labels, Reading(sp.rsrq))];
      assert samples[..i + 1][..i] == samples[..i];
    }
    assert samples[..|samples|] == samples;
  }

  /** `strconv.ParseInt(digits, 16, 64)`, and one observation when it succeeds (the error is logged). */
  method EmitHex(metric: Metric, digits: string, labels: Labels) returns (obs: seq<Observation>)
    ensures obs == HexGauge(metric, digits, labels)
  {
    obs := [];
    var decoded := ParseHexInt64(digits);
    if decoded.Some? {
      obs := obs + [Gauge(metric, labels, Exact(decoded.value))];
    }
  }

  /** Location: cell id, LAC and TAC each when it decodes, then the NMEA scan. */
  method ReportLocation(mloc: CurrentLocation, labels: Labels) returns (obs: seq<Observation>, fatal: bool)
    ensures obs == LocationStage(mloc, labels).obs
    ensures LocationStage(mloc, labels).calls == []
    ensures LocationStage(mloc, labels).end != Skip
    ensures fatal <==> LocationStage(mloc, labels).end == Fatal
  {
    var cellIdObs := EmitHex(CellId, mloc.cellId, labels);
    var lacObs := EmitHex(Lac, mloc.lac, labels);
    var tacObs := EmitHex(Tac, mloc.tac, labels);
    obs := cellIdObs + lacObs + tacObs;
    var gpsObs;
    gpsObs, fatal := ScanNmea(mloc.sentences, mloc.utcTime, labels);
    GpsRunShape(mloc.sentences, mloc.utcTime, labels);
    obs := obs + gpsObs;
  }

  /** Roaming from the registration state, then the operator code when it reads as a number. */
  method ReportRegistration(modem3gpp: ThreeGpp, labels: Labels) returns (obs: seq<Observation>, skip: bool)
    ensures obs == RegistrationStage(modem3gpp, labels).obs
    ensures RegistrationStage(modem3gpp, labels).calls == []
    ensures skip <==> RegistrationStage(modem3gpp, labels).end == Skip
    ensures RegistrationStage(modem3gpp, labels).end != Fatal
  {
    obs, skip := [], true;
    var regState := modem3gpp.registrationState;
    if regState.Err? { return; }
    var isRoaming := regState.value == "Roaming";
    obs := obs + [Gauge(Roaming, labels, if isRoaming then Exact(1) else Exact(0))];
    var opCode := modem3gpp.operatorCode;
    if opCode.Err? { return; }
    var code := ParseDecimal(opCode.value);
    if code.Some? {
      obs := obs + [Gauge(OperatorCode, labels, Exact(code.value))];
    }
    skip := false;
  }

  /** Signal: refresh on, wait, read and emit every sample, refresh off. */
  method SampleSignal(signal: Result<Signal>, labels: Labels) returns (obs: seq<Observation>, calls: seq<Call>)
    ensures obs == SignalStage(signal, labels).obs
    ensures calls == SignalStage(signal, labels).calls
  {
    obs, calls := [], [];
    if signal.Err? { return; }
    var modemSignal := signal.value;
    calls := calls + [Setup(1)];
    if modemSignal.enableRefresh.Err? { return; }
    calls := calls + [Sleep(2)];
    if modemSignal.current.Err? { return; }
    obs := EmitSignals(modemSignal.current.value, labels);
    calls := calls + [Setup(0)];
    // a failed Setup(0) is logged; it is the last step of the modem either way
  }

  /** The reporting steps of one modem, once its labels are known. */
  method ReportModem(m: Modem, modem3gpp: ThreeGpp, labels: Labels) returns (obs: seq<Observation>, calls: seq<Call>, fatal: bool)
    requires m.threeGpp == Ok(modem3gpp)
    ensures obs == ReportStage(m, labels).obs
    ensures calls == ReportStage(m, labels).calls
    ensures fatal <==> ReportStage(m, labels).end == Fatal
  {
    obs, calls, fatal := [], [], false;
    if m.stateFailedReason.Err? { return; }
    if m.location.Err? { return; }
    var modemLocation := m.location.value;
    if modemLocation.current.Err? { return; }
    var mloc := modemLocation.current.value;

    obs, fatal := ReportLocation(mloc, labels);
    if fatal { return; }

    var registrationObs, skip := ReportRegistration(modem3gpp, labels);
    obs := obs + registrationObs;
    if skip { return; }

    var signalObs, signalCalls := SampleSignal(m.signal, labels);
    obs := obs + signalObs;
    calls := calls + signalCalls;
  }

  /** Read the SIM, 3GPP and access-technology properties that become the labels of every series. */
  method ReadIdentity(m: Modem) returns (labels: Option<Labels>)
    ensures labels == Identify(m)
  {
    labels := None;
    if m.sim.Err? { return; }
    var sim := m.sim.value;
    if sim.identifier.Err? { return; }
    var simIdent := sim.identifier.value;
    if sim.imsi.Err? { return; }
    var simImsi := sim.imsi.value;
    if sim.operatorIdentifier.Err? { return; }
    var simOpIdent := sim.operatorIdentifier.value;
    if sim.operatorName.Err? { return; }
    var simOp := sim.operatorName.value;

    if m.threeGpp.Err? { return; }
    var modem3gpp := m.threeGpp.value;
    if modem3gpp.imei.Err? { return; }
    var imei := modem3gpp.imei.value;
    if modem3gpp.operatorName.Err? { return; }
    var opName := modem3gpp.operatorName.value;

    if m.accessTechnologies.Err? { return; }
    var ratList := m.accessTechnologies.value;
    if |ratList| != 1 { return; }
    var rat := LowerAscii(ratList[0]);
    labels := Some(Labels(imei, simIdent, simImsi, simOpIdent, simOp, opName, rat));
  }

  /** A registered modem with an APN configured gets its bearers rebuilt. */
  method ResetIfRegistered(m: Modem, state: string, apn: string) returns (calls: seq<Call>)
    ensures calls == BearerStage(m, state, apn)
  {
    calls := [];
    if state == "Registered" {
      if apn != "" {
        calls := ResetBearers(m.bearers, m.simple, apn);
      }
    }
  }

  /** The registered and connected gauges from the re-read state. */
  method ReportState(state: string, labels: Labels) returns (obs: seq<Observation>)
    ensures obs == StateGauges(state, labels)
  {
    var isRegistered := state == "Registered" || state == "Connected";
    obs := [Gauge(Registered, labels, if isRegistered then Exact(1) else Exact(0))];
    var isConnected := state == "Connected";
    obs := obs + [Gauge(Connected, labels, if isConnected then Exact(1) else Exact(0))];
  }

  /** Everything after the enable step: labels, re-read state, bearers, gauges, report. */
  method ReportIdentified(m: Modem, apn: string) returns (obs: seq<Observation>, calls: seq<Call>, fatal: bool)
    ensures obs == IdentifiedRun(m, apn).obs
    ensures calls == IdentifiedRun(m, apn).calls
    ensures fatal <==> IdentifiedRun(m, apn).end == Fatal
  {
    obs, calls, fatal := [], [], false;
    var labels := ReadIdentity(m);
    if labels.None? { return; }
    var modem3gpp := m.threeGpp.value;

    var state := m.stateAfter;
    if state.Err? { return; }
    calls := ResetIfRegistered(m, state.value, apn);
    obs := ReportState(state.value, labels.value);

    var reportObs, reportCalls;
    reportObs, reportCalls, fatal := ReportModem(m, modem3gpp, labels.value);
    obs := obs + reportObs;
    calls := calls + reportCalls;
  }

  /** The first state read: a "Disabled" modem is enabled; `ok` is false when the modem is to be skipped. */
  method EnableIfDisabled(m: Modem) returns (calls: seq<Call>, ok: bool)
    ensures EnableStage(m) == Run([], calls, if ok then Next else Skip)
  {
    calls, ok := [], false;
    var state := m.state;
    if state.Err? { return; }
    if state.value == "Disabled" {
      calls := calls + [Enable];
      if m.enable.Err? { return; }
    }
    ok := true;
  }

  /**
   * One pass of the modem loop. Each early `return` is a `continue` of that loop
   * (the error is only logged); `fatal` is `log.Fatal` ending the process.
   */
  method CollectModem(m: Modem, apn: string) returns (obs: seq<Observation>, calls: seq<Call>, fatal: bool)
    ensures Settle(ModemRun(m, apn)) == Run(obs, calls, if fatal then Fatal else Next)
  {
    var ok;
    obs, fatal := [], false;
    calls, ok := EnableIfDisabled(m);
    if !ok { return; }
    var identifiedObs, identifiedCalls;
    identifiedObs, identifiedCalls, fatal := ReportIdentified(m, apn);
    obs := identifiedObs;
    calls := calls + identifiedCalls;
  }

  /** The modem loop: every modem in order until one of them is fatal. */
  method CollectModems(ms: seq<Modem>, apn: string) returns (obs: seq<Observation>, calls: seq<Call>, fatal: bool)
    ensures Runs(ms, apn) == Run(obs, calls, if fatal then Fatal else Next)
  {
    obs, calls, fatal := [], [], false;
    var i := 0;
    while i < |ms|
      invariant 0 <= i <= |ms|
      invariant Runs(ms[..i], apn) == Run(obs, calls, Next)
    {
      var modemObs, modemCalls, modemFatal := CollectModem(ms[i], apn);
      var step := Run(modemObs, modemCalls, if modemFatal then Fatal else Next);
      if modemFatal {
        RunsStepFatal(ms, i, apn, Run(obs, calls, Next), step);
      } else {
        RunsStepNext(ms, i, apn, Run(obs, calls, Next), step);
      }
      obs := obs + modemObs;
      calls := calls + modemCalls;
      if modemFatal {
        fatal := true;
        return;
      }
      i := i + 1;
    }
    assert ms[..i] == ms;
  }

  /**
   * `Collect`: list the modems, emit `up`, then run every modem in order. A modem
   * that skips lets the next one run; a fatal one ends the scrape where it is.
   */
  method Collect(modems: Result<seq<Modem>>, apn: string) returns (obs: seq<Observation>, calls: seq<Call>, fatal: bool)
    ensures Scrape(obs, calls, fatal) == Sweep(modems, apn)
  {
    obs, calls, fatal := [], [], false;
    if modems.Err? { return; }
    obs := [UpObservation];
    var modemsObs;
    modemsObs, calls, fatal := CollectModems(modems.value, apn);
    obs := obs + modemsObs;
  }
}
