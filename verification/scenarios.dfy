/** A whole modem pass followed end to end. */
module Scenarios {
  import opened Outcomes
  import opened Strconv
  import opened ModemManager
  import opened Metrics
  import opened Pipeline
  import opened StageProperties
  import opened SweepProperties

  /**
   * A connected modem with no APN configured, location codes that read as `cell`, `lac`
   * and `tac`, no NMEA sentences and two signal samples: both state gauges are 1, the
   * three codes follow, then roaming and the operator code, then each signal series
   * twice, and the only calls are the signal bracket.
   */
  lemma ConnectedModemScenario(m: Modem, t: ThreeGpp, loc: CurrentLocation, cell: int, lac: int, tac: int,
                               s1: SignalSample, s2: SignalSample)
    requires m.state == Ok("Connected") && m.stateAfter == Ok("Connected")
    requires !IdentityFails(m) && m.threeGpp == Ok(t)
    requires m.stateFailedReason.Ok? && m.location == Ok(Location(Ok(loc)))
    requires ParseHexInt64(loc.cellId) == Some(cell) && ParseHexInt64(loc.lac) == Some(lac)
    requires ParseHexInt64(loc.tac) == Some(tac) && loc.sentences == []
    requires t.registrationState.Ok? && t.operatorCode.Ok?
    requires m.signal == Ok(Signal(Ok(()), Ok([s1, s2]), Ok(())))
    ensures var labels, r := LabelsOf(m), ModemRun(m, "");
      r.calls == [Setup(1), Sleep(2), Setup(0)] && r.end == Next
      && r.obs == [Gauge(Registered, labels, Exact(1)), Gauge(Connected, labels, Exact(1)),
                   Gauge(CellId, labels, Exact(cell)), Gauge(Lac, labels, Exact(lac)), Gauge(Tac, labels, Exact(tac))]
                  + RegistrationStage(t, labels).obs + SampleGauges(s1, labels) + SampleGauges(s2, labels)
  {
    var labels := LabelsOf(m);
    IdentifyIff(m);
    assert Identify(m) == Some(labels);
    var gauges := [Gauge(Registered, labels, Exact(1)), Gauge(Connected, labels, Exact(1))];
    var codes := [Gauge(CellId, labels, Exact(cell)), Gauge(Lac, labels, Exact(lac)), Gauge(Tac, labels, Exact(tac))];
    var rest := RegistrationStage(t, labels).obs + SampleGauges(s1, labels) + SampleGauges(s2, labels);
    ScenarioReport(m, t, loc, cell, lac, tac, s1, s2, labels);
    assert ReportStage(m, labels) == Run(codes + rest, [Setup(1), Sleep(2), Setup(0)], Next);
    assert EnableStage(m) == Empty;
    assert StateGauges("Connected", labels) == gauges;
    assert BearerStage(m, "Connected", "") == [];
    ModemRunCases(m, "");
    assert ModemRun(m, "") == Run(gauges + (codes + rest), [] + ([] + [Setup(1), Sleep(2), Setup(0)]), Next);
    Regroup(gauges, codes, RegistrationStage(t, labels).obs, SampleGauges(s1, labels), SampleGauges(s2, labels));
  }

  lemma Regroup(gauges: seq<Observation>, codes: seq<Observation>,
                reg: seq<Observation>, x: seq<Observation>, y: seq<Observation>)
    requires |gauges| == 2 && |codes| == 3
    ensures gauges + (codes + (reg + x + y)) == [gauges[0], gauges[1], codes[0], codes[1], codes[2]] + reg + x + y
  {
    assert gauges + codes == [gauges[0], gauges[1], codes[0], codes[1], codes[2]];
  }

  /** The reporting stages of that modem: codes, registration, both samples, the full bracket. */
  lemma ScenarioReport(m: Modem, t: ThreeGpp, loc: CurrentLocation, cell: int, lac: int, tac: int,
                       s1: SignalSample, s2: SignalSample, labels: Labels)
    requires m.threeGpp == Ok(t) && m.stateFailedReason.Ok? && m.location == Ok(Location(Ok(loc)))
    requires ParseHexInt64(loc.cellId) == Some(cell) && ParseHexInt64(loc.lac) == Some(lac)
    requires ParseHexInt64(loc.tac) == Some(tac) && loc.sentences == []
    requires t.registrationState.Ok? && t.operatorCode.Ok?
    requires m.signal == Ok(Signal(Ok(()), Ok([s1, s2]), Ok(())))
    ensures ReportStage(m, labels) ==
      Run([Gauge(CellId, labels, Exact(cell)), Gauge(Lac, labels, Exact(lac)), Gauge(Tac, labels, Exact(tac))]
          + (RegistrationStage(t, labels).obs + SampleGauges(s1, labels) + SampleGauges(s2, labels)),
          [Setup(1), Sleep(2), Setup(0)], Next)
  {
    var codes := [Gauge(CellId, labels, Exact(cell)), Gauge(Lac, labels, Exact(lac)), Gauge(Tac, labels, Exact(tac))];
    var reg, x, y := RegistrationStage(t, labels).obs, SampleGauges(s1, labels), SampleGauges(s2, labels);
    var bracket := [Setup(1), Sleep(2), Setup(0)];
    assert HexGauge(CellId, loc.cellId, labels) + HexGauge(Lac, loc.lac, labels) + HexGauge(Tac, loc.tac, labels) == codes;
    ThenEmpty(Run(codes, [], Next));
    assert LocationStage(loc, labels) == Run(codes, [], Next);
    RegistrationFacts(t, labels);
    assert RegistrationStage(t, labels) == Run(reg, [], Next);
    TwoSamples(s1, s2, labels);
    assert SignalStage(m.signal, labels) == Run(x + y, bracket, Next);
    ThreeStages(codes, reg, x, y, bracket);
  }

  lemma ThreeStages(a: seq<Observation>, b: seq<Observation>, c: seq<Observation>, d: seq<Observation>, k: seq<Call>)
    ensures Then(Then(Run(a, [], Next), Run(b, [], Next)), Run(c + d, k, Next)) == Run(a + (b + c + d), k, Next)
  {
    assert [] + [] + k == k;
    assert a + b + (c + d) == a + (b + c + d);
  }

  /** The location codes "1A2B", "0" and "FFFFFFFF" read as 6699, 0 and 4294967295; there is no fix. */
  lemma ScenarioCodes(utc: Float, labels: Labels)
    ensures LocationStage(CurrentLocation("1A2B", "0", "FFFFFFFF", [], utc), labels) ==
      Run([Gauge(CellId, labels, Exact(6699)), Gauge(Lac, labels, Exact(0)), Gauge(Tac, labels, Exact(4294967295))], [], Next)
  {
    HexExamples();
    HexAllOnes();
    CodesWithoutFix(CurrentLocation("1A2B", "0", "FFFFFFFF", [], utc), labels);
    ThreeCodes("1A2B", "0", "FFFFFFFF", 6699, 0, 4294967295, labels);
  }

  /** Three codes that each decode give one gauge each, in cell-id, LAC, TAC order. */
  lemma ThreeCodes(cellId: string, lac: string, tac: string, c: int, l: int, t: int, labels: Labels)
    requires ParseHexInt64(cellId) == Some(c) && ParseHexInt64(lac) == Some(l) && ParseHexInt64(tac) == Some(t)
    ensures HexGauge(CellId, cellId, labels) + HexGauge(Lac, lac, labels) + HexGauge(Tac, tac, labels) ==
      [Gauge(CellId, labels, Exact(c)), Gauge(Lac, labels, Exact(l)), Gauge(Tac, labels, Exact(t))]
  {
  }

  /** With no stored sentence, the location stage is just the three hex gauges. */
  lemma CodesWithoutFix(loc: CurrentLocation, labels: Labels)
    requires loc.sentences == []
    ensures LocationStage(loc, labels) ==
      Run(HexGauge(CellId, loc.cellId, labels) + HexGauge(Lac, loc.lac, labels) + HexGauge(Tac, loc.tac, labels), [], Next)
  {
  }

  /** Two samples give the five series of the first, then the five of the second. */
  lemma TwoSamples(s1: SignalSample, s2: SignalSample, labels: Labels)
    ensures SignalGauges([s1, s2], labels) == SampleGauges(s1, labels) + SampleGauges(s2, labels)
  {
    assert [s1][..0] == [];
    assert SignalGauges([s1], labels) == SampleGauges(s1, labels);
    assert [s1, s2][..1] == [s1];
  }
}
