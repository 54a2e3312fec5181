/**
 * What one modem's pass and the whole scrape promise: which failures silence a modem,
 * what the state gauges and labels are, when the bearers are rebuilt, what a late
 * failure keeps, and how modems in the list affect one another.
 */
module SweepProperties {
  import opened Outcomes
  import opened Text
  import opened ModemManager
  import opened Metrics
  import opened Pipeline
  import opened StageProperties

  /** Some identity getter fails, or the modem does not report exactly one access technology. */
  predicate IdentityFails(m: Modem) {
    m.sim.Err? || m.sim.value.identifier.Err? || m.sim.value.imsi.Err?
    || m.sim.value.operatorIdentifier.Err? || m.sim.value.operatorName.Err?
    || m.threeGpp.Err? || m.threeGpp.value.imei.Err? || m.threeGpp.value.operatorName.Err?
    || m.accessTechnologies.Err? || |m.accessTechnologies.value| != 1
  }

  /** The failures before the state gauges: the modem is dropped without a single observation. */
  predicate Silent(m: Modem) {
    m.state.Err? || (m.state.value == "Disabled" && m.enable.Err?) || IdentityFails(m) || m.stateAfter.Err?
  }

  /** The labels a modem that is not silent reports under, straight from its getters. */
  function LabelsOf(m: Modem): Labels
    requires !IdentityFails(m)
  {
    Labels(m.threeGpp.value.imei.value, m.sim.value.identifier.value, m.sim.value.imsi.value,
           m.sim.value.operatorIdentifier.value, m.sim.value.operatorName.value,
           m.threeGpp.value.operatorName.value, LowerAscii(m.accessTechnologies.value[0]))
  }

  /** `Enable` is attempted exactly when the first state read answers "Disabled". */
  function EnableCalls(m: Modem): seq<Call> {
    if m.state.Ok? && m.state.value == "Disabled" then [Enable] else []
  }

  /** The reporting stages get to run: failure reason, location object and current location all answer. */
  predicate ReportGatesOpen(m: Modem) {
    m.stateFailedReason.Ok? && m.location.Ok? && m.location.value.current.Ok?
  }

  /** Every observation is a labelled gauge under `labels`, never `up`. */
  predicate Reported(obs: seq<Observation>, labels: Labels) {
    forall k :: 0 <= k < |obs| ==> obs[k].labels == Some(labels) && obs[k].metric != Up
  }

  /** Seen from the modem loop, a last stage that only differs in skipping or finishing changes nothing. */
  lemma SettleThen(a: Run, z1: Run, z2: Run)
    requires Settle(z1) == Settle(z2)
    ensures Settle(Then(a, z1)) == Settle(Then(a, z2))
  {
  }

  /** The bearer reset only disconnects and deletes bearers, and connects. */
  lemma BearerMembers(bearers: seq<Bearer>, simple: Result<SimpleModem>, apn: string)
    ensures forall c :: c in ResetCalls(bearers, simple, apn) ==> c.Disconnect? || c.DeleteBearer? || c == Connect(apn)
    ensures forall b :: b in bearers ==>
      Disconnect(b.path) in ResetCalls(bearers, simple, apn) && DeleteBearer(b.path) in ResetCalls(bearers, simple, apn)
    ensures Connect(apn) in ResetCalls(bearers, simple, apn) <==> simple.Ok?
  {
    ResetOrder(bearers, simple, apn);
    BearerCallsAt(bearers);
    var calls := BearerCalls(bearers);
    forall b | b in bearers
      ensures Disconnect(b.path) in calls && DeleteBearer(b.path) in calls
    {
      var k :| 0 <= k < |bearers| && bearers[k] == b;
      assert calls[2 * k] == Disconnect(b.path);
      assert calls[2 * k + 1] == DeleteBearer(b.path);
    }
    if simple.Ok? {
      assert ResetCalls(bearers, simple, apn)[2 * |bearers|] == Connect(apn);
    }
  }

  // ----- identity -------------------------------------------------------------------------

  lemma IdentifyIff(m: Modem)
    ensures Identify(m).None? <==> IdentityFails(m)
    ensures Identify(m).Some? ==> Identify(m).value == LabelsOf(m)
  {
  }

  // ----- labels of everything a modem emits -------------------------------------------

  lemma ReportedConcat(a: seq<Observation>, b: seq<Observation>, labels: Labels)
    requires Reported(a, labels) && Reported(b, labels)
    ensures Reported(a + b, labels)
  {
  }

  lemma {:induction false} SignalReported(samples: seq<SignalSample>, labels: Labels)
    ensures Reported(SignalGauges(samples, labels), labels)
  {
    if samples != [] {
      SignalReported(samples[..|samples| - 1], labels);
    }
  }

  lemma LocationReported(loc: CurrentLocation, labels: Labels)
    ensures Reported(LocationStage(loc, labels).obs, labels)
  {
    GpsObservations(loc.sentences, loc.utcTime, labels);
    var hex := HexGauge(CellId, loc.cellId, labels) + HexGauge(Lac, loc.lac, labels) + HexGauge(Tac, loc.tac, labels);
    ReportedConcat(hex, GpsRun(loc.sentences, loc.utcTime, labels).obs, labels);
  }

  lemma SignalStageReported(signal: Result<Signal>, labels: Labels)
    ensures Reported(SignalStage(signal, labels).obs, labels)
  {
    if signal.Ok? && signal.value.current.Ok? {
      SignalReported(signal.value.current.value, labels);
    }
  }

  lemma ReportReported(m: Modem, labels: Labels)
    ensures Reported(ReportStage(m, labels).obs, labels)
  {
    match (m.stateFailedReason, m.location, m.threeGpp)
    case (Ok(_), Ok(Location(Ok(loc))), Ok(t)) =>
      LocationReported(loc, labels);
      SignalStageReported(m.signal, labels);
      var first := Then(LocationStage(loc, labels), RegistrationStage(t, labels));
      ReportedConcat(LocationStage(loc, labels).obs, RegistrationStage(t, labels).obs, labels);
      ReportedConcat(first.obs, SignalStage(m.signal, labels).obs, labels);
    case _ =>
  }

  /** The reporting stages make no call but the signal bracket. */
  lemma ReportCalls(m: Modem, labels: Labels)
    ensures ReportStage(m, labels).calls <= [Setup(1), Sleep(2), Setup(0)]
  {
    match (m.stateFailedReason, m.location, m.threeGpp)
    case (Ok(_), Ok(Location(Ok(loc))), Ok(t)) =>
      GpsRunShape(loc.sentences, loc.utcTime, labels);
      RegistrationFacts(t, labels);
      SignalBracket(m.signal, labels);
    case _ =>
  }

  /** Everything a modem emits carries that modem's labels, and none of it is `up`. */
  lemma ModemReported(m: Modem, apn: string)
    ensures ModemRun(m, apn).obs != [] ==> !IdentityFails(m) && Reported(ModemRun(m, apn).obs, LabelsOf(m))
  {
    ModemRunCases(m, apn);
    IdentifyIff(m);
    if Identify(m).Some? {
      ReportReported(m, LabelsOf(m));
    }
  }

  // ----- one modem ----------------------------------------------------------------------

  /**
   * A modem emits nothing exactly when it is silent, and then it only skips: the
   * next modem still runs. The only call it may have made is the `Enable`.
   */
  lemma SilentIff(m: Modem, apn: string)
    ensures ModemRun(m, apn).obs == [] <==> Silent(m)
    ensures Silent(m) ==> ModemRun(m, apn) == Run([], EnableCalls(m), Skip)
  {
    ModemRunCases(m, apn);
    IdentifyIff(m);
  }

  /**
   * Once past the failures that silence it, a modem first emits `registered` (1 for
   * "Registered" or "Connected") and then `connected` (1 for "Connected"), from the
   * second state read, under the labels of its getters with the technology lower-cased.
   */
  lemma StateGaugesFirst(m: Modem, apn: string)
    requires !Silent(m)
    ensures var obs, state := ModemRun(m, apn).obs, m.stateAfter.value;
      |obs| >= 2
      && obs[0] == Observation(Registered, Some(LabelsOf(m)), Exact(if state == "Registered" || state == "Connected" then 1 else 0))
      && obs[1] == Observation(Connected, Some(LabelsOf(m)), Exact(if state == "Connected" then 1 else 0))
      && obs[0].labels.value.rat == LowerAscii(m.accessTechnologies.value[0])
  {
    ModemRunCases(m, apn);
    IdentifyIff(m);
  }

  /**
   * The first state read decides only whether `Enable` is called: two modems that
   * differ only there, and both get through it, emit the same and end the same.
   */
  lemma FirstReadOnlyEnables(m: Modem, state: Result<string>, enable: Result<()>, apn: string)
    requires m.state.Ok? && (m.state.value != "Disabled" || m.enable.Ok?)
    requires state.Ok? && (state.value != "Disabled" || enable.Ok?)
    ensures var m' := m.(state := state, enable := enable);
      ModemRun(m', apn).obs == ModemRun(m, apn).obs && ModemRun(m', apn).end == ModemRun(m, apn).end
      && ModemRun(m', apn).calls == EnableCalls(m') + IdentifiedRun(m, apn).calls
  {
    var m' := m.(state := state, enable := enable);
    assert Identify(m') == Identify(m);
    if Identify(m).Some? && m.stateAfter.Ok? {
      assert ReportStage(m', Identify(m).value) == ReportStage(m, Identify(m).value);
      assert BearerStage(m', m.stateAfter.value, apn) == BearerStage(m, m.stateAfter.value, apn);
    }
    assert IdentifiedRun(m', apn) == IdentifiedRun(m, apn);
  }

  /**
   * The calls of a modem that gets to its gauges: the `Enable` if there was one, the
   * bearer reset when the second read says "Registered" and an APN is set, and the
   * signal bracket.
   */
  lemma ModemCalls(m: Modem, apn: string)
    requires !Silent(m)
    ensures var calls := ModemRun(m, apn).calls;
      calls == EnableCalls(m) + BearerStage(m, m.stateAfter.value, apn) + ReportStage(m, LabelsOf(m)).calls
      && ReportStage(m, LabelsOf(m)).calls <= [Setup(1), Sleep(2), Setup(0)]
  {
    ModemRunCases(m, apn);
    IdentifyIff(m);
    ReportCalls(m, LabelsOf(m));
  }

  /** The bearer-related calls of a modem are exactly those of its bearer reset. */
  lemma BearerCallsOfModem(m: Modem, apn: string)
    requires !Silent(m)
    ensures forall c: Call :: c.Disconnect? || c.DeleteBearer? || c.Connect? ==>
      (c in ModemRun(m, apn).calls <==> c in BearerStage(m, m.stateAfter.value, apn))
  {
    ModemCalls(m, apn);
    BearerOnlyInReset(EnableCalls(m), BearerStage(m, m.stateAfter.value, apn), ReportStage(m, LabelsOf(m)).calls);
  }

  /**
   * `Connect(apn)` is asked for exactly when the second read says "Registered", an
   * APN is set and the simple-connect object answers.
   */
  lemma ConnectIff(m: Modem, apn: string)
    requires !Silent(m)
    ensures Connect(apn) in ModemRun(m, apn).calls <==>
      m.stateAfter.value == "Registered" && apn != "" && m.simple.Ok?
  {
    BearerCallsOfModem(m, apn);
    BearerMembers(m.bearers, m.simple, apn);
  }

  /**
   * Every listed bearer is disconnected and deleted when the second read says
   * "Registered" and an APN is set; otherwise no bearer is touched and nothing is connected.
   */
  lemma BearersTornDown(m: Modem, apn: string)
    requires !Silent(m)
    ensures forall b :: b in m.bearers && m.stateAfter.value == "Registered" && apn != "" ==>
      Disconnect(b.path) in ModemRun(m, apn).calls && DeleteBearer(b.path) in ModemRun(m, apn).calls
    ensures (m.stateAfter.value != "Registered" || apn == "") ==>
      forall c :: c in ModemRun(m, apn).calls ==> !c.Disconnect? && !c.DeleteBearer? && !c.Connect?
  {
    BearerCallsOfModem(m, apn);
    BearerMembers(m.bearers, m.simple, apn);
  }

  /** Around the bearer reset there are only `Enable`, `Setup` and `Sleep` calls. */
  lemma BearerOnlyInReset(enable: seq<Call>, bearer: seq<Call>, report: seq<Call>)
    requires forall c :: c in enable ==> c.Enable?
    requires report <= [Setup(1), Sleep(2), Setup(0)]
    ensures forall c: Call :: c.Disconnect? || c.DeleteBearer? || c.Connect? ==> (c in enable + bearer + report <==> c in bearer)
  {
    assert forall c :: c in report ==> c in [Setup(1), Sleep(2), Setup(0)];
  }

  /**
   * The bearer reset never changes what a modem emits or how it ends: bearer
   * failures, the simple-connect object and the APN are invisible in the observations.
   */
  lemma BearersInvisible(m: Modem, bearers: seq<Bearer>, simple: Result<SimpleModem>, apn: string, apn': string)
    ensures var m' := m.(bearers := bearers, simple := simple);
      ModemRun(m', apn').obs == ModemRun(m, apn).obs && ModemRun(m', apn').end == ModemRun(m, apn).end
  {
    var m' := m.(bearers := bearers, simple := simple);
    assert Identify(m') == Identify(m);
    assert EnableStage(m') == EnableStage(m);
    if Identify(m).Some? {
      assert ReportStage(m', Identify(m).value) == ReportStage(m, Identify(m).value);
    }
  }

  /**
   * A failure of the failure-reason, location or current-location fetch drops the
   * rest of the modem but keeps the two state gauges already sent.
   */
  lemma ReportGatesKeepGauges(m: Modem, apn: string)
    requires !Silent(m) && !ReportGatesOpen(m)
    ensures ModemRun(m, apn).obs == StateGauges(m.stateAfter.value, LabelsOf(m))
    ensures ModemRun(m, apn).end == Skip
  {
    ModemRunCases(m, apn);
    IdentifyIff(m);
  }

  /**
   * A failed fetch of the registration state or of the operator code drops the rest
   * of the modem: the signal object is never touched.
   */
  lemma RegistrationFailureSkipsSignal(m: Modem, apn: string)
    requires !Silent(m) && ReportGatesOpen(m)
    requires m.threeGpp.value.registrationState.Err? || m.threeGpp.value.operatorCode.Err?
    ensures ModemRun(m, apn).calls == EnableCalls(m) + BearerStage(m, m.stateAfter.value, apn)
    ensures ModemRun(m, apn).end != Next
  {
    ModemCalls(m, apn);
    var labels, loc := LabelsOf(m), m.location.value.current.value;
    GpsRunShape(loc.sentences, loc.utcTime, labels);
    RegistrationFacts(m.threeGpp.value, labels);
    assert ReportStage(m, labels) == Then(LocationStage(loc, labels), RegistrationStage(m.threeGpp.value, labels));
  }

  /** A modem ends the process exactly when its location gets read and one of its NMEA sentences does not parse. */
  lemma ModemFatalIff(m: Modem, apn: string)
    ensures ModemRun(m, apn).end == Fatal <==>
      !Silent(m) && ReportGatesOpen(m) && ParseError in m.location.value.current.value.sentences
  {
    ModemRunCases(m, apn);
    IdentifyIff(m);
    if !Silent(m) && ReportGatesOpen(m) {
      var loc := m.location.value.current.value;
      GpsFatalIff(loc.sentences, loc.utcTime, LabelsOf(m));
      GpsRunShape(loc.sentences, loc.utcTime, LabelsOf(m));
      RegistrationFacts(m.threeGpp.value, LabelsOf(m));
      SignalBracket(m.signal, LabelsOf(m));
    }
  }

  /**
   * A failed signal step never retracts: what a modem emits with its signal object
   * failing is a prefix of what it emits with any signal object.
   */
  lemma SignalFailureKeepsPrefix(m: Modem, signal: Result<Signal>, apn: string)
    ensures ModemRun(m.(signal := Err), apn).obs <= ModemRun(m.(signal := signal), apn).obs
    ensures ModemRun(m.(signal := Err), apn).end != Next
  {
    var failed, any := m.(signal := Err), m.(signal := signal);
    assert Identify(failed) == Identify(any) == Identify(m);
    assert EnableStage(failed) == EnableStage(any);
    if Identify(m).Some? && m.stateAfter.Ok? {
      var labels := Identify(m).value;
      match (m.stateFailedReason, m.location, m.threeGpp)
      case (Ok(_), Ok(Location(Ok(loc))), Ok(t)) =>
        var before := Then(LocationStage(loc, labels), RegistrationStage(t, labels));
        assert ReportStage(failed, labels) == Then(before, SignalStage(Err, labels));
        assert ReportStage(any, labels) == Then(before, SignalStage(signal, labels));
      case _ =>
    }
  }

  /**
   * `Setup(0)` is the last step of a modem, so its failure is invisible to the scrape:
   * seen from the modem loop the run is the same whether it fails or not.
   */
  lemma DisableRefreshInvisible(m: Modem, s: Signal, apn: string)
    ensures Settle(ModemRun(m.(signal := Ok(s.(disableRefresh := Err))), apn))
         == Settle(ModemRun(m.(signal := Ok(s.(disableRefresh := Ok(())))), apn))
  {
    var failed, succeeded := m.(signal := Ok(s.(disableRefresh := Err))), m.(signal := Ok(s.(disableRefresh := Ok(()))));
    assert Identify(failed) == Identify(succeeded) == Identify(m);
    assert EnableStage(failed) == EnableStage(succeeded);
    if Identify(m).Some? && m.stateAfter.Ok? {
      var labels := Identify(m).value;
      var gauges := Run(StateGauges(m.stateAfter.value, labels), BearerStage(m, m.stateAfter.value, apn), Next);
      match (m.stateFailedReason, m.location, m.threeGpp)
      case (Ok(_), Ok(Location(Ok(loc))), Ok(t)) =>
        var before := Then(LocationStage(loc, labels), RegistrationStage(t, labels));
        SettleThen(before, SignalStage(failed.signal, labels), SignalStage(succeeded.signal, labels));
        assert Settle(ReportStage(failed, labels)) == Settle(ReportStage(succeeded, labels));
        SettleThen(gauges, ReportStage(failed, labels), ReportStage(succeeded, labels));
      case _ =>
    }
    SettleThen(EnableStage(m), IdentifiedRun(failed, apn), IdentifiedRun(succeeded, apn));
  }

  // ----- the scrape ----------------------------------------------------------------------

  lemma {:induction false} RunsReported(modems: seq<Modem>, apn: string)
    ensures forall k :: 0 <= k < |Runs(modems, apn).obs| ==>
      Runs(modems, apn).obs[k].metric != Up && Runs(modems, apn).obs[k].labels.Some?
  {
    if modems != [] {
      var init, last := modems[..|modems| - 1], modems[|modems| - 1];
      RunsReported(init, apn);
      ModemReported(last, apn);
    }
  }

  /**
   * A failed modem listing emits nothing, not even `up`; otherwise `up` comes first
   * with value 1 and never again, and everything after it is a labelled gauge.
   */
  lemma UpExactlyOnce(modems: Result<seq<Modem>>, apn: string)
    ensures modems.Err? ==> Sweep(modems, apn) == Scrape([], [], false)
    ensures modems.Ok? ==>
      var obs := Sweep(modems, apn).observations;
      |obs| >= 1 && obs[0] == Observation(Up, None, Exact(1))
      && forall k :: 1 <= k < |obs| ==> obs[k].metric != Up && obs[k].labels.Some?
  {
    if modems.Ok? {
      RunsReported(modems.value, apn);
    }
  }

  /** The scrape never ends by skipping: modems that skip hand over to the next one. */
  lemma SweepNeverSkips(modems: seq<Modem>, apn: string)
    ensures Runs(modems, apn).end == Next <==> !Sweep(Ok(modems), apn).fatal
  {
    RunsEnd(modems, apn);
  }

  /**
   * A modem that does not end the process is processed on its own: the modems
   * before it, then its own run, then the modems after it.
   */
  lemma ModemInSweep(before: seq<Modem>, m: Modem, after: seq<Modem>, apn: string)
    requires Runs(before, apn).end == Next && ModemRun(m, apn).end != Fatal
    ensures Runs(before + [m] + after, apn).obs == Runs(before, apn).obs + ModemRun(m, apn).obs + Runs(after, apn).obs
    ensures Runs(before + [m] + after, apn).calls == Runs(before, apn).calls + ModemRun(m, apn).calls + Runs(after, apn).calls
    ensures Runs(before + [m] + after, apn).end == Runs(after, apn).end
  {
    ModemSlot(before, m, after, apn);
  }

  /** A silent modem changes neither what the scrape emits nor whether it is fatal. */
  lemma SilentModemTransparent(before: seq<Modem>, m: Modem, after: seq<Modem>, apn: string)
    requires Silent(m)
    ensures Runs(before + [m] + after, apn).obs == Runs(before + after, apn).obs
    ensures Runs(before + [m] + after, apn).end == Runs(before + after, apn).end
  {
    SilentIff(m, apn);
    ModemSlot(before, m, after, apn);
    RunsAppend(before, after, apn);
    QuietSlot(Runs(before, apn), Settle(ModemRun(m, apn)), Runs(after, apn));
  }

  /** The sweep over a list with one modem singled out. */
  lemma ModemSlot(before: seq<Modem>, m: Modem, after: seq<Modem>, apn: string)
    ensures Runs(before + [m] + after, apn) == Then(Then(Runs(before, apn), Settle(ModemRun(m, apn))), Runs(after, apn))
  {
    RunsAppend(before + [m], after, apn);
    RunsAppend(before, [m], apn);
    assert [m][..0] == [];
    ThenEmpty(Settle(ModemRun(m, apn)));
  }

  /** A stage that emits nothing and goes on leaves the observations and the ending of its neighbours alone. */
  lemma QuietSlot(a: Run, quiet: Run, b: Run)
    requires quiet.obs == [] && quiet.end == Next
    ensures Then(Then(a, quiet), b).obs == Then(a, b).obs
    ensures Then(Then(a, quiet), b).end == Then(a, b).end
  {
    assert a.obs + [] == a.obs;
  }

  /** A fatal modem ends the scrape: nothing from the modems after it is emitted or called. */
  lemma FatalStopsSweep(before: seq<Modem>, m: Modem, after: seq<Modem>, apn: string)
    requires Runs(before, apn).end == Next && ModemRun(m, apn).end == Fatal
    ensures Runs(before + [m] + after, apn) ==
      Run(Runs(before, apn).obs + ModemRun(m, apn).obs, Runs(before, apn).calls + ModemRun(m, apn).calls, Fatal)
  {
    ModemSlot(before, m, after, apn);
  }
}
