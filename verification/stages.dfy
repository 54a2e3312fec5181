/**
 * What each stage of one modem's pipeline promises on its own: the NMEA scan, the
 * signal sampling, the bearer reset, the hexadecimal location codes and the
 * registration stage.
 */
module StageProperties {
  import opened Outcomes
  import opened Text
  import opened Strconv
  import opened ModemManager
  import opened Metrics
  import opened Pipeline

  // ----- the NMEA scan ------------------------------------------------------------------

  /** The number of GGA sentences in a log. */
  function CountGga(sentences: seq<Sentence>): nat {
    if sentences == [] then 0
    else CountGga(sentences[1..]) + (if sentences[0].GGA? then 1 else 0)
  }

  /** An observation the scan may emit: a fix gauge with the modem's labels, its time always `utc`. */
  predicate FixObservation(o: Observation, utc: Float, labels: Labels) {
    o.labels == Some(labels)
    && (o.metric == TimeFix || o.metric == Lat || o.metric == Lon || o.metric == Alt)
    && (o.metric == TimeFix ==> o.value == Reading(utc))
  }

  /** The scan is fatal exactly when some sentence does not parse. */
  lemma {:induction false} GpsFatalIff(sentences: seq<Sentence>, utc: Float, labels: Labels)
    ensures GpsRun(sentences, utc, labels).end == Fatal <==> ParseError in sentences
  {
    if sentences != [] {
      GpsFatalIff(sentences[1..], utc, labels);
      GpsRunShape(sentences[1..], utc, labels);
      assert sentences == [sentences[0]] + sentences[1..];
    }
  }

  /** Without a parse error, every GGA sentence emits its four gauges and the scan goes on. */
  lemma {:induction false} GpsCount(sentences: seq<Sentence>, utc: Float, labels: Labels)
    requires ParseError !in sentences
    ensures GpsRun(sentences, utc, labels).end == Next
    ensures |GpsRun(sentences, utc, labels).obs| == 4 * CountGga(sentences)
  {
    if sentences != [] {
      assert sentences == [sentences[0]] + sentences[1..];
      GpsCount(sentences[1..], utc, labels);
    }
  }

  /** Every observation of the scan is a fix gauge; TimeFix carries the location's UTC time, whichever GGA emitted it. */
  lemma {:induction false} GpsObservations(sentences: seq<Sentence>, utc: Float, labels: Labels)
    ensures forall k :: 0 <= k < |GpsRun(sentences, utc, labels).obs| ==>
      FixObservation(GpsRun(sentences, utc, labels).obs[k], utc, labels)
  {
    if sentences != [] {
      GpsObservations(sentences[1..], utc, labels);
    }
  }

  /** Sentences that are neither GGA nor unparseable contribute nothing. */
  lemma {:induction false} GpsOthersSilent(sentences: seq<Sentence>, utc: Float, labels: Labels)
    requires forall k :: 0 <= k < |sentences| ==> sentences[k].OtherType?
    ensures GpsRun(sentences, utc, labels) == Empty
  {
    if sentences != [] {
      GpsOthersSilent(sentences[1..], utc, labels);
    }
  }

  /**
   * A parse error ends the process once the scan reaches it: what was emitted is
   * exactly what the sentences after the last unparseable one produced.
   */
  lemma GpsStopsAtLastError(before: seq<Sentence>, after: seq<Sentence>, utc: Float, labels: Labels)
    requires ParseError !in after
    ensures GpsRun(before + [ParseError] + after, utc, labels) == Run(GpsRun(after, utc, labels).obs, [], Fatal)
  {
    GpsAppend(before, [ParseError] + after, utc, labels);
    GpsAppend([ParseError], after, utc, labels);
    assert before + [ParseError] + after == before + ([ParseError] + after);
    GpsCount(after, utc, labels);
    GpsRunShape(after, utc, labels);
    assert GpsRun([ParseError], utc, labels) == Run([], [], Fatal) by {
      assert [ParseError][1..] == [];
    }
  }

  /** The scan runs backwards, so the first fix emitted is that of the last GGA sentence. */
  lemma FirstFixIsLastGga(before: seq<Sentence>, latitude: Float, longitude: Float, altitude: Float,
                          after: seq<Sentence>, utc: Float, labels: Labels)
    requires forall k :: 0 <= k < |after| ==> after[k].OtherType?
    ensures var obs := GpsRun(before + [GGA(latitude, longitude, altitude)] + after, utc, labels).obs;
      |obs| >= 4 && obs[..4] == FixGauges(utc, latitude, longitude, altitude, labels)
  {
    var gga := GGA(latitude, longitude, altitude);
    GpsAppend(before, [gga] + after, utc, labels);
    GpsAppend([gga], after, utc, labels);
    assert before + [gga] + after == before + ([gga] + after);
    GpsOthersSilent(after, utc, labels);
    assert GpsRun([gga], utc, labels) == Run(FixGauges(utc, latitude, longitude, altitude, labels), [], Next) by {
      assert [gga][1..] == [];
    }
  }

  /** Two GGA sentences in the log give two fixes with the same labels: the series are sent twice. */
  lemma TwoGgaTwoFixes(g1: Sentence, g2: Sentence, utc: Float, labels: Labels)
    requires g1.GGA? && g2.GGA?
    ensures var obs := GpsRun([g1, g2], utc, labels).obs;
      |obs| == 8 && obs[0] == obs[4] == Gauge(TimeFix, labels, Reading(utc))
      && obs[..4] == FixGauges(utc, g2.latitude, g2.longitude, g2.altitude, labels)
      && obs[4..] == FixGauges(utc, g1.latitude, g1.longitude, g1.altitude, labels)
  {
    var fix1 := FixGauges(utc, g1.latitude, g1.longitude, g1.altitude, labels);
    var fix2 := FixGauges(utc, g2.latitude, g2.longitude, g2.altitude, labels);
    assert [g2][1..] == [];
    assert GpsRun([g2], utc, labels) == Run(fix2, [], Next);
    assert [g1, g2][1..] == [g2];
    assert GpsRun([g1, g2], utc, labels) == Run(fix2 + fix1, [], Next);
  }

  // ----- signal sampling --------------------------------------------------------------

  /** Each sample gives exactly rssi, rsrp, snr, sinr and rsrq, in sample order. */
  lemma {:induction false} SignalGaugesAt(samples: seq<SignalSample>, labels: Labels)
    ensures |SignalGauges(samples, labels)| == 5 * |samples|
    ensures forall k :: 0 <= k < |samples| ==>
      SignalGauges(samples, labels)[5 * k..5 * k + 5] == SampleGauges(samples[k], labels)
  {
    if samples != [] {
      var init := samples[..|samples| - 1];
      SignalGaugesAt(init, labels);
      var before, last := SignalGauges(init, labels), SampleGauges(samples[|samples| - 1], labels);
      forall k | 0 <= k < |samples|
        ensures SignalGauges(samples, labels)[5 * k..5 * k + 5] == SampleGauges(samples[k], labels)
      {
        if k < |init| {
          assert (before + last)[5 * k..5 * k + 5] == before[5 * k..5 * k + 5];
          assert samples[k] == init[k];
        } else {
          assert (before + last)[5 * k..5 * k + 5] == last;
        }
      }
    }
  }

  /**
   * The refresh is switched on before the signals are read and off after; a failing
   * step drops the later ones, and samples are emitted only once the refresh is on.
   */
  lemma SignalBracket(signal: Result<Signal>, labels: Labels)
    ensures SignalStage(signal, labels).calls <= [Setup(1), Sleep(2), Setup(0)]
    ensures SignalStage(signal, labels).end != Fatal
    ensures Setup(1) in SignalStage(signal, labels).calls <==> signal.Ok?
    ensures Setup(0) in SignalStage(signal, labels).calls <==>
      signal.Ok? && signal.value.enableRefresh.Ok? && signal.value.current.Ok?
    ensures Setup(0) in SignalStage(signal, labels).calls ==>
      |SignalStage(signal, labels).obs| == 5 * |signal.value.current.value|
    ensures Setup(0) !in SignalStage(signal, labels).calls ==> SignalStage(signal, labels).obs == []
  {
    if signal.Ok? && signal.value.enableRefresh.Ok? && signal.value.current.Ok? {
      SignalGaugesAt(signal.value.current.value, labels);
    }
  }

  // ----- the bearer reset -------------------------------------------------------------

  /** Bearer `k` is disconnected at position `2k` and deleted at `2k + 1`, whatever the deletes returned. */
  lemma {:induction false} BearerCallsAt(bearers: seq<Bearer>)
    ensures |BearerCalls(bearers)| == 2 * |bearers|
    ensures forall k :: 0 <= k < |bearers| ==>
      BearerCalls(bearers)[2 * k] == Disconnect(bearers[k].path)
      && BearerCalls(bearers)[2 * k + 1] == DeleteBearer(bearers[k].path)
  {
    if bearers != [] {
      var init := bearers[..|bearers| - 1];
      BearerCallsAt(init);
      forall k | 0 <= k < |init|
        ensures bearers[k] == init[k]
      {
      }
    }
  }

  /** The reset only disconnects, deletes and connects; `Connect(apn)` comes last, after every deletion. */
  lemma ResetOrder(bearers: seq<Bearer>, simple: Result<SimpleModem>, apn: string)
    ensures forall c :: c in BearerCalls(bearers) ==> c.Disconnect? || c.DeleteBearer?
    ensures simple.Ok? ==>
      |ResetCalls(bearers, simple, apn)| == 2 * |bearers| + 1
      && ResetCalls(bearers, simple, apn)[2 * |bearers|] == Connect(apn)
    ensures simple.Err? ==> ResetCalls(bearers, simple, apn) == BearerCalls(bearers)
  {
    BearerCallsAt(bearers);
    forall c | c in BearerCalls(bearers)
      ensures c.Disconnect? || c.DeleteBearer?
    {
      var i :| 0 <= i < |BearerCalls(bearers)| && BearerCalls(bearers)[i] == c;
      assert i == 2 * (i / 2) || i == 2 * (i / 2) + 1;
    }
  }

  // ----- location codes and registration ------------------------------------------------

  /** A code written in hexadecimal by the modem reads back as its value; a stray character drops the gauge. */
  lemma HexGaugeReadsBack(metric: Metric, n: int, labels: Labels)
    requires Int64Min <= n <= Int64Max
    ensures HexGauge(metric, FormatInt(n, 16), labels) == [Gauge(metric, labels, Exact(n))]
    ensures HexGauge(metric, FormatInt(n, 16) + "G", labels) == []
  {
    HexRoundTrip(n);
    var s := FormatInt(n, 16) + "G";
    assert DigitOf(s[|s| - 1]) >= 16;
    HexRejectsNonDigit(s, |s| - 1);
  }

  /**
   * Cell id, LAC and TAC come first, in that order, each when and only when it
   * decodes; one failing to decode leaves the other two in place.
   */
  lemma LocationCodes(loc: CurrentLocation, labels: Labels)
    ensures var obs := LocationStage(loc, labels).obs;
      var n := |HexGauge(CellId, loc.cellId, labels)| + |HexGauge(Lac, loc.lac, labels)| + |HexGauge(Tac, loc.tac, labels)|;
      n <= |obs|
      && (forall k :: 0 <= k < n ==> obs[k].value.Exact?)
      && (|HexGauge(CellId, loc.cellId, labels)| == 1 <==> ParseHexInt64(loc.cellId).Some?)
      && (|HexGauge(Lac, loc.lac, labels)| == 1 <==> ParseHexInt64(loc.lac).Some?)
      && (|HexGauge(Tac, loc.tac, labels)| == 1 <==> ParseHexInt64(loc.tac).Some?)
      && obs[..n] == HexGauge(CellId, loc.cellId, labels) + HexGauge(Lac, loc.lac, labels) + HexGauge(Tac, loc.tac, labels)
      && obs[n..] == GpsRun(loc.sentences, loc.utcTime, labels).obs
  {
  }

  /**
   * Roaming is 1 exactly when the registration state is "Roaming"; the operator code
   * follows it exactly when it reads as a number; a failed fetch of either skips the rest.
   */
  lemma RegistrationFacts(t: ThreeGpp, labels: Labels)
    ensures RegistrationStage(t, labels).calls == [] && RegistrationStage(t, labels).end != Fatal
    ensures t.registrationState.Err? ==> RegistrationStage(t, labels) == Run([], [], Skip)
    ensures t.registrationState.Ok? ==>
      |RegistrationStage(t, labels).obs| >= 1
      && RegistrationStage(t, labels).obs[0].metric == Roaming
      && (RegistrationStage(t, labels).obs[0].value == Exact(1) <==> t.registrationState.value == "Roaming")
      && (RegistrationStage(t, labels).obs[0].value == Exact(0) <==> t.registrationState.value != "Roaming")
    ensures RegistrationStage(t, labels).end == Next <==> t.registrationState.Ok? && t.operatorCode.Ok?
    ensures RegistrationStage(t, labels).end == Next ==>
      (|RegistrationStage(t, labels).obs| == 2 <==> ParseDecimal(t.operatorCode.value).Some?)
      && (|RegistrationStage(t, labels).obs| == 2 ==>
            RegistrationStage(t, labels).obs[1] == Gauge(OperatorCode, labels, Exact(ParseDecimal(t.operatorCode.value).value)))
    ensures RegistrationStage(t, labels).end == Skip ==> |RegistrationStage(t, labels).obs| <= 1
  {
  }
}
