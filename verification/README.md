# modem_exporter: the scrape pipeline, modelled in Dafny

`modem_exporter` is a Prometheus exporter for cellular modems that ModemManager
manages. On every scrape, `Exporter.Collect` (main.go:163-484) runs these steps:

1. It asks ModemManager for its modems. When that fails it emits nothing.
2. Otherwise it emits `up` = 1.
3. It then walks the modems in order. For each modem it runs a fixed sequence of
   getters:
   - state, and `Enable` when the state is "Disabled";
   - the SIM and 3GPP identity and the access technology, which give the label tuple;
   - a second state read, which gives the `registered` and `connected` gauges;
   - a bearer reset, only when the modem is registered and an APN is configured;
   - the hex-decoded cell id, LAC and TAC;
   - GPS fixes from the stored NMEA sentences, read last to first;
   - roaming and operator code;
   - five signal gauges per sample, between `Setup(1)` and `Setup(0)`.

   Most getters that fail end that modem's turn (`continue`), and the sweep moves on
   to the next modem. The bearer reset is the exception: the error from `GetBearers`
   is discarded (main.go:265), and a failing `GetSimpleModem` is only logged
   (main.go:277-280). An NMEA sentence that does not parse ends the whole process
   (`log.Fatal`).

The model has three layers.

- **Collaborators are data.** `ModemManager.Modem` (modem.dfy) is a scripted record:
  - one `Result` per call site: `Ok(value)` or `Err`;
  - both `GetState` reads;
  - the bearer list;
  - the simple-modem handle;
  - the location, with its NMEA sentences already classified as `ParseError`, `GGA` or
    another type;
  - the three signal steps.

  Floating-point readings are opaque `Float` values that pass through unchanged.
- **The pipeline as functions.** In `Pipeline` (pipeline.dfy), each step of the loop
  body is a function that returns a `Run`. A `Run` holds:
  - the observations in channel order;
  - the trace of side-effecting calls (`Enable`, `Disconnect`, `DeleteBearer`,
    `Connect`, `Setup`, `Sleep`);
  - how the step ended: `Next` (go on), `Skip` (the source's `continue`) or `Fatal`.

  Other pieces:
  - `Then` sequences two steps.
  - `ModemRun` is one modem's turn.
  - `Runs` is the loop over the modems.
  - `Sweep` is one scrape.
- **The code itself.** The `Exporter` module (exporter.dfy) follows `Collect`
  statement by statement. It has the same early exits and the same loops:
  - over the modems;
  - over the bearers;
  - over the NMEA sentences, by a falling index;
  - over the signal samples.

  Each loop appends to an observation sequence and a call trace. Every method is proved
  equal to the pipeline function for its step. `Collect` is proved equal to `Sweep`.

The properties of the exporter are lemmas about the pipeline functions. They are in
stages.dfy (one step at a time), sweep.dfy (one modem and the whole scrape) and
scenarios.dfy (a connected modem end to end). Go's `strconv.ParseInt(s, 16, 64)` is
modelled exactly in strconv.dfy, and `strings.ToLower` for ASCII in text.dfy.

The model follows the code as written, including these points where it may not do
what its authors meant:

- **Every GGA sentence emits a fix.** The reverse scan has no `break`
  (main.go:360-405). The comment at main.go:367 speaks of sending GPS metrics
  "only if the final GGA data is received", which suggests a single fix was meant.
- **An unparseable NMEA sentence is fatal for the whole process** (main.go:363-366).
  One bad sentence from the modem ends the exporter, not just that modem's report.
- **`ParseInt` accepts a leading `+` or `-`**, and it rejects values outside int64
  (main.go:335, 344, 353). Cell ids, LACs and TACs are never signed, but a signed
  string still decodes.
- **`Connect` is attempted only when `GetSimpleModem` answers** (main.go:277-288). The
  error from `GetBearers` is ignored, and the code then walks whatever list it has
  (main.go:265).
- **A failed `Setup(0)` changes nothing visible.** It is the last statement of the loop
  body (main.go:477-481).

## Model

| member | source | states |
|---|---|---|
| Exporter.Collect | main.go:163-484 | The observations, calls and fatal flag of the method are exactly `Sweep(modems, apn)`. |
| Exporter.CollectModems | main.go:175-482 | The loop over the modems produces `Runs(ms, apn)`. It stops at the first fatal modem, and a modem that is skipped still lets the loop go on. |
| Exporter.CollectModem | main.go:175-482 | One pass of the loop body yields that modem's run, with `continue` seen as finishing the modem. |
| Exporter.EnableIfDisabled | main.go:177-190 | The first state read and the conditional `Enable` give `EnableStage`: a failed read skips, and only a "Disabled" modem is enabled. |
| Exporter.ReadIdentity | main.go:192-250 | The eight identity getters and the single-technology check give `Identify(m)`. Any failure gives `None`. |
| Exporter.ResetIfRegistered | main.go:258-292 | Bearer calls are made only for the state "Registered" and a non-empty APN. |
| Exporter.ResetBearers | main.go:265-290 | The bearer loop and the connect attempt produce `ResetCalls`. |
| Exporter.ReportState | main.go:294-312 | The two state gauges are `StateGauges(state, labels)`. |
| Exporter.ReportIdentified | main.go:192-481 | Everything after the enable step equals `IdentifiedRun`. |
| Exporter.ReportModem | main.go:314-481 | The reporting steps after the state gauges equal `ReportStage`. |
| Exporter.ReportLocation | main.go:333-405 | The location step's observations and fatal flag are those of `LocationStage`. It makes no calls and never skips. |
| Exporter.EmitHex | main.go:333-359 | One hex-decoded gauge is emitted when `ParseInt(s, 16, 64)` succeeds, and none otherwise. |
| Exporter.ScanNmea | main.go:360-405 | The scan from the last index down to the first produces `GpsRun`. It is fatal exactly when the run is. |
| Exporter.ReportRegistration | main.go:407-433 | The roaming and operator-code step produces `RegistrationStage`. It skips exactly when that stage does and is never fatal. |
| Exporter.SampleSignal | main.go:435-481 | The signal step's observations and call trace are those of `SignalStage`. |
| Exporter.EmitSignals | main.go:455-475 | The sample loop emits `SignalGauges(samples)`. |
| Text.LowerAscii | main.go:250 | The lower-cased technology name has the same length, with each character lower-cased. |
| Text.LowerAsciiIsLower | main.go:250 | No upper-case letter is left, and every other character is unchanged. |
| Text.LowerAsciiIdempotent | main.go:250 | Lower-casing twice is lower-casing once. |
| Strconv.ParseHexInt64 | main.go:335 | A decoded value always lies in the int64 range. |
| Strconv.HexAccepts | main.go:335 | A sign of "", "+" or "-" followed by hex digits decodes to the signed base-16 value. The result is `None` exactly when that value overflows int64. |
| Strconv.HexRejectsNonDigit | main.go:335 | Any character that is not a hex digit, other than a leading sign, makes the decode fail. |
| Strconv.HexAcceptsOnlyDigits | main.go:335 | A string that decodes is non-empty: an optional sign, then hex digits only. |
| Strconv.HexIgnoresCase | main.go:335 | Hex digits decode the same in either case. |
| Strconv.HexRoundTrip | main.go:335 | Formatting any int64 in base 16 and decoding it gives the number back. |
| Strconv.FormatMagnitudeReadsBack | main.go:335 | The base-b digits of n are non-empty, are all valid digits, and read back as n. |
| Strconv.HexExamples | main.go:333-359 | "1A2B" decodes to 6699 and "0" to 0. "" and "-" are rejected. |
| Strconv.HexAllOnes | main.go:352-359 | "FFFFFFFF" decodes to 4294967295. |
| Strconv.ParseDecimal | main.go:429 | An operator code that parses has a magnitude below 2^1024, the float64 range. |
| Strconv.DecimalReadsRounded | main.go:429-433 | An integer written in decimal reads back rounded to the nearest float64, ties to even, with its sign. Once the rounded magnitude reaches 2^1024 it is a range error and no gauge is emitted. |
| Strconv.RoundExact | main.go:429 | Every integer up to 2^53 is a float64, so rounding keeps it. |
| Strconv.RoundFirstInexact | main.go:429 | Just past 2^53 rounding starts: 2^53 + 1 reads as 2^53, and 2^53 + 3 as 2^53 + 4. |
| Strconv.RoundPow2 | main.go:429 | Powers of two from 2^53 on are kept by rounding. |
| Strconv.DecimalOverflow | main.go:429-433 | 2^1024 in decimal, with either sign, is a range error. |
| Strconv.DecimalRoundTrip | main.go:429 | Formatting an integer of magnitude at most 2^53 in base 10 and parsing it as the operator code gives it back. |
| Strconv.DecimalExamples | main.go:429-433 | "310" parses as 310, and "N/A" does not parse. |
| Pipeline.ModemRunCases | main.go:175-482 | A modem's run, by cases: it stops at the enable step, or it stops before the gauges with only the enable calls, or it emits the state gauges followed by the reporting steps. |
| Pipeline.GpsAppend | main.go:360 | Scanning a log `a + b` scans all of the later part `b` before `a`. |
| Pipeline.RunsAppend | main.go:175 | The sweep over `a + b` is the sweep over `a` followed by the sweep over `b`. |
| Pipeline.RunsEnd | main.go:175-482 | The modem loop never ends by skipping. |
| Pipeline.GpsRunShape | main.go:360-405 | The NMEA scan makes no calls and never skips. |
| StageProperties.GpsFatalIff | main.go:360-366 | The scan is fatal if and only if some sentence fails to parse. |
| StageProperties.GpsCount | main.go:360-405 | With no parse error the scan ends normally, with exactly four observations per GGA sentence. |
| StageProperties.GpsObservations | main.go:368-398 | Every scan observation is a fix gauge with the modem's labels, and every time stamp is the raw fix's UTC time. |
| StageProperties.GpsOthersSilent | main.go:368 | Sentences that are not GGA emit nothing. |
| StageProperties.GpsStopsAtLastError | main.go:360-366 | The scan emits the fixes of the sentences after the last unparseable one, then ends the process. |
| StageProperties.FirstFixIsLastGga | main.go:360-398 | The first four observations are the fix from the last GGA sentence: TimeFix, lat, lon, alt, in that order. |
| StageProperties.TwoGgaTwoFixes | main.go:360-405 | Two GGA sentences give two fixes, later one first. There is no `break`. |
| StageProperties.SignalGaugesAt | main.go:455-475 | There are five gauges per sample. The k-th group of five is that sample's rssi, rsrp, snr, sinr and rsrq. |
| StageProperties.SignalBracket | main.go:435-481 | The signal calls are a prefix of `Setup(1), Sleep(2), Setup(0)`. `Setup(1)` runs iff `GetSignal` answers, and `Setup(0)` runs iff sampling got that far. Gauges appear exactly then. |
| StageProperties.BearerCallsAt | main.go:268-275 | Each bearer in order gets `Disconnect` and then `DeleteBearer`. A failure does not stop the later bearers. |
| StageProperties.ResetOrder | main.go:265-290 | `Connect(apn)` comes after all deletions, and only when the simple-modem handle answers. |
| StageProperties.HexGaugeReadsBack | main.go:333-359 | A code written in hex yields its value. The same code with a trailing non-digit yields nothing. |
| StageProperties.LocationCodes | main.go:333-405 | Cell id, LAC and TAC come first, in that order, each present iff its own decode succeeds. The GPS observations follow. |
| StageProperties.RegistrationFacts | main.go:407-433 | Roaming is 1 iff the registration state is "Roaming". The operator code is present iff it parses. A failure of either getter skips the rest of the modem. |
| SweepProperties.IdentifyIff | main.go:192-250 | The labels exist iff no identity getter fails and exactly one technology is reported. They are the getters' values, with the technology lower-cased. |
| SweepProperties.ReportCalls | main.go:314-481 | The reporting steps call only a prefix of the signal bracket. |
| SweepProperties.ReportReported | main.go:314-481 | Every reporting observation carries the modem's labels and is never `up`. |
| SweepProperties.ModemReported | main.go:294-481 | Whatever a modem emits carries that modem's labels. |
| SweepProperties.SilentIff | main.go:177-256 | A modem emits nothing iff one of these fails: the first state read, `Enable`, an identity getter, the technology check or the second state read. Such a modem makes only the enable call. |
| SweepProperties.StateGaugesFirst | main.go:250-312 | The first two observations are `registered` and `connected`, from the second state read, with the lower-cased technology in the labels. |
| SweepProperties.FirstReadOnlyEnables | main.go:177-190 | The first state read only decides whether `Enable` is called. All observations come from the second read. |
| SweepProperties.ModemCalls | main.go:175-482 | A modem's calls are the enable call, then the bearer reset, then the signal bracket. |
| SweepProperties.BearerCallsOfModem | main.go:258-292 | Bearer and connect calls of a modem come only from the bearer reset. |
| SweepProperties.ConnectIff | main.go:258-292 | `Connect(apn)` is called iff the second state is "Registered", the APN is non-empty and the simple-modem handle answers. |
| SweepProperties.BearersTornDown | main.go:258-292 | When the reset runs, every listed bearer is disconnected and deleted. Otherwise no bearer call is made. |
| SweepProperties.BearersInvisible | main.go:258-292 | Bearers, the simple-modem handle and the APN never change what a modem emits or how it ends. |
| SweepProperties.ReportGatesKeepGauges | main.go:314-331 | When the failure reason, the location or the current location fails, only the two state gauges are emitted. |
| SweepProperties.RegistrationFailureSkipsSignal | main.go:407-427 | A failed registration or operator-code read skips the signal bracket entirely. |
| SweepProperties.ModemFatalIff | main.go:175-482 | A modem ends the process iff it gets to the location step and one of its NMEA sentences does not parse. |
| SweepProperties.SignalFailureKeepsPrefix | main.go:435-439 | A failing `GetSignal` keeps everything emitted before it, as a prefix, and retracts nothing. |
| SweepProperties.DisableRefreshInvisible | main.go:477-481 | Whether `Setup(0)` fails makes no difference to the sweep. |
| SweepProperties.RunsReported | main.go:175-482 | Every observation from the modem loop is labelled and is never `up`. |
| SweepProperties.UpExactlyOnce | main.go:165-173 | When `GetModems` fails nothing is emitted. Otherwise `up` = 1 comes first, exactly once. |
| SweepProperties.SweepNeverSkips | main.go:175-484 | A scrape either finishes or is fatal. |
| SweepProperties.ModemInSweep | main.go:175-482 | A modem's observations and calls sit between those of the modems before it and those after it. |
| SweepProperties.SilentModemTransparent | main.go:175-256 | A modem that emits nothing leaves the other modems' observations unchanged. |
| SweepProperties.FatalStopsSweep | main.go:363-366 | After a fatal modem, no later modem is processed. |
| Scenarios.ConnectedModemScenario | main.go:175-482 | A connected modem with decodable codes, no sentences and two samples emits, in this order: 1, 1, the three codes, roaming and operator code, then ten signal gauges. Its only calls are the signal bracket. |
| Scenarios.ScenarioReport | main.go:314-481 | The reporting steps of that modem. |
| Scenarios.ScenarioCodes | main.go:333-359 | The codes "1A2B", "0" and "FFFFFFFF" give the gauges 6699, 0 and 4294967295. |
| Scenarios.TwoSamples | main.go:455-475 | Two samples emit the first sample's five gauges, then the second's. |

## Left out

- `main`, the HTTP handlers, flag parsing and the Prometheus descriptors (main.go:22-161, 486-520). They are I/O and library set-up. `Describe` is not part of this model.
- ModemManager's D-Bus calls are not modelled as behaviour. Each one is a scripted `Ok`/`Err` answer, fixed per call site.
- The APN comes from `os.Getenv`. The model takes it as a parameter instead.
- `time.Sleep(2s)` is the trace event `Sleep(2)`. No time passes in the model.
- These are not modelled, because they are diagnostics only:
  - `log` and `fmt` output, including the "New Bearer" print;
  - `nmea.FormatGPS` and `nmea.FormatDMS`;
  - the error text of `log.Fatal`.
- Floating point is not modelled:
  - signal values, latitude, longitude, altitude and the `Unix()` timestamp are opaque values that pass through;
  - the `float64(int64)` conversion of the decoded codes is taken as exact, so codes above 2^53 are not rounded.
- `Strconv.ParseDecimal`: `strconv.ParseFloat` on the operator code is narrowed to an optional sign followed by decimal digits. These are read with float64 rounding and the float64 range check. Fractions, exponents, "Inf", "NaN", hex floats and underscores are not modelled, and such strings are rejected. A negative zero is read as 0.
- `Exporter.ReportRegistration`: inherits the narrowing of `Strconv.ParseDecimal`. An operator code such as "1.5" emits a gauge in the source, but none in the model.
- `Strconv.DecimalRoundTrip`: is stated only up to 2^53 in magnitude, where float64 holds every integer. Beyond that `Strconv.DecimalReadsRounded` gives the rounded value instead.
- `Text.LowerAscii`: `strings.ToLower` is modelled for ASCII only. Unicode case mapping is not modelled.
- The NMEA grammar (`nmea.Parse`) is a foreign library. Each sentence is given already classified as `ParseError`, `GGA(lat, lon, alt)` or another type.
- The results of `Disconnect`, `DeleteBearer` and `Connect` are not modelled. The source ignores them or only logs them, so they only appear in the call trace.
- The error from `GetBearers` is not modelled. The source discards it, and the scripted bearer list is whatever the call returned.
- `Exporter.CollectModem`: its contract goes through `Settle`, so it does not tell a modem that was skipped by `continue` from one that ran to the end of the loop body. The loop treats the two alike.
- The process exit of `log.Fatal` is the `Fatal` outcome. Nothing that happens after it (deferred calls, exit status) is modelled.
- The model stops at the channel `ch`. The Prometheus registry's check for duplicate series is not modelled. A modem with two GGA sentences or two signal samples sends the same metric and labels twice, and client_golang's registry then fails the scrape.
- Observations and calls are two separate sequences, so the model does not say how one interleaves with the other. For example, the bearer reset runs before the `registered` and `connected` gauges are sent (main.go:259-312), and `Setup(0)` runs after the signal gauges (main.go:455-481).
