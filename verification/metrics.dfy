/** What a scrape produces: labelled gauge observations, and the calls that change the modem. */
module Metrics {
  import opened Outcomes
  import opened ModemManager

  /** The exported gauges, `modem_up` to `modem_TimeFix`. */
  datatype Metric =
    | Up | Registered | Connected | CellId | Lac | Tac | TimeFix | Lat | Lon | Alt
    | Roaming | OperatorCode | Rssi | Rsrp | Snr | Sinr | Rsrq

  /** The label tuple imei, icc, imsi, operatorid, operator, v_operator, rat. */
  datatype Labels = Labels(
    imei: string,
    icc: string,
    imsi: string,
    operatorId: string,
    operator: string,
    vOperator: string,
    rat: string)

  /** A gauge value: an integer the exporter computes, or a float it forwards. */
  datatype Value = Exact(n: int) | Reading(f: Float)

  /** One `prometheus.MustNewConstMetric` sent on the channel; `up` alone has no labels. */
  datatype Observation = Observation(metric: Metric, labels: Option<Labels>, value: Value)

  /** The calls of a scrape that act on the modem, and the settling wait, in the order made. */
  datatype Call =
    | Enable
    | Disconnect(bearer: string)
    | DeleteBearer(bearer: string)
    | Connect(apn: string)
    | Setup(rate: nat)
    | Sleep(seconds: nat)

  const UpObservation: Observation := Observation(Up, None, Exact(1))

  function Gauge(metric: Metric, labels: Labels, value: Value): Observation {
    Observation(metric, Some(labels), value)
  }

  function Flag(b: bool): Value {
    Exact(if b then 1 else 0)
  }
}
