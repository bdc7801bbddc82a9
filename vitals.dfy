/** The vital-sign dashboard of the intake wizard (`app.py`): each laboratory
    value gets a status shown as the metric's delta and a delta colour. */
module Vitals {

  /** The delta shown under a vital-sign metric. */
  datatype Status = Critical | High | Low | Normal

  /** Streamlit's `delta_color`: "inverse" or "normal". */
  datatype DeltaColor = InverseColor | NormalColor

  /** The text the dashboard shows for a status. */
  function StatusText(s: Status): string
  {
    match s
    case Critical => "\U{1F6A8} Critical"
    case High => "\U{26A0}\U{FE0F} High"
    case Low => "\U{26A0}\U{FE0F} Low"
    case Normal => "\U{2705} Normal"
  }

  /** How alarming a status is: 0 for normal, 1 for high or low, 2 for critical. */
  function Severity(s: Status): nat
  {
    match s
    case Normal => 0
    case High => 1
    case Low => 1
    case Critical => 2
  }

  /** Blood glucose in mg/dL: critical above 200, high above 140, else normal. */
  function GlucoseStatus(mgdl: int): (s: Status)
    ensures s == Critical <==> mgdl > 200
    ensures s == High <==> 140 < mgdl <= 200
    ensures s == Normal <==> mgdl <= 140
  {
    if mgdl > 200 then Critical else if mgdl > 140 then High else Normal
  }

  /** The glucose metric is coloured "inverse" exactly when its status is not normal. */
  function GlucoseColor(mgdl: int): (c: DeltaColor)
    ensures c == InverseColor <==> GlucoseStatus(mgdl) != Normal
  {
    if mgdl > 140 then InverseColor else NormalColor
  }

  /** Systolic pressure in mmHg: critical from 180, high above 130, else normal. */
  function BloodPressureStatus(mmhg: int): (s: Status)
    ensures s == Critical <==> mmhg >= 180
    ensures s == High <==> 130 < mmhg < 180
    ensures s == Normal <==> mmhg <= 130
  {
    if mmhg >= 180 then Critical else if mmhg > 130 then High else Normal
  }

  /** The pressure metric is coloured "inverse" exactly when its status is not normal. */
  function BloodPressureColor(mmhg: int): (c: DeltaColor)
    ensures c == InverseColor <==> BloodPressureStatus(mmhg) != Normal
  {
    if mmhg > 130 then InverseColor else NormalColor
  }

  /** Oxygen saturation in percent: critical below 92, low below 95, else normal. */
  function OxygenStatus(percent: int): (s: Status)
    ensures s == Critical <==> percent < 92
    ensures s == Low <==> 92 <= percent < 95
    ensures s == Normal <==> percent >= 95
  {
    if percent < 92 then Critical else if percent < 95 then Low else Normal
  }

  /** The saturation metric is coloured "inverse" exactly when its status is not normal. */
  function OxygenColor(percent: int): (c: DeltaColor)
    ensures c == InverseColor <==> OxygenStatus(percent) != Normal
  {
    if percent < 95 then InverseColor else NormalColor
  }

  /** The delta text of the glucose metric, as the dashboard builds it. */
  function GlucoseDelta(mgdl: int): (text: string)
    ensures text == StatusText(GlucoseStatus(mgdl))
  {
    if mgdl > 200 then "\U{1F6A8} Critical" else if mgdl > 140 then "\U{26A0}\U{FE0F} High" else "\U{2705} Normal"
  }

  /** The delta text of the blood-pressure metric. */
  function BloodPressureDelta(mmhg: int): (text: string)
    ensures text == StatusText(BloodPressureStatus(mmhg))
  {
    if mmhg >= 180 then "\U{1F6A8} Critical" else if mmhg > 130 then "\U{26A0}\U{FE0F} High" else "\U{2705} Normal"
  }

  /** The delta text of the oxygen-saturation metric. */
  function OxygenDelta(percent: int): (text: string)
    ensures text == StatusText(OxygenStatus(percent))
  {
    if percent < 92 then "\U{1F6A8} Critical" else if percent < 95 then "\U{26A0}\U{FE0F} Low" else "\U{2705} Normal"
  }

  /** Different statuses are shown with different texts, so the delta a
      metric shows determines its status. */
  lemma StatusTextInjective()
    ensures forall a, b :: StatusText(a) == StatusText(b) ==> a == b
  {
  }

  /** A higher glucose reading is never less alarming; likewise for pressure,
      and a lower saturation is never less alarming. */
  lemma StatusesAreMonotone(a: int, b: int)
    requires a <= b
    ensures Severity(GlucoseStatus(a)) <= Severity(GlucoseStatus(b))
    ensures Severity(BloodPressureStatus(a)) <= Severity(BloodPressureStatus(b))
    ensures Severity(OxygenStatus(b)) <= Severity(OxygenStatus(a))
  {
  }
}
