/** Routing constants and the three validators of the configuration module. */
module Config {

  /** Base trade-off between the distance and the time component of an edge cost. */
  const BaseDistanceWeight: real := 0.6
  const BaseTimeWeight: real := 0.4

  /** Bounds of the time weight. */
  const MaxTimeWeight: real := 0.95
  const MinTimeWeight: real := 0.05

  const ProgressShiftMax: real := 0.20
  const RushHourShift: real := 0.05

  /** Severity level -> shift toward the time component. */
  const SeverityShifts: map<string, real> := map["CRITICAL" := 0.15, "HIGH" := 0.08, "MEDIUM" := 0.0]

  const MorningRushStart: int := 7
  const MorningRushEnd: int := 9
  const EveningRushStart: int := 16
  const EveningRushEnd: int := 19

  /** Realistic vehicle speed range in km/h, both ends inclusive. */
  const MinRealisticSpeedKmh: real := 40.0
  const MaxRealisticSpeedKmh: real := 120.0

  const DetectionRangeMeters: real := 500.0
  const MaxRouteIterations: int := 1000

  function Abs(x: real): (r: real)
    ensures r >= 0.0 && (r == x || r == -x)
  {
    if x < 0.0 then -x else x
  }

  /** Weights are valid when both lie in [0, 1] and they sum to 1 within 0.001. */
  function ValidateWeights(distanceWeight: real, timeWeight: real): (ok: bool)
    ensures ok <==> && 0.0 <= distanceWeight <= 1.0 && 0.0 <= timeWeight <= 1.0
                    && -0.001 < distanceWeight + timeWeight - 1.0 < 0.001
    ensures 0.0 <= distanceWeight <= 1.0 && 0.0 <= timeWeight <= 1.0 && distanceWeight + timeWeight == 1.0 ==> ok
  {
    if distanceWeight < 0.0 || timeWeight < 0.0 then false
    else if distanceWeight > 1.0 || timeWeight > 1.0 then false
    else Abs(distanceWeight + timeWeight - 1.0) < 0.001
  }

  /** A severity is valid exactly when it is a key of the severity table. */
  function ValidateSeverity(severity: string): (ok: bool)
    ensures ok <==> severity == "CRITICAL" || severity == "HIGH" || severity == "MEDIUM"
  {
    severity in SeverityShifts
  }

  /** A speed in km/h is valid when it lies in the realistic range, both ends included. */
  function ValidateSpeed(speedKmh: real): (ok: bool)
    ensures ok ==> 40.0 <= speedKmh <= 120.0
    ensures ok <== 40.0 <= speedKmh <= 120.0
  {
    MinRealisticSpeedKmh <= speedKmh <= MaxRealisticSpeedKmh
  }

  /** The shipped constants are mutually consistent. */
  lemma ConstantsConsistent()
    ensures ValidateWeights(BaseDistanceWeight, BaseTimeWeight)
    ensures MinTimeWeight + MaxTimeWeight == 1.0
    ensures MinTimeWeight <= BaseTimeWeight <= MaxTimeWeight
    ensures forall s :: s in SeverityShifts ==> 0.0 <= SeverityShifts[s] <= 0.15
  {
  }
}
