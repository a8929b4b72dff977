/**
 * The adaptive cost engine: the time weight starts at a base value and is shifted
 * toward time by route progress, severity, congestion (always zero) and rush hour,
 * then capped at 0.95; the distance weight is what remains of 1.
 */
module AdaptiveWeights {
  import opened Common
  import Config

  /** The two weights of an edge cost. */
  datatype Weights = Weights(distance: real, time: real)

  /** Severity table lookup; a severity outside the table gets no shift. */
  function SeverityShift(severity: string): (s: real)
    ensures 0.0 <= s <= 0.15
    ensures severity !in Config.SeverityShifts ==> s == 0.0
  {
    if severity in Config.SeverityShifts then Config.SeverityShifts[severity] else 0.0
  }

  /** Morning rush 7..9 or evening rush 16..19, both ends inclusive. */
  predicate IsRushHour(hour: int) {
    (Config.MorningRushStart <= hour <= Config.MorningRushEnd)
    || (Config.EveningRushStart <= hour <= Config.EveningRushEnd)
  }

  function RushHourShift(hour: int): real {
    if IsRushHour(hour) then Config.RushHourShift else 0.0
  }

  /** Distance travelled over total route distance, 0 when the total is not positive. */
  function ProgressRatio(totalDistance: real, distanceTraveled: real): real {
    if totalDistance > 0.0 then distanceTraveled / totalDistance else 0.0
  }

  function ProgressShift(totalDistance: real, distanceTraveled: real): real {
    Config.ProgressShiftMax * ProgressRatio(totalDistance, distanceTraveled)
  }

  /** Reserved congestion term; the engine keeps it in the sum but it is always zero. */
  const CongestionShift: real := 0.0

  function TotalShift(totalDistance: real, distanceTraveled: real, severity: string, hour: int): real {
    ProgressShift(totalDistance, distanceTraveled) + SeverityShift(severity)
    + CongestionShift + RushHourShift(hour)
  }

  /** `min(0.95, base + total shift)`. */
  function TimeWeight(baseTime: real, totalDistance: real, distanceTraveled: real,
                      severity: string, hour: int): real
  {
    Min(Config.MaxTimeWeight, baseTime + TotalShift(totalDistance, distanceTraveled, severity, hour))
  }

  /** The weights returned by one call of the engine. */
  function ComputeWeights(baseTime: real, totalDistance: real, distanceTraveled: real,
                           severity: string, hour: int): (w: Weights)
    ensures w.distance + w.time == 1.0
    ensures w.time <= 0.95 && w.distance >= 0.05
  {
    var tw := TimeWeight(baseTime, totalDistance, distanceTraveled, severity, hour);
    Weights(1.0 - tw, tw)
  }

  /** The time weight never falls below its base when progress is non-negative and the base is below the cap. */
  lemma TimeWeightAtLeastBase(baseTime: real, totalDistance: real, distanceTraveled: real,
                              severity: string, hour: int)
    requires baseTime <= Config.MaxTimeWeight
    requires totalDistance <= 0.0 || distanceTraveled >= 0.0
    ensures baseTime <= TimeWeight(baseTime, totalDistance, distanceTraveled, severity, hour)
  {
    if totalDistance > 0.0 {
      assert distanceTraveled / totalDistance >= 0.0;
    }
  }

  /** Every weight pair the engine produces passes the configuration validator. */
  lemma EngineWeightsAreValid(baseTime: real, totalDistance: real, distanceTraveled: real,
                              severity: string, hour: int)
    requires 0.0 <= baseTime
    requires totalDistance <= 0.0 || distanceTraveled >= 0.0
    ensures var w := ComputeWeights(baseTime, totalDistance, distanceTraveled, severity, hour);
            Config.ValidateWeights(w.distance, w.time)
  {
    if totalDistance > 0.0 {
      assert distanceTraveled / totalDistance >= 0.0;
    }
  }

  /** With everything else fixed, the time weight does not decrease as the vehicle travels further. */
  lemma TimeWeightMonotoneInProgress(baseTime: real, totalDistance: real, d1: real, d2: real,
                                     severity: string, hour: int)
    requires d1 <= d2
    ensures TimeWeight(baseTime, totalDistance, d1, severity, hour)
         <= TimeWeight(baseTime, totalDistance, d2, severity, hour)
  {
    if totalDistance > 0.0 {
      assert d1 / totalDistance <= d2 / totalDistance;
    }
  }

  /** CRITICAL >= HIGH >= MEDIUM, and any severity outside the table behaves as MEDIUM. */
  lemma SeverityOrder(baseTime: real, totalDistance: real, distanceTraveled: real, hour: int, other: string)
    requires other !in Config.SeverityShifts
    ensures TimeWeight(baseTime, totalDistance, distanceTraveled, "CRITICAL", hour)
         >= TimeWeight(baseTime, totalDistance, distanceTraveled, "HIGH", hour)
    ensures TimeWeight(baseTime, totalDistance, distanceTraveled, "HIGH", hour)
         >= TimeWeight(baseTime, totalDistance, distanceTraveled, "MEDIUM", hour)
    ensures TimeWeight(baseTime, totalDistance, distanceTraveled, other, hour)
         == TimeWeight(baseTime, totalDistance, distanceTraveled, "MEDIUM", hour)
  {
  }

  /** A rush hour adds exactly 0.05 to the uncapped sum compared with any other hour. */
  lemma RushHourAddsFivePercent(totalDistance: real, distanceTraveled: real, severity: string,
                                rush: int, calm: int)
    requires IsRushHour(rush) && !IsRushHour(calm)
    ensures TotalShift(totalDistance, distanceTraveled, severity, rush)
         == TotalShift(totalDistance, distanceTraveled, severity, calm) + 0.05
  {
  }

  /** The rush hours are exactly 7, 8, 9, 16, 17, 18 and 19. */
  lemma RushHoursOfTheDay(hour: int)
    requires 0 <= hour < 24
    ensures IsRushHour(hour) <==> hour in {7, 8, 9, 16, 17, 18, 19}
  {
  }

  /** CRITICAL, full progress, rush hour, base 0.4: weights (0.2, 0.8). */
  lemma ScenarioCriticalRushHour(totalDistance: real)
    requires totalDistance > 0.0
    ensures ComputeWeights(0.4, totalDistance, totalDistance, "CRITICAL", 8) == Weights(0.2, 0.8)
  {
    assert totalDistance / totalDistance == 1.0;
  }

  /** MEDIUM, no progress, outside rush hour, base 0.4: the base weights (0.6, 0.4). */
  lemma ScenarioMediumBaseline(totalDistance: real)
    ensures ComputeWeights(0.4, totalDistance, 0.0, "MEDIUM", 12) == Weights(0.6, 0.4)
  {
    if totalDistance > 0.0 {
      assert 0.0 / totalDistance == 0.0;
    }
  }
}
