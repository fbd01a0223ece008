/** The forecast of `calculate_predictions` for one record, over exact reals
    (before the rounding to two decimals that only affects display). */
module Prediction {
  import opened Values

  /** The three statuses, shown as "Highly Reliable", "Moderately Reliable"
      and "Low Reliability". */
  datatype Reliability = HighlyReliable | ModeratelyReliable | LowReliability

  function Recommendation(r: Reliability): string
  {
    match r
    case HighlyReliable => "Forecast is highly reliable."
    case ModeratelyReliable => "Forecast is moderately reliable."
    case LowReliability => "Forecast reliability is low. Further analysis is required."
  }

  datatype ForecastResult = ForecastResult(
    record: ProcessedRecord,
    adjustedConsumption: real,
    timeAdjustment: real,
    predictedEnergy: real,
    relativeError: real,
    confidenceScore: real,
    status: Reliability,
    recommendation: string)

  function Abs(x: real): real
  {
    if x < 0.0 then -x else x
  }

  /** The three-way decision of `calculate_predictions`, first match wins. */
  function Classify(relativeError: real, confidenceScore: real): Reliability
  {
    if relativeError <= 10.0 && confidenceScore >= 90.0 then HighlyReliable
    else if (relativeError > 10.0 && relativeError <= 20.0)
         || (confidenceScore >= 80.0 && confidenceScore < 90.0) then ModeratelyReliable
    else LowReliability
  }

  /** With the confidence score tied to the relative error as the forecast ties
      it, the confidence conditions add nothing: the class depends on the
      relative error alone, with bands up to 10, up to 20, and above 20. */
  lemma ClassifyByRelativeError(relativeError: real)
    ensures Classify(relativeError, 100.0 - relativeError) == HighlyReliable <==> relativeError <= 10.0
    ensures Classify(relativeError, 100.0 - relativeError) == ModeratelyReliable
        <==> 10.0 < relativeError <= 20.0
    ensures Classify(relativeError, 100.0 - relativeError) == LowReliability <==> relativeError > 20.0
  {
  }

  /** The forecast for one record; `float` division by zero raises in the
      source, so the historical consumption must not be zero. */
  function Forecast(r: ProcessedRecord): (f: ForecastResult)
    requires r.historicalEnergyConsumption != 0.0
    ensures f.record == r
    ensures f.relativeError >= 0.0
    ensures f.relativeError * Abs(r.historicalEnergyConsumption)
         == Abs(f.predictedEnergy - r.historicalEnergyConsumption) * 100.0
    ensures f.confidenceScore <= 100.0
    ensures f.recommendation == Recommendation(f.status)
  {
    var hec := r.historicalEnergyConsumption;
    var adjusted := hec * r.parameterA;
    var timeAdjustment := r.parameterB * r.forecastTime as real;
    var predicted := r.baseline + adjusted + timeAdjustment;
    var relativeError := Abs((predicted - hec) / hec) * 100.0;
    var confidence := 100.0 - relativeError;
    var status := Classify(relativeError, confidence);
    ForecastResult(r, adjusted, timeAdjustment, predicted, relativeError, confidence, status, Recommendation(status))
  }

  /** The predicted energy is the linear model baseline + hec * a + b * t, the
      confidence score is 100 minus the relative error, and the class follows
      the relative error alone. */
  lemma ForecastMeaning(r: ProcessedRecord)
    requires r.historicalEnergyConsumption != 0.0
    ensures Forecast(r).predictedEnergy
         == r.baseline + r.historicalEnergyConsumption * r.parameterA + r.parameterB * r.forecastTime as real
    ensures Forecast(r).confidenceScore == 100.0 - Forecast(r).relativeError
    ensures Forecast(r).status == HighlyReliable <==> Forecast(r).relativeError <= 10.0
    ensures Forecast(r).status == ModeratelyReliable <==> 10.0 < Forecast(r).relativeError <= 20.0
    ensures Forecast(r).status == LowReliability <==> Forecast(r).relativeError > 20.0
    ensures Forecast(r).relativeError == 0.0 <==> Forecast(r).predictedEnergy == r.historicalEnergyConsumption
  {
    ClassifyByRelativeError(Forecast(r).relativeError);
  }

  /** The first record of the reference payload: 100 * 1.1 = 110, 0.5 * 20 = 10,
      50 + 110 + 10 = 170, a relative error of 70 percent, confidence 30, low
      reliability. */
  lemma ReferenceRecord(ts: Value)
    ensures var f := Forecast(ProcessedRecord(ts, 100.0, 1.1, 0.5, 20, 50.0));
            && f.adjustedConsumption == 110.0 && f.timeAdjustment == 10.0
            && f.predictedEnergy == 170.0 && f.relativeError == 70.0
            && f.confidenceScore == 30.0 && f.status == LowReliability
  {
  }

  /** The band edges: exactly 10 percent is still highly reliable, 10.01 is
      moderately reliable, exactly 20 is moderately reliable, 20.01 is low. */
  lemma ClassificationBoundaries()
    ensures Classify(10.0, 90.0) == HighlyReliable
    ensures Classify(10.01, 89.99) == ModeratelyReliable
    ensures Classify(20.0, 80.0) == ModeratelyReliable
    ensures Classify(20.01, 79.99) == LowReliability
  {
  }
}
