/**
 The six scoring criteria as pure functions. Each one returns how much it
 adds to the score and to the count of evaluable criteria ("valid points");
 the `Answer` class adds exactly these amounts to its counters.
 */
module Criteria {
  import opened Values

  /** What one or more criteria add: `score` to the score, `points` to the valid points. */
  datatype Tally = Tally(score: nat, points: nat)

  function Plus(a: Tally, b: Tally): Tally {
    Tally(a.score + b.score, a.points + b.points)
  }

  /** The answer fields the criteria read, with the hourly rate already normalised. */
  datatype Record = Record(
    enjoysJob: Value,
    respectedByManagers: Value,
    goodForCarers: Value,
    contractedHours: Value,
    hoursActuallyWorked: Value,
    unpaidExtraWork: Value,
    hourlyRate: Value)

  /** The company's fixed values: the most overtime and the least hourly wage accepted. */
  datatype Policy = Policy(maxOvertime: real, minWage: real)

  const DefaultMaxOvertime: real := 8.0
  const DefaultMinWage: real := 6.0

  /** `check_boolean_response`: a known answer counts, and scores when it is the positive one. */
  function BooleanCheck(value: Value, positiveResponse: string): (t: Tally)
    ensures t.score <= t.points <= 1
  {
    if Unknown(value) then Tally(0, 0)
    else if value == Str(positiveResponse) then Tally(1, 1)
    else Tally(0, 1)
  }

  /** In `check_hours` the subtraction succeeds unless an hours value is a string other than "unsure". */
  predicate HoursSubtractable(worked: Value, contracted: Value) {
    Unknown(worked) || Unknown(contracted) || (worked.Num? && contracted.Num?)
  }

  /** `check_hours`: known hours count, and score when the overtime is at most the maximum. */
  function HoursCheck(worked: Value, contracted: Value, maxOvertime: real): (t: Tally)
    requires HoursSubtractable(worked, contracted)
    ensures t.score <= t.points <= 1
  {
    if Unknown(worked) || Unknown(contracted) then Tally(0, 0)
    else if worked.n - contracted.n <= maxOvertime then Tally(1, 1)
    else Tally(0, 1)
  }

  /** In `check_rate` the comparison succeeds unless the rate is a string other than "unsure". */
  predicate RateComparable(rate: Value) {
    Unknown(rate) || rate.Num?
  }

  /** `check_rate`: a known rate counts, and scores when it is at least the minimum wage. */
  function RateCheck(rate: Value, minWage: real): (t: Tally)
    requires RateComparable(rate)
    ensures t.score <= t.points <= 1
  {
    if Unknown(rate) then Tally(0, 0)
    else if rate.n >= minWage then Tally(1, 1)
    else Tally(0, 1)
  }

  /** The record can be scored without raising an exception. */
  predicate Scorable(r: Record) {
    HoursSubtractable(r.hoursActuallyWorked, r.contractedHours) && RateComparable(r.hourlyRate)
  }

  /** What `calculate_score` adds to the counters: the six criteria in their fixed order. */
  function Evaluate(r: Record, p: Policy): (t: Tally)
    requires Scorable(r)
    ensures t.score <= t.points <= 6
  {
    var enjoys := BooleanCheck(r.enjoysJob, "yes");
    var respected := BooleanCheck(r.respectedByManagers, "yes");
    var carers := BooleanCheck(r.goodForCarers, "yes");
    var unpaid := BooleanCheck(r.unpaidExtraWork, "no");
    var hours := HoursCheck(r.hoursActuallyWorked, r.contractedHours, p.maxOvertime);
    var rate := RateCheck(r.hourlyRate, p.minWage);
    Plus(Plus(Plus(Plus(Plus(enjoys, respected), carers), unpaid), hours), rate)
  }

  /**
   Proof helper: the six tallies added to a zero tally in the order the
   checks run, which is how the counters of an `Answer` accumulate them.
   */
  lemma EvaluateInOrder(r: Record, p: Policy)
    requires Scorable(r)
    ensures Evaluate(r, p) == Plus(Plus(Plus(Plus(Plus(Plus(Tally(0, 0),
      BooleanCheck(r.enjoysJob, "yes")), BooleanCheck(r.respectedByManagers, "yes")),
      BooleanCheck(r.goodForCarers, "yes")), BooleanCheck(r.unpaidExtraWork, "no")),
      HoursCheck(r.hoursActuallyWorked, r.contractedHours, p.maxOvertime)),
      RateCheck(r.hourlyRate, p.minWage))
  {
  }

  /** No criterion has the data it needs. */
  predicate AllUnknown(r: Record) {
    && Unknown(r.enjoysJob) && Unknown(r.respectedByManagers) && Unknown(r.goodForCarers)
    && Unknown(r.unpaidExtraWork)
    && (Unknown(r.hoursActuallyWorked) || Unknown(r.contractedHours))
    && Unknown(r.hourlyRate)
  }

  /**
   The float `percentage` of `calculate_score`, with exact reals in place of
   floating point. Dividing by zero valid points gives NaN for a zero score
   and an infinity otherwise, as Ruby's float division does.
   */
  datatype Percent = Exact(value: real) | NaN | Infinity(negative: bool)

  function Percentage(score: int, validPoints: nat): (p: Percent)
    ensures p.Exact? <==> validPoints > 0
    ensures p.Exact? ==> p.value * validPoints as real == score as real * 100.0
    ensures p.Exact? && 0 <= score <= validPoints ==> 0.0 <= p.value <= 100.0
    ensures p.NaN? <==> validPoints == 0 && score == 0
    ensures p.Infinity? ==> p.negative == (score < 0)
  {
    if validPoints == 0 then
      if score == 0 then NaN else Infinity(score < 0)
    else
      Exact(score as real / validPoints as real * 100.0)
  }

  // ---------------------------------------------------------------------------
  // Properties of the criteria

  /** A boolean answer counts exactly when it is known. */
  lemma BooleanCountsIffKnown(value: Value, positiveResponse: string)
    ensures BooleanCheck(value, positiveResponse).points == 1 <==> !Unknown(value)
  {
  }

  /** The hours count exactly when both of them are known. */
  lemma HoursCountIffKnown(worked: Value, contracted: Value, maxOvertime: real)
    requires HoursSubtractable(worked, contracted)
    ensures HoursCheck(worked, contracted, maxOvertime).points == 1 <==> !Unknown(worked) && !Unknown(contracted)
  {
  }

  /** The rate counts exactly when it is known. */
  lemma RateCountsIffKnown(rate: Value, minWage: real)
    requires RateComparable(rate)
    ensures RateCheck(rate, minWage).points == 1 <==> !Unknown(rate)
  {
  }

  /** A boolean answer scores exactly when it equals the positive response (which is never "unsure"). */
  lemma BooleanScoresIffPositive(value: Value, positiveResponse: string)
    ensures BooleanCheck(value, positiveResponse).score == 1
        <==> value == Str(positiveResponse) && positiveResponse != "unsure"
  {
  }

  /** Known hours score exactly when the overtime, worked minus contracted, is at most the maximum. */
  lemma HoursScoresIffWithinLimit(worked: Value, contracted: Value, maxOvertime: real)
    requires HoursSubtractable(worked, contracted)
    ensures HoursCheck(worked, contracted, maxOvertime).score == 1
        <==> worked.Num? && contracted.Num? && worked.n - contracted.n <= maxOvertime
  {
  }

  /** A known rate scores exactly when it is at least the minimum wage. */
  lemma RateScoresIffAtLeastMinimum(rate: Value, minWage: real)
    requires RateComparable(rate)
    ensures RateCheck(rate, minWage).score == 1 <==> rate.Num? && rate.n >= minWage
  {
  }

  /** Any other known answer, such as "Yes" or "maybe", counts but scores nothing. */
  lemma OtherAnswersCountWithoutScoring(value: Value, positiveResponse: string)
    requires !Unknown(value) && value != Str(positiveResponse)
    ensures BooleanCheck(value, positiveResponse) == Tally(0, 1)
  {
  }

  /** The enjoyment answer adds its own tally (positive response "yes") to what the rest of the record gives. */
  lemma EnjoysJobAdds(r: Record, p: Policy, v: Value)
    requires Scorable(r)
    ensures Evaluate(r.(enjoysJob := v), p).score == Evaluate(r.(enjoysJob := Nil), p).score + BooleanCheck(v, "yes").score
    ensures Evaluate(r.(enjoysJob := v), p).points == Evaluate(r.(enjoysJob := Nil), p).points + BooleanCheck(v, "yes").points
  {
    var res := BooleanCheck(r.respectedByManagers, "yes");
    var goo := BooleanCheck(r.goodForCarers, "yes");
    var unp := BooleanCheck(r.unpaidExtraWork, "no");
    var h := HoursCheck(r.hoursActuallyWorked, r.contractedHours, p.maxOvertime);
    var ra := RateCheck(r.hourlyRate, p.minWage);
    var others := res.score + goo.score + unp.score + h.score + ra.score;
    var otherPoints := res.points + goo.points + unp.points + h.points + ra.points;
    assert Evaluate(r.(enjoysJob := Nil), p).score == others && Evaluate(r.(enjoysJob := Nil), p).points == otherPoints by {
      assert BooleanCheck(Nil, "yes") == Tally(0, 0);
    }
    var t := BooleanCheck(v, "yes");
    assert Evaluate(r.(enjoysJob := v), p).score == others + t.score
      && Evaluate(r.(enjoysJob := v), p).points == otherPoints + t.points;
  }

  /** The respect answer adds its own tally (positive response "yes") to what the rest of the record gives. */
  lemma RespectedByManagersAdds(r: Record, p: Policy, v: Value)
    requires Scorable(r)
    ensures Evaluate(r.(respectedByManagers := v), p).score == Evaluate(r.(respectedByManagers := Nil), p).score + BooleanCheck(v, "yes").score
    ensures Evaluate(r.(respectedByManagers := v), p).points == Evaluate(r.(respectedByManagers := Nil), p).points + BooleanCheck(v, "yes").points
  {
    var enj := BooleanCheck(r.enjoysJob, "yes");
    var goo := BooleanCheck(r.goodForCarers, "yes");
    var unp := BooleanCheck(r.unpaidExtraWork, "no");
    var h := HoursCheck(r.hoursActuallyWorked, r.contractedHours, p.maxOvertime);
    var ra := RateCheck(r.hourlyRate, p.minWage);
    var others := enj.score + goo.score + unp.score + h.score + ra.score;
    var otherPoints := enj.points + goo.points + unp.points + h.points + ra.points;
    assert Evaluate(r.(respectedByManagers := Nil), p).score == others && Evaluate(r.(respectedByManagers := Nil), p).points == otherPoints by {
      assert BooleanCheck(Nil, "yes") == Tally(0, 0);
    }
    var t := BooleanCheck(v, "yes");
    assert Evaluate(r.(respectedByManagers := v), p).score == others + t.score
      && Evaluate(r.(respectedByManagers := v), p).points == otherPoints + t.points;
  }

  /** The carers answer adds its own tally (positive response "yes") to what the rest of the record gives. */
  lemma GoodForCarersAdds(r: Record, p: Policy, v: Value)
    requires Scorable(r)
    ensures Evaluate(r.(goodForCarers := v), p).score == Evaluate(r.(goodForCarers := Nil), p).score + BooleanCheck(v, "yes").score
    ensures Evaluate(r.(goodForCarers := v), p).points == Evaluate(r.(goodForCarers := Nil), p).points + BooleanCheck(v, "yes").points
  {
    var enj := BooleanCheck(r.enjoysJob, "yes");
    var res := BooleanCheck(r.respectedByManagers, "yes");
    var unp := BooleanCheck(r.unpaidExtraWork, "no");
    var h := HoursCheck(r.hoursActuallyWorked, r.contractedHours, p.maxOvertime);
    var ra := RateCheck(r.hourlyRate, p.minWage);
    var others := enj.score + res.score + unp.score + h.score + ra.score;
    var otherPoints := enj.points + res.points + unp.points + h.points + ra.points;
    assert Evaluate(r.(goodForCarers := Nil), p).score == others && Evaluate(r.(goodForCarers := Nil), p).points == otherPoints by {
      assert BooleanCheck(Nil, "yes") == Tally(0, 0);
    }
    var t := BooleanCheck(v, "yes");
    assert Evaluate(r.(goodForCarers := v), p).score == others + t.score
      && Evaluate(r.(goodForCarers := v), p).points == otherPoints + t.points;
  }

  /** The unpaid-extra-work answer adds its own tally (positive response "no") to what the rest of the record gives. */
  lemma UnpaidExtraWorkAdds(r: Record, p: Policy, v: Value)
    requires Scorable(r)
    ensures Evaluate(r.(unpaidExtraWork := v), p).score == Evaluate(r.(unpaidExtraWork := Nil), p).score + BooleanCheck(v, "no").score
    ensures Evaluate(r.(unpaidExtraWork := v), p).points == Evaluate(r.(unpaidExtraWork := Nil), p).points + BooleanCheck(v, "no").points
  {
    var enj := BooleanCheck(r.enjoysJob, "yes");
    var res := BooleanCheck(r.respectedByManagers, "yes");
    var goo := BooleanCheck(r.goodForCarers, "yes");
    var h := HoursCheck(r.hoursActuallyWorked, r.contractedHours, p.maxOvertime);
    var ra := RateCheck(r.hourlyRate, p.minWage);
    var others := enj.score + res.score + goo.score + h.score + ra.score;
    var otherPoints := enj.points + res.points + goo.points + h.points + ra.points;
    assert Evaluate(r.(unpaidExtraWork := Nil), p).score == others && Evaluate(r.(unpaidExtraWork := Nil), p).points == otherPoints by {
      assert BooleanCheck(Nil, "no") == Tally(0, 0);
    }
    var t := BooleanCheck(v, "no");
    assert Evaluate(r.(unpaidExtraWork := v), p).score == others + t.score
      && Evaluate(r.(unpaidExtraWork := v), p).points == otherPoints + t.points;
  }

  /**
   Unpaid extra work is scored the other way round from the other three
   questions: against the same record with that answer missing, "no" adds a
   valid point and a score, "yes" only a valid point.
   */
  lemma UnpaidExtraWorkPolarity(r: Record, p: Policy)
    requires Scorable(r)
    ensures Evaluate(r.(unpaidExtraWork := Str("no")), p).score == Evaluate(r.(unpaidExtraWork := Nil), p).score + 1
    ensures Evaluate(r.(unpaidExtraWork := Str("no")), p).points == Evaluate(r.(unpaidExtraWork := Nil), p).points + 1
    ensures Evaluate(r.(unpaidExtraWork := Str("yes")), p).score == Evaluate(r.(unpaidExtraWork := Nil), p).score
    ensures Evaluate(r.(unpaidExtraWork := Str("yes")), p).points == Evaluate(r.(unpaidExtraWork := Nil), p).points + 1
  {
    UnpaidExtraWorkAdds(r, p, Str("no"));
    UnpaidExtraWorkAdds(r, p, Str("yes"));
    assert BooleanCheck(Str("no"), "no") == Tally(1, 1);
    assert BooleanCheck(Str("yes"), "no") == Tally(0, 1);
  }

  /** The enjoyment question scores on "yes": "yes" adds a valid point and a score, "no" only a valid point. */
  lemma EnjoysJobPolarity(r: Record, p: Policy)
    requires Scorable(r)
    ensures Evaluate(r.(enjoysJob := Str("yes")), p).score == Evaluate(r.(enjoysJob := Nil), p).score + 1
    ensures Evaluate(r.(enjoysJob := Str("yes")), p).points == Evaluate(r.(enjoysJob := Nil), p).points + 1
    ensures Evaluate(r.(enjoysJob := Str("no")), p).score == Evaluate(r.(enjoysJob := Nil), p).score
    ensures Evaluate(r.(enjoysJob := Str("no")), p).points == Evaluate(r.(enjoysJob := Nil), p).points + 1
  {
    EnjoysJobAdds(r, p, Str("yes"));
    EnjoysJobAdds(r, p, Str("no"));
    assert BooleanCheck(Str("yes"), "yes") == Tally(1, 1);
    assert BooleanCheck(Str("no"), "yes") == Tally(0, 1);
  }

  /** The respect question scores on "yes": "yes" adds a valid point and a score, "no" only a valid point. */
  lemma RespectedByManagersPolarity(r: Record, p: Policy)
    requires Scorable(r)
    ensures Evaluate(r.(respectedByManagers := Str("yes")), p).score == Evaluate(r.(respectedByManagers := Nil), p).score + 1
    ensures Evaluate(r.(respectedByManagers := Str("yes")), p).points == Evaluate(r.(respectedByManagers := Nil), p).points + 1
    ensures Evaluate(r.(respectedByManagers := Str("no")), p).score == Evaluate(r.(respectedByManagers := Nil), p).score
    ensures Evaluate(r.(respectedByManagers := Str("no")), p).points == Evaluate(r.(respectedByManagers := Nil), p).points + 1
  {
    RespectedByManagersAdds(r, p, Str("yes"));
    RespectedByManagersAdds(r, p, Str("no"));
    assert BooleanCheck(Str("yes"), "yes") == Tally(1, 1);
    assert BooleanCheck(Str("no"), "yes") == Tally(0, 1);
  }

  /** The carers question scores on "yes": "yes" adds a valid point and a score, "no" only a valid point. */
  lemma GoodForCarersPolarity(r: Record, p: Policy)
    requires Scorable(r)
    ensures Evaluate(r.(goodForCarers := Str("yes")), p).score == Evaluate(r.(goodForCarers := Nil), p).score + 1
    ensures Evaluate(r.(goodForCarers := Str("yes")), p).points == Evaluate(r.(goodForCarers := Nil), p).points + 1
    ensures Evaluate(r.(goodForCarers := Str("no")), p).score == Evaluate(r.(goodForCarers := Nil), p).score
    ensures Evaluate(r.(goodForCarers := Str("no")), p).points == Evaluate(r.(goodForCarers := Nil), p).points + 1
  {
    GoodForCarersAdds(r, p, Str("yes"));
    GoodForCarersAdds(r, p, Str("no"));
    assert BooleanCheck(Str("yes"), "yes") == Tally(1, 1);
    assert BooleanCheck(Str("no"), "yes") == Tally(0, 1);
  }

  /** The overtime limit is inclusive: overtime equal to the maximum passes, anything above fails. */
  lemma HoursBoundary(contracted: real, maxOvertime: real, extra: real)
    requires extra > 0.0
    ensures HoursCheck(Num(contracted + maxOvertime), Num(contracted), maxOvertime) == Tally(1, 1)
    ensures HoursCheck(Num(contracted + maxOvertime + extra), Num(contracted), maxOvertime) == Tally(0, 1)
  {
  }

  /** Working fewer hours than contracted is negative overtime, which passes any non-negative limit. */
  lemma NegativeOvertimePasses(contracted: real, short: real, maxOvertime: real)
    requires short > 0.0 && maxOvertime >= 0.0
    ensures HoursCheck(Num(contracted - short), Num(contracted), maxOvertime) == Tally(1, 1)
  {
  }

  /** The minimum wage is inclusive: a rate equal to it passes, anything below fails. */
  lemma RateBoundary(minWage: real, less: real)
    requires less > 0.0
    ensures RateCheck(Num(minWage), minWage) == Tally(1, 1)
    ensures RateCheck(Num(minWage - less), minWage) == Tally(0, 1)
  {
  }

  /** No valid point at all happens exactly when every criterion lacks its data. */
  lemma NothingEvaluableIffAllUnknown(r: Record, p: Policy)
    requires Scorable(r)
    ensures Evaluate(r, p).points == 0 <==> AllUnknown(r)
  {
    var enjoys := BooleanCheck(r.enjoysJob, "yes");
    var respected := BooleanCheck(r.respectedByManagers, "yes");
    var carers := BooleanCheck(r.goodForCarers, "yes");
    var unpaid := BooleanCheck(r.unpaidExtraWork, "no");
    var hours := HoursCheck(r.hoursActuallyWorked, r.contractedHours, p.maxOvertime);
    var rate := RateCheck(r.hourlyRate, p.minWage);
    BooleanCountsIffKnown(r.enjoysJob, "yes");
    BooleanCountsIffKnown(r.respectedByManagers, "yes");
    BooleanCountsIffKnown(r.goodForCarers, "yes");
    BooleanCountsIffKnown(r.unpaidExtraWork, "no");
    HoursCountIffKnown(r.hoursActuallyWorked, r.contractedHours, p.maxOvertime);
    RateCountsIffKnown(r.hourlyRate, p.minWage);
    assert Evaluate(r, p).points
        == enjoys.points + respected.points + carers.points + unpaid.points + hours.points + rate.points;
  }

  /** A numeric rate always counts, so every record with one has at least one valid point. */
  lemma NumericRateAlwaysCounts(r: Record, p: Policy)
    requires Scorable(r) && r.hourlyRate.Num?
    ensures RateCheck(r.hourlyRate, p.minWage).points == 1
    ensures Evaluate(r, p).points >= 1
  {
  }

  /** Doubling both counters leaves the percentage as it was. */
  lemma PercentageScaleFree(score: int, validPoints: nat)
    ensures Percentage(2 * score, 2 * validPoints) == Percentage(score, validPoints)
  {
    if validPoints == 0 {
      return;
    }
    var a := Percentage(score, validPoints).value;
    var b := Percentage(2 * score, 2 * validPoints).value;
    assert b * (2 * validPoints) as real == (2 * score) as real * 100.0;
    assert a * validPoints as real == score as real * 100.0;
    assert (b - a) * validPoints as real == 0.0;
  }
}
