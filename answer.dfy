/**
 The `Answer` object: one survey answer together with the two counters that
 its checks increment. The counters start at zero when the object is built
 and are never reset, so every call of `CalculateScore` adds to them.
 */
module Survey {
  import opened Values
  import opened Criteria
  import opened HourlyRate

  class Answer {
    // The answer fields (public accessors in main.rb, so callers may reassign them).
    var enjoysJob: Value
    var respectedByManagers: Value
    var goodForCarers: Value
    var contractedHours: Value
    var hoursActuallyWorked: Value
    var unpaidExtraWork: Value
    var hourlyRate: Value

    // The counters.
    var score: int
    var validPoints: nat

    // The company's fixed values, set once.
    const maxOvertime: real
    const minWage: real

    /**
     Every answer field is a required keyword; the two fixed values default
     to 8 hours and 6.0. The raw hourly rate is normalised here, once.
     */
    constructor (nameonly enjoysJob: Value, nameonly respectedByManagers: Value,
                 nameonly goodForCarers: Value, nameonly contractedHours: Value,
                 nameonly hoursActuallyWorked: Value, nameonly unpaidExtraWork: Value,
                 nameonly hourlyRate: Value,
                 nameonly maxOvertime: real := DefaultMaxOvertime,
                 nameonly minWage: real := DefaultMinWage)
      requires hourlyRate != Nil  // parsing a nil rate raises NoMethodError
      ensures this.enjoysJob == enjoysJob && this.respectedByManagers == respectedByManagers
      ensures this.goodForCarers == goodForCarers && this.unpaidExtraWork == unpaidExtraWork
      ensures this.contractedHours == contractedHours && this.hoursActuallyWorked == hoursActuallyWorked
      ensures this.hourlyRate == Num(ParseHourlyRate(hourlyRate))
      ensures this.maxOvertime == maxOvertime && this.minWage == minWage
      ensures score == 0 && validPoints == 0
    {
      this.enjoysJob := enjoysJob;
      this.respectedByManagers := respectedByManagers;
      this.goodForCarers := goodForCarers;
      this.contractedHours := contractedHours;
      this.hoursActuallyWorked := hoursActuallyWorked;
      this.unpaidExtraWork := unpaidExtraWork;
      this.hourlyRate := Num(ParseHourlyRate(hourlyRate));
      score := 0;
      validPoints := 0;
      this.maxOvertime := maxOvertime;
      this.minWage := minWage;
    }

    /** The answer fields as one value. */
    function Answers(): Record
      reads this`enjoysJob, this`respectedByManagers, this`goodForCarers, this`contractedHours,
        this`hoursActuallyWorked, this`unpaidExtraWork, this`hourlyRate
    {
      Record(enjoysJob, respectedByManagers, goodForCarers, contractedHours,
             hoursActuallyWorked, unpaidExtraWork, hourlyRate)
    }

    function Thresholds(): Policy {
      Policy(maxOvertime, minWage)
    }

    /** Skip an unknown answer; otherwise count it, and score it when it is the positive response. */
    method CheckBooleanResponse(value: Value, positiveResponse: string := "yes")
      modifies this`score, this`validPoints
      ensures score == old(score) + BooleanCheck(value, positiveResponse).score
      ensures validPoints == old(validPoints) + BooleanCheck(value, positiveResponse).points
    {
      if Unknown(value) {
        return;
      }
      validPoints := validPoints + 1;
      if value == Str(positiveResponse) {
        score := score + 1;
      }
    }

    /** Skip unless both hours are known; otherwise count, and score when the overtime is within the limit. */
    method CheckHours()
      requires HoursSubtractable(hoursActuallyWorked, contractedHours)
      modifies this`score, this`validPoints
      ensures score == old(score) + HoursCheck(hoursActuallyWorked, contractedHours, maxOvertime).score
      ensures validPoints == old(validPoints) + HoursCheck(hoursActuallyWorked, contractedHours, maxOvertime).points
    {
      if Unknown(hoursActuallyWorked) || Unknown(contractedHours) {
        return;
      }
      validPoints := validPoints + 1;
      var overtime := hoursActuallyWorked.n - contractedHours.n;
      if overtime <= maxOvertime {
        score := score + 1;
      }
    }

    /** Skip an unknown rate; otherwise count, and score when the rate reaches the minimum wage. */
    method CheckRate()
      requires RateComparable(hourlyRate)
      modifies this`score, this`validPoints
      ensures score == old(score) + RateCheck(hourlyRate, minWage).score
      ensures validPoints == old(validPoints) + RateCheck(hourlyRate, minWage).points
    {
      if Unknown(hourlyRate) {
        return;
      }
      validPoints := validPoints + 1;
      if hourlyRate.n >= minWage {
        score := score + 1;
      }
    }

    /** Run the six checks in order, then report both counters and the percentage. */
    method CalculateScore() returns (total: int, valid: nat, percentage: Percent)
      requires Scorable(Answers())
      modifies this`score, this`validPoints
      ensures score == old(score) + Evaluate(Answers(), Thresholds()).score
      ensures validPoints == old(validPoints) + Evaluate(Answers(), Thresholds()).points
      ensures total == score && valid == validPoints && percentage == Percentage(score, validPoints)
      ensures Answers() == old(Answers())
    {
      ghost var done := Tally(0, 0);
      CheckBooleanResponse(enjoysJob);
      done := Plus(done, BooleanCheck(enjoysJob, "yes"));
      CheckBooleanResponse(respectedByManagers);
      done := Plus(done, BooleanCheck(respectedByManagers, "yes"));
      CheckBooleanResponse(goodForCarers);
      done := Plus(done, BooleanCheck(goodForCarers, "yes"));
      CheckBooleanResponse(unpaidExtraWork, positiveResponse := "no");
      done := Plus(done, BooleanCheck(unpaidExtraWork, "no"));
      assert score == old(score) + done.score && validPoints == old(validPoints) + done.points;
      CheckHours();
      done := Plus(done, HoursCheck(hoursActuallyWorked, contractedHours, maxOvertime));
      CheckRate();
      done := Plus(done, RateCheck(hourlyRate, minWage));
      EvaluateInOrder(Answers(), Thresholds());
      total, valid, percentage := score, validPoints, Percentage(score, validPoints);
    }
  }

  /** The answer fields with the raw hourly rate replaced by its normalised number. */
  function Normalised(raw: Record): (r: Record)
    requires raw.hourlyRate != Nil
    ensures r.hourlyRate.Num? && RateComparable(r.hourlyRate)
    ensures r.(hourlyRate := raw.hourlyRate) == raw
  {
    raw.(hourlyRate := Num(ParseHourlyRate(raw.hourlyRate)))
  }

  /**
   `runner` without its output: build an `Answer` from decoded fields and
   score it once. Because the rate is always numeric after construction, the
   wage criterion always counts and the percentage is always a number.
   */
  method Runner(raw: Record, policy: Policy) returns (score: int, validPoints: nat, percentage: Percent)
    requires raw.hourlyRate != Nil
    requires HoursSubtractable(raw.hoursActuallyWorked, raw.contractedHours)
    ensures score == Evaluate(Normalised(raw), policy).score
    ensures validPoints == Evaluate(Normalised(raw), policy).points
    ensures 0 <= score <= validPoints <= 6 && validPoints >= 1
    ensures percentage == Percentage(score, validPoints) && percentage.Exact?
  {
    var ans := new Answer(enjoysJob := raw.enjoysJob, respectedByManagers := raw.respectedByManagers,
                          goodForCarers := raw.goodForCarers, contractedHours := raw.contractedHours,
                          hoursActuallyWorked := raw.hoursActuallyWorked,
                          unpaidExtraWork := raw.unpaidExtraWork, hourlyRate := raw.hourlyRate,
                          maxOvertime := policy.maxOvertime, minWage := policy.minWage);
    assert ans.Answers() == Normalised(raw);
    NumericRateAlwaysCounts(ans.Answers(), policy);
    ghost var t := Evaluate(Normalised(raw), policy);
    score, validPoints, percentage := ans.CalculateScore();
    assert score == t.score && validPoints == t.points && t.points >= 1;
  }

  /**
   Calling `CalculateScore` a second time on the same object adds the same
   amounts again: both counters double, and the percentage stays the same.
   */
  method ScoreTwice(raw: Record, policy: Policy) returns (first: (int, nat, Percent), second: (int, nat, Percent))
    requires raw.hourlyRate != Nil
    requires HoursSubtractable(raw.hoursActuallyWorked, raw.contractedHours)
    ensures first.0 == Evaluate(Normalised(raw), policy).score
    ensures first.1 == Evaluate(Normalised(raw), policy).points
    ensures second.0 == 2 * first.0 && second.1 == 2 * first.1
    ensures second.2 == first.2
  {
    var ans := new Answer(enjoysJob := raw.enjoysJob, respectedByManagers := raw.respectedByManagers,
                          goodForCarers := raw.goodForCarers, contractedHours := raw.contractedHours,
                          hoursActuallyWorked := raw.hoursActuallyWorked,
                          unpaidExtraWork := raw.unpaidExtraWork, hourlyRate := raw.hourlyRate,
                          maxOvertime := policy.maxOvertime, minWage := policy.minWage);
    assert ans.Answers() == Normalised(raw);
    ghost var t := Evaluate(Normalised(raw), policy);
    NumericRateAlwaysCounts(Normalised(raw), policy);
    var s1, v1, p1 := ans.CalculateScore();
    assert s1 == t.score && v1 == t.points && ans.Answers() == Normalised(raw);
    var s2, v2, p2 := ans.CalculateScore();
    assert s2 == 2 * s1 && v2 == 2 * v1;
    PercentageScaleFree(s1, v1);
    first, second := (s1, v1, p1), (s2, v2, p2);
  }

  /** The sample answer file once decoded; its extra keys (age, submission date) are dropped. */
  const SampleAnswers := Record(
    enjoysJob := Str("yes"), respectedByManagers := Str("no"), goodForCarers := Str("yes"),
    contractedHours := Num(20.0), hoursActuallyWorked := Num(34.0),
    unpaidExtraWork := Str("unsure"), hourlyRate := Str("£8.22"))

  /** The same answers once the rate is normalised. */
  const SampleRecord := SampleAnswers.(hourlyRate := Num(8.22))

  lemma SampleNormalised()
    ensures Normalised(SampleAnswers) == SampleRecord
  {
    SampleRate();
  }

  /**
   Enjoyment, carers and wage score; respect counts without scoring; 14 hours
   of overtime exceed the limit of 8; unpaid extra work is skipped.
   */
  lemma SampleTally()
    ensures Evaluate(SampleRecord, Policy(DefaultMaxOvertime, DefaultMinWage)).score == 3
    ensures Evaluate(SampleRecord, Policy(DefaultMaxOvertime, DefaultMinWage)).points == 5
  {
    var r := SampleRecord;
    assert BooleanCheck(r.enjoysJob, "yes") == Tally(1, 1);
    assert BooleanCheck(r.respectedByManagers, "yes") == Tally(0, 1);
    assert BooleanCheck(r.goodForCarers, "yes") == Tally(1, 1);
    assert BooleanCheck(r.unpaidExtraWork, "no") == Tally(0, 0);
    assert HoursCheck(r.hoursActuallyWorked, r.contractedHours, DefaultMaxOvertime) == Tally(0, 1);
    assert RateCheck(r.hourlyRate, DefaultMinWage) == Tally(1, 1);
  }

  /** The sample answer file, as decoded, scores 3 with 5 valid points under the default policy. */
  lemma SampleScores()
    ensures Evaluate(Normalised(SampleAnswers), Policy(DefaultMaxOvertime, DefaultMinWage)).score == 3
    ensures Evaluate(Normalised(SampleAnswers), Policy(DefaultMaxOvertime, DefaultMinWage)).points == 5
  {
    SampleNormalised();
    SampleTally();
  }

  /** The sample answer file with the default policy scores 3 out of 5, which is 60 percent. */
  method SampleRun() returns (score: int, validPoints: nat, percentage: Percent)
    ensures score == 3 && validPoints == 5 && percentage.Exact? && percentage.value == 60.0
  {
    ghost var t := Evaluate(Normalised(SampleAnswers), Policy(DefaultMaxOvertime, DefaultMinWage));
    SampleScores();
    assert t.score == 3 && t.points == 5;
    score, validPoints, percentage := Runner(SampleAnswers, Policy(DefaultMaxOvertime, DefaultMinWage));
    assert score == t.score && validPoints == t.points;
    assert percentage == Percentage(3, 5);
  }

  /**
   The rate "unsure" is not skipped: it is read as a wage of 0 before any
   check runs, so it counts and fails any positive minimum wage.
   */
  lemma UnsureRateCountsAsFailedWage(minWage: real)
    requires minWage > 0.0
    ensures RateCheck(Num(ParseHourlyRate(Str("unsure"))), minWage) == Tally(0, 1)
  {
    UnsureRateReadsZero();
  }
}
