/** The timing rules of the engine loop (engine/Instance.cs): the rate
    setters, the two fire tests and the clamped fixed-step delta. Times are
    in seconds, over `real` in place of `float`. */
module Timing {
  import opened Lists

  function Abs(v: real): real
  {
    if v < 0.0 then -v else v
  }

  /** The initial desired frame interval, fixed interval and tolerance. */
  const DefaultDesiredDt: real := 0.004
  const DefaultDesiredFixedDt: real := 0.02
  const DefaultTolerance: real := 0.1

  /** The interval the UpdateRate and FixedUpdateRate setters store for a
      rate in calls per second: 0 stays 0 (no cap for the frame step, no
      fixed step at all), any other rate gives the interval of its
      magnitude. */
  function IntervalForRate(rate: real): (dt: real)
    ensures dt >= 0.0
    ensures dt == 0.0 <==> rate == 0.0
    ensures rate != 0.0 ==> dt * Abs(rate) == 1.0
  {
    if rate == 0.0 then 0.0 else 1.0 / Abs(rate)
  }

  /** A rate as the getters report it: 1 / interval, which the float
      division makes infinite when the interval is 0. */
  datatype Rate = Finite(perSecond: real) | Infinite

  function RateForInterval(dt: real): Rate
  {
    if dt == 0.0 then Infinite else Finite(1.0 / dt)
  }

  /** Reading a rate back gives the magnitude that was set, or infinity
      for 0. */
  lemma RateRoundTrip(rate: real)
    ensures RateForInterval(IntervalForRate(rate)) == if rate == 0.0 then Infinite else Finite(Abs(rate))
  {
    if rate != 0.0 {
      var dt := IntervalForRate(rate);
      assert dt * Abs(rate) == 1.0;
      assert 1.0 / dt == Abs(rate);
    }
  }

  /** The sign of a rate is ignored. */
  lemma RateSignIgnored(rate: real)
    ensures IntervalForRate(-rate) == IntervalForRate(rate)
  {
  }

  /** The FluctuationTolerancy setter: negative values become 0. */
  function ClampTolerance(v: real): (t: real)
    ensures t >= 0.0 && t >= v
    ensures t == v || t == 0.0
  {
    if v < 0.0 then 0.0 else v
  }

  /** The frame step fires once strictly more than the desired interval
      has elapsed. */
  predicate FrameFires(elapsed: real, desiredDt: real)
  {
    elapsed > desiredDt
  }

  /** The fixed step fires once strictly more than the desired fixed
      interval has elapsed, and never when that interval is 0. */
  predicate FixedFires(elapsed: real, desiredFixedDt: real)
  {
    desiredFixedDt != 0.0 && elapsed > desiredFixedDt
  }

  /** The most the fixed step is ever handed. */
  function FixedCap(desiredFixedDt: real, tolerance: real): real
  {
    desiredFixedDt * (1.0 + tolerance)
  }

  /** The three rate parameters of the loop. */
  datatype Rates = Rates(desiredDt: real, desiredFixedDt: real, tolerance: real)
  {
    /** What the setters guarantee. */
    predicate Valid()
    {
      desiredDt >= 0.0 && desiredFixedDt >= 0.0 && tolerance >= 0.0
    }
  }

  /** What one pass of the loop runs: the frame step with its delta, the
      fixed step with its delta. */
  datatype Tick = Tick(frame: Option<real>, fixed: Option<real>)

  /** The decisions of one loop iteration (the fire tests and the delta
      clamp of the loop body), given the time elapsed on the
      frame clock and on the fixed clock since each was last restarted. */
  function Schedule(rates: Rates, elapsedFrame: real, elapsedFixed: real): (t: Tick)
    ensures t.frame.Some? <==> FrameFires(elapsedFrame, rates.desiredDt)
    ensures t.frame.Some? ==> t.frame.value == elapsedFrame
    ensures t.fixed.Some? <==> FixedFires(elapsedFixed, rates.desiredFixedDt)
    ensures t.fixed.Some? ==> t.fixed.value <= FixedCap(rates.desiredFixedDt, rates.tolerance)
    ensures t.fixed.Some? ==> t.fixed.value <= elapsedFixed
    ensures t.fixed.Some? ==>
      t.fixed.value == elapsedFixed || t.fixed.value == FixedCap(rates.desiredFixedDt, rates.tolerance)
  {
    Tick(
      if elapsedFrame > rates.desiredDt then Some(elapsedFrame) else None,
      if rates.desiredFixedDt != 0.0 && elapsedFixed > rates.desiredFixedDt
      then Some(Min(rates.desiredFixedDt * (1.0 + rates.tolerance), elapsedFixed))
      else None)
  }

  function Min(a: real, b: real): real
  {
    if a < b then a else b
  }

  /** With a fixed rate of 0 the fixed step never fires, however much time
      passes. */
  lemma FixedStepDisabled(rates: Rates, elapsedFrame: real, elapsedFixed: real)
    requires rates.desiredFixedDt == IntervalForRate(0.0)
    ensures Schedule(rates, elapsedFrame, elapsedFixed).fixed == None
  {
  }

  /** When the fixed step fires its delta lies between the desired fixed
      interval and that interval stretched by the tolerance, and it is the
      elapsed time itself whenever that is below the cap. */
  lemma {:induction false} FixedDeltaBounds(rates: Rates, elapsedFrame: real, elapsedFixed: real)
    requires rates.Valid()
    requires FixedFires(elapsedFixed, rates.desiredFixedDt)
    ensures var d := Schedule(rates, elapsedFrame, elapsedFixed).fixed.value;
      0.0 < rates.desiredFixedDt <= d <= FixedCap(rates.desiredFixedDt, rates.tolerance)
    ensures elapsedFixed <= FixedCap(rates.desiredFixedDt, rates.tolerance) ==>
      Schedule(rates, elapsedFrame, elapsedFixed).fixed == Some(elapsedFixed)
  {
    var cap := FixedCap(rates.desiredFixedDt, rates.tolerance);
    assert cap == rates.desiredFixedDt + rates.desiredFixedDt * rates.tolerance;
    assert rates.desiredFixedDt * rates.tolerance >= 0.0;
  }
}
