/**
 * The Reconstructor pipeline filter: a small state machine that undoes the
 * tablet's EMA smoothing on each tablet report, with a baseline that is
 * dropped when the pen leaves the sensing area and ignored when the reports
 * are too far apart in time.
 *
 * Times and the reset delay are reals in milliseconds; the clock reading
 * `now` is a parameter of every operation that would read the stopwatch.
 */
module ReconstructorFilter {
  import opened Wrappers
  import opened Vectors
  import opened EmaKernel

  /** The report variants the filter tells apart. */
  datatype ReportKind = OutOfRangeReport | TabletReport | OtherReport

  /**
   * A device report object. Only a tablet report's position means anything;
   * the filter overwrites it in place and leaves every other field alone.
   */
  class DeviceReport {
    const kind: ReportKind
    var position: Vec2

    constructor (kind: ReportKind, position: Vec2)
      ensures this.kind == kind && this.position == position
    {
      this.kind := kind;
      this.position := position;
    }
  }

  /** Math.Clamp: `value` moved into the interval [lo, hi]. */
  function Clamp(value: real, lo: real, hi: real): (r: real)
    requires lo <= hi
    ensures lo <= r <= hi
    ensures lo <= value <= hi ==> r == value
  {
    if value < lo then lo else if hi < value then hi else value
  }

  /** The clamped value is the point of [lo, hi] nearest to the input. */
  lemma ClampIsNearest(value: real, lo: real, hi: real, y: real)
    requires lo <= hi && lo <= y <= hi
    ensures var d := Clamp(value, lo, hi) - value; var e := y - value;
            (if d < 0.0 then -d else d) <= (if e < 0.0 then -e else e)
  {
  }

  /** The two configuration values: the EMA weight and the reset delay in ms. */
  datatype Configuration = Configuration(weight: real, delay: real)

  /** The filter's own state: the baseline and the time the stopwatch was last (re)started. */
  datatype FilterState = FilterState(lastAvg: Option<Vec2>, lastRestart: real)

  /** What one report produces: the next state and the emitted position. */
  datatype Outcome = Outcome(state: FilterState, position: Vec2)

  /** Whether a tablet report arriving at `now` is reconstructed rather than passed through. */
  predicate Reconstructs(cfg: Configuration, st: FilterState, now: real) {
    st.lastAvg.Some? && now - st.lastRestart <= cfg.delay
  }

  /** The kernel divides by the weight, so it must not be zero where it is used. */
  predicate StepDefined(cfg: Configuration, st: FilterState, kind: ReportKind, now: real) {
    kind == TabletReport && Reconstructs(cfg, st, now) ==> cfg.weight != 0.0
  }

  /**
   * The effect of one report on the state, and the position it leaves in the
   * report. The stopwatch is read (and restarted) only when a baseline
   * exists, as the short-circuit `&&` of the filter's test has it.
   */
  function Step(cfg: Configuration, st: FilterState, kind: ReportKind, position: Vec2, now: real): Outcome
    requires StepDefined(cfg, st, kind, now)
  {
    match kind
    case OutOfRangeReport => Outcome(st.(lastAvg := None), position)
    case OtherReport => Outcome(st, position)
    case TabletReport =>
      if st.lastAvg.None? then
        Outcome(FilterState(Some(position), st.lastRestart), position)
      else
        var out := if Reconstructs(cfg, st, now)
                   then ReverseEma(position, st.lastAvg.value, cfg.weight)
                   else position;
        Outcome(FilterState(Some(position), now), out)
  }

  class Reconstructor {
    var lastAvg: Option<Vec2>
    var weight: real
    var delay: real
    var lastRestart: real

    /** The weight is clamped on every assignment, so it always lies in [0, 1]. */
    ghost predicate Valid()
      reads this
    {
      0.0 <= weight <= 1.0
    }

    function Config(): Configuration
      reads this
    {
      Configuration(weight, delay)
    }

    function State(): FilterState
      reads this
    {
      FilterState(lastAvg, lastRestart)
    }

    /**
     * A new filter holds the C# field defaults: no baseline, weight 0 and a
     * zero delay until the host assigns the properties; the stopwatch starts
     * running at `createdAt`.
     */
    constructor (createdAt: real)
      ensures Valid()
      ensures lastAvg == None && weight == 0.0 && delay == 0.0 && lastRestart == createdAt
    {
      lastAvg := None;
      weight := 0.0;
      delay := 0.0;
      lastRestart := createdAt;
    }

    /** The EMAWeight getter. */
    function EMAWeight(): (w: real)
      reads this
      requires Valid()
      ensures 0.0 <= w <= 1.0
    {
      weight
    }

    /** The EMAWeight setter: stores the value clamped to [0, 1]. */
    method SetEMAWeight(value: real)
      modifies this`weight
      ensures Valid()
      ensures weight == Clamp(value, 0.0, 1.0)
      ensures 0.0 <= value <= 1.0 ==> EMAWeight() == value
      ensures value < 0.0 ==> EMAWeight() == 0.0
      ensures 1.0 < value ==> EMAWeight() == 1.0
    {
      weight := Clamp(value, 0.0, 1.0);
    }

    /** The ResetDelay getter, in milliseconds. */
    function ResetDelay(): real
      reads this
    {
      delay
    }

    /** The ResetDelay setter: reading the property back gives the value assigned. */
    method SetResetDelay(ms: real)
      modifies this`delay
      ensures ResetDelay() == ms
    {
      delay := ms;
    }

    /** HPETDeltaStopwatch.Restart: the time since the last restart, and a new start at `now`. */
    method RestartStopwatch(now: real) returns (elapsed: real)
      modifies this`lastRestart
      ensures elapsed == now - old(lastRestart)
      ensures lastRestart == now
    {
      elapsed := now - lastRestart;
      lastRestart := now;
    }

    /**
     * Consume: handles one report and emits exactly one report, the same
     * object it was given. An out-of-range report drops the baseline; a tablet
     * report is reconstructed or passed through, its raw position becomes the
     * baseline and the output is written back into it; any other report is
     * left alone.
     */
    method Consume(value: DeviceReport, now: real) returns (emitted: DeviceReport)
      requires Valid()
      requires StepDefined(Config(), State(), value.kind, now)
      modifies this`lastAvg, this`lastRestart, value`position
      ensures Valid() && Config() == old(Config())
      ensures emitted == value
      ensures var o := Step(old(Config()), old(State()), value.kind, old(value.position), now);
              State() == o.state && value.position == o.position
      ensures value.kind == OutOfRangeReport ==>
                lastAvg == None && lastRestart == old(lastRestart) && value.position == old(value.position)
      ensures value.kind == OtherReport ==>
                lastAvg == old(lastAvg) && lastRestart == old(lastRestart) && value.position == old(value.position)
      ensures value.kind == TabletReport ==> lastAvg == Some(old(value.position))
      ensures value.kind == TabletReport && old(lastAvg).None? ==>
                lastRestart == old(lastRestart) && value.position == old(value.position)
      ensures value.kind == TabletReport && old(lastAvg).Some? ==>
                lastRestart == now &&
                value.position == if now - old(lastRestart) <= delay
                                  then ReverseEma(old(value.position), old(lastAvg).value, weight)
                                  else old(value.position)
    {
      if value.kind == OutOfRangeReport {
        lastAvg := None;
      } else if value.kind == TabletReport {
        var reconstruct := false;
        if lastAvg.Some? {
          var elapsed := RestartStopwatch(now);
          reconstruct := elapsed <= delay;
        }
        var truePoint := if reconstruct then ReverseEma(value.position, lastAvg.value, weight)
                         else value.position;
        lastAvg := Some(value.position);
        value.position := truePoint;
      }
      emitted := value;
    }
  }

  /** One report as the host delivers it: its kind, its position and its arrival time. */
  datatype Sample = Sample(kind: ReportKind, position: Vec2, time: real)

  /** The state after a stream of reports, and the position emitted for each of them. */
  datatype Trace = Trace(state: FilterState, emitted: seq<Vec2>)

  /**
   * Feeding reports one by one, in arrival order, to a filter whose
   * configuration does not change. Exactly one position is emitted per
   * report, and reports other than tablet reports come out unchanged.
   */
  function Run(cfg: Configuration, init: FilterState, samples: seq<Sample>): (r: Trace)
    requires cfg.weight != 0.0
    ensures |r.emitted| == |samples|
    ensures forall i :: 0 <= i < |samples| && samples[i].kind != TabletReport ==>
              r.emitted[i] == samples[i].position
    decreases |samples|
  {
    if samples == [] then Trace(init, [])
    else
      var prev := Run(cfg, init, samples[..|samples| - 1]);
      var s := samples[|samples| - 1];
      var o := Step(cfg, prev.state, s.kind, s.position, s.time);
      Trace(o.state, prev.emitted + [o.position])
  }

  /** The position emitted for report `i` is what one step makes of it in the state the earlier reports left. */
  lemma {:induction false} EmittedAt(cfg: Configuration, init: FilterState, samples: seq<Sample>, i: nat)
    requires cfg.weight != 0.0 && i < |samples|
    ensures Run(cfg, init, samples).emitted[i] ==
            Step(cfg, Run(cfg, init, samples[..i]).state, samples[i].kind, samples[i].position, samples[i].time).position
  {
    var n := |samples| - 1;
    if i < n {
      var front := samples[..n];
      EmittedAt(cfg, init, front, i);
      assert front[..i] == samples[..i];
    } else {
      assert samples[..i] == samples[..n];
    }
  }

  /**
   * The baseline after a stream is the raw position of the last tablet
   * report, never a reconstructed one, provided no out-of-range report came
   * after it.
   */
  lemma {:induction false} BaselineIsLastRawPosition(cfg: Configuration, init: FilterState, samples: seq<Sample>, i: nat)
    requires cfg.weight != 0.0 && i < |samples|
    requires samples[i].kind == TabletReport
    requires forall j :: i < j < |samples| ==> samples[j].kind == OtherReport
    ensures Run(cfg, init, samples).state.lastAvg == Some(samples[i].position)
  {
    var n := |samples| - 1;
    if i < n {
      BaselineIsLastRawPosition(cfg, init, samples[..n], i);
    }
  }

  /** After an out-of-range report, and until the next tablet report, there is no baseline. */
  lemma {:induction false} OutOfRangeClearsBaseline(cfg: Configuration, init: FilterState, samples: seq<Sample>, i: nat)
    requires cfg.weight != 0.0 && i < |samples|
    requires samples[i].kind == OutOfRangeReport
    requires forall j :: i < j < |samples| ==> samples[j].kind == OtherReport
    ensures Run(cfg, init, samples).state.lastAvg == None
  {
    var n := |samples| - 1;
    if i < n {
      OutOfRangeClearsBaseline(cfg, init, samples[..n], i);
    }
  }

  /**
   * The first tablet report after an out-of-range report is passed through
   * unreconstructed, whatever other reports came in between.
   */
  lemma PassThroughAfterOutOfRange(cfg: Configuration, init: FilterState, samples: seq<Sample>, i: nat, j: nat)
    requires cfg.weight != 0.0 && i < j < |samples|
    requires samples[i].kind == OutOfRangeReport && samples[j].kind == TabletReport
    requires forall k :: i < k < j ==> samples[k].kind == OtherReport
    ensures Run(cfg, init, samples).emitted[j] == samples[j].position
  {
    OutOfRangeClearsBaseline(cfg, init, samples[..j], i);
    EmittedAt(cfg, init, samples, j);
  }

  /**
   * The stopwatch is not restarted by a tablet report that finds no baseline,
   * so the second tablet report after an out-of-range report measures its
   * elapsed time from the last restart before the pen left, not from the
   * report just before it.
   */
  lemma SecondReportAfterOutOfRange(cfg: Configuration, init: FilterState, samples: seq<Sample>, i: nat)
    requires cfg.weight != 0.0 && i + 2 < |samples|
    requires samples[i].kind == OutOfRangeReport
    requires samples[i + 1].kind == TabletReport && samples[i + 2].kind == TabletReport
    ensures var started := Run(cfg, init, samples[..i]).state.lastRestart;
            Run(cfg, init, samples).emitted[i + 2] ==
              if samples[i + 2].time - started <= cfg.delay
              then ReverseEma(samples[i + 2].position, samples[i + 1].position, cfg.weight)
              else samples[i + 2].position
  {
    EmittedAt(cfg, init, samples, i + 2);
    assert samples[..i + 2][..i + 1] == samples[..i + 1];
    assert samples[..i + 1][..i] == samples[..i];
  }

  /**
   * A tablet report that arrives with a baseline but more than the reset
   * delay after the last restart is passed through, and it restarts the stopwatch.
   */
  lemma TimeoutPassesThrough(cfg: Configuration, st: FilterState, position: Vec2, now: real)
    requires st.lastAvg.Some? && cfg.delay < now - st.lastRestart
    ensures Step(cfg, st, TabletReport, position, now) == Outcome(FilterState(Some(position), now), position)
  {
  }

  /**
   * Scenario from a fresh filter created at time 0, with weight 0.5 and a
   * 50 ms delay: (10, 10) arrives at 0 ms and is passed through.
   */
  lemma FirstReportOfScenario()
    ensures Run(Configuration(0.5, 50.0), FilterState(None, 0.0), [Sample(TabletReport, Vec2(10.0, 10.0), 0.0)])
            == Trace(FilterState(Some(Vec2(10.0, 10.0)), 0.0), [Vec2(10.0, 10.0)])
  {
    assert [Sample(TabletReport, Vec2(10.0, 10.0), 0.0)][..0] == [];
  }

  /** Continuing the scenario: (12, 10) arriving 10 ms later is reconstructed to (14, 10). */
  lemma ScenarioWithinDelay()
    ensures var first := Sample(TabletReport, Vec2(10.0, 10.0), 0.0);
            var second := Sample(TabletReport, Vec2(12.0, 10.0), 10.0);
            Run(Configuration(0.5, 50.0), FilterState(None, 0.0), [first, second]).emitted
              == [Vec2(10.0, 10.0), Vec2(14.0, 10.0)]
  {
    var first := Sample(TabletReport, Vec2(10.0, 10.0), 0.0);
    var second := Sample(TabletReport, Vec2(12.0, 10.0), 10.0);
    var cfg := Configuration(0.5, 50.0);
    assert [first, second][..1] == [first];
    FirstReportOfScenario();
    var o := Step(cfg, FilterState(Some(Vec2(10.0, 10.0)), 0.0), TabletReport, Vec2(12.0, 10.0), 10.0);
    assert o.position == ReverseEma(Vec2(12.0, 10.0), Vec2(10.0, 10.0), 0.5);
    assert Vec2(2.0, 0.0).Div(0.5) == Vec2(4.0, 0.0);
  }

  /** Continuing the scenario: (12, 10) arriving 60 ms later is passed through. */
  lemma ScenarioPastDelay()
    ensures var first := Sample(TabletReport, Vec2(10.0, 10.0), 0.0);
            var second := Sample(TabletReport, Vec2(12.0, 10.0), 60.0);
            Run(Configuration(0.5, 50.0), FilterState(None, 0.0), [first, second]).emitted
              == [Vec2(10.0, 10.0), Vec2(12.0, 10.0)]
  {
    var first := Sample(TabletReport, Vec2(10.0, 10.0), 0.0);
    var second := Sample(TabletReport, Vec2(12.0, 10.0), 60.0);
    assert [first, second][..1] == [first];
    FirstReportOfScenario();
  }
}
