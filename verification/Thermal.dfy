/**
 Throttling severity of the thermal sensors: thresholds by severity, hysteresis at the current severity, and
 callbacks on change. A missing threshold (NaN in the source) is None; temperatures are reals.
 */
module Thermal {
  import opened Common

  type Severity = x: nat | x <= 6

  const NONE: Severity := 0
  const SHUTDOWN: Severity := 6
  const LEVELS: nat := 7
  const DEFAULT_HYSTERESIS: int := 5000

  datatype Config = Config(
    throtThresh: int, shutdwnThresh: int, positiveThreshRamp: bool, throtSeverity: Severity, bclPercentage: bool)

  datatype Thresholds = Thresholds(positiveThresh: bool, mulFactor: int, hot: seq<Option<real>>, cold: seq<Option<real>>)

  /** What a client of the service is called with. */
  datatype Call = Call(sensor: string, severity: Severity)

  // ---------------------------------------------------------------- one reading

  predicate Shaped(th: Thresholds)
  {
    |th.hot| == |th.cold| == LEVELS && (th.mulFactor == 1 || th.mulFactor == 1000)
  }

  /** Integer division, as in the source: 5 for the milli-degree sensors, 5000 for the battery percentage. */
  function Slack(mulFactor: int): int
    requires mulFactor > 0
  {
    DEFAULT_HYSTERESIS / mulFactor
  }

  /** What the hysteresis comes to: 5 degrees for milli-degree sensors, 5000 points for the unscaled battery percentage. */
  function Margin(th: Thresholds): real
  {
    if th.mulFactor == 1000 then 5.0 else 5000.0
  }

  lemma SlackIsMargin(th: Thresholds)
    requires Shaped(th)
    ensures Slack(th.mulFactor) as real == Margin(th)
  {
    assert 5000 / 1000 == 5;
  }

  /** The threshold that the ramp direction makes relevant. */
  function Relevant(th: Thresholds, s: Severity): Option<real>
    requires Shaped(th)
  {
    if th.positiveThresh then th.hot[s] else th.cold[s]
  }

  /** The reading lies at or beyond the threshold of a level, moved back by the slack. */
  predicate Hit(th: Thresholds, s: Severity, temp: real, slack: real)
    requires Shaped(th)
  {
    Relevant(th, s).Some?
    && if th.positiveThresh then temp >= Relevant(th, s).value - slack else temp <= Relevant(th, s).value + slack
  }

  /** The level holds at this reading: with the hysteresis if it is the current one. */
  predicate Reached(th: Thresholds, status: Severity, temp: real, s: Severity)
    requires Shaped(th)
  {
    Hit(th, s, temp, if s == status then Slack(th.mulFactor) as real else 0.0)
  }

  /** The highest level that holds, or NONE. */
  function Estimated(th: Thresholds, status: Severity, temp: real, below: nat := LEVELS): (s: Severity)
    requires Shaped(th) && below <= LEVELS
    ensures s == NONE || (s < below && Reached(th, status, temp, s))
    ensures forall k: Severity :: s < k < below ==> !Reached(th, status, temp, k)
  {
    if below == 0 then NONE
    else if Reached(th, status, temp, below - 1) then below - 1
    else Estimated(th, status, temp, below - 1)
  }

  /** Reading the same temperature again changes nothing. */
  lemma UnchangedTemperature(th: Thresholds, status: Severity, temp: real)
    requires Shaped(th)
    ensures var s := Estimated(th, status, temp); Estimated(th, s, temp) == s
  {
    var s := Estimated(th, status, temp);
    forall k: Severity | s < k ensures !Reached(th, s, temp, k) {
      assert !Reached(th, status, temp, k);
    }
    if s != NONE {
      assert Reached(th, s, temp, s);
    }
  }

  // ---------------------------------------------------------------- runs

  function RunStatus(th: Thresholds, start: Severity, temps: seq<real>): Severity
    requires Shaped(th)
  {
    if temps == [] then start
    else Estimated(th, RunStatus(th, start, temps[..|temps| - 1]), temps[|temps| - 1])
  }

  /** The severities called back over a run. */
  function RunCalls(th: Thresholds, start: Severity, temps: seq<real>): seq<Severity>
    requires Shaped(th)
  {
    if temps == [] then []
    else
      var before := temps[..|temps| - 1];
      var s := RunStatus(th, start, temps);
      RunCalls(th, start, before) + if s == RunStatus(th, start, before) then [] else [s]
  }

  /** Every callback differs from the one before, and the last one gives the current severity. */
  lemma {:induction false} CallsDiffer(th: Thresholds, start: Severity, temps: seq<real>)
    requires Shaped(th)
    ensures var calls := RunCalls(th, start, temps);
      && (forall i :: 0 < i < |calls| ==> calls[i] != calls[i - 1])
      && (if calls == [] then RunStatus(th, start, temps) == start
          else calls[0] != start && calls[|calls| - 1] == RunStatus(th, start, temps))
  {
    if temps != [] {
      CallsDiffer(th, start, temps[..|temps| - 1]);
    }
  }

  /** How far a reading lies in the direction of throttling. */
  function Heat(th: Thresholds, temp: real): real
  {
    if th.positiveThresh then temp else -temp
  }

  lemma LeavingDown(th: Thresholds, s: Severity, temp: real)
    requires Shaped(th) && Estimated(th, s, temp) < s
    ensures Relevant(th, s).Some? ==> Heat(th, temp) < Heat(th, Relevant(th, s).value) - Slack(th.mulFactor) as real
  {
    assert !Reached(th, s, temp, s);
  }

  lemma Entering(th: Thresholds, status: Severity, s: Severity, temp: real)
    requires Shaped(th) && Estimated(th, status, temp) == s != status && s != NONE
    ensures Relevant(th, s).Some? && Heat(th, temp) >= Heat(th, Relevant(th, s).value)
  {
  }

  /**
   No chatter: a sensor that left a severity downwards at reading i and has it again after reading j saw, in
   between, a reading hotter than the one at i by more than the hysteresis.
   */
  lemma {:induction false} ReentryNeedsRise(th: Thresholds, start: Severity, temps: seq<real>, i: nat, s: Severity)
    returns (k: nat)
    requires Shaped(th) && i < |temps| - 1
    requires RunStatus(th, start, temps[..i]) == s && RunStatus(th, start, temps[..i + 1]) < s
    requires RunStatus(th, start, temps) == s
    ensures i < k < |temps| && Heat(th, temps[k]) > Heat(th, temps[i]) + Margin(th)
  {
    SlackIsMargin(th);
    var n := |temps| - 1;
    var before := temps[..n];
    if RunStatus(th, start, before) == s {
      assert i + 1 < n;
      assert before[..i] == temps[..i] && before[..i + 1] == temps[..i + 1];
      k := ReentryNeedsRise(th, start, before, i, s);
    } else {
      k := n;
      Entering(th, RunStatus(th, start, before), s, temps[n]);
      assert temps[..i + 1][..i] == temps[..i];
      LeavingDown(th, s, temps[i]);
    }
  }

  // ---------------------------------------------------------------- a bound on callbacks

  /** Levels with a threshold. */
  function Levels(th: Thresholds): set<Severity>
    requires Shaped(th)
  {
    set s: Severity | NONE < s <= SHUTDOWN && Relevant(th, s).Some?
  }

  function Above(alive: set<Severity>, s: Severity): set<Severity>
  {
    set k | k in alive && s < k
  }

  /** At most this many changes when k levels can be raised: each fall costs a level, and climbs only pass live ones. */
  function MostChanges(k: nat): nat
  {
    k * (k + 3) / 2
  }

  /** What is still possible with these live levels at this severity. */
  function Budget(alive: set<Severity>, s: Severity): nat
  {
    |Above(alive, s)| + if alive == {} then 0 else 1 + MostChanges(|alive| - 1)
  }

  lemma ClimbPays(alive: set<Severity>, s: Severity, r: Severity)
    requires s < r && r in alive
    ensures Budget(alive, r) < Budget(alive, s)
  {
    assert Above(alive, r) <= Above(alive, s) - {r};
    CardinalityLe(Above(alive, r), Above(alive, s) - {r});
  }

  lemma CardinalityLe<T>(a: set<T>, b: set<T>)
    requires a <= b
    ensures |a| <= |b|
  {
    assert b == a + (b - a);
  }

  lemma FallPays(alive: set<Severity>, s: Severity, r: Severity)
    requires s in alive
    ensures Budget(alive - {s}, r) < Budget(alive, s)
  {
    var k := |alive| - 1;
    CardinalityLe(Above(alive - {s}, r), alive - {s});
    if alive - {s} != {} {
      assert MostChanges(k) == k + 1 + MostChanges(k - 1) by {
        assert k * (k + 3) == 2 * (k + 1) + (k - 1) * (k + 2);
      }
    }
  }

  /** A level whose threshold no reading of the window reaches. */
  predicate OutOfReach(th: Thresholds, top: real, s: Severity)
    requires Shaped(th)
  {
    Relevant(th, s).Some? ==> Heat(th, Relevant(th, s).value) > top
  }

  lemma {:induction false} CallsPaid(th: Thresholds, start: Severity, temps: seq<real>, low: real) returns (alive: set<Severity>)
    requires Shaped(th) && (start == NONE || start in Levels(th))
    requires forall i :: 0 <= i < |temps| ==> low <= Heat(th, temps[i]) <= low + Margin(th)
    ensures var s := RunStatus(th, start, temps);
      && alive <= Levels(th) && (s == NONE || s in alive)
      && (forall x: Severity :: x in Levels(th) && x !in alive ==> OutOfReach(th, low + Margin(th), x))
      && |RunCalls(th, start, temps)| + Budget(alive, s) <= Budget(Levels(th), start)
  {
    hide Budget, RunCalls;
    SlackIsMargin(th);
    if temps == [] {
      NoCalls(th, start);
      alive := Levels(th);
    } else {
      var n := |temps| - 1;
      var before, temp := temps[..n], temps[n];
      alive := CallsPaid(th, start, before, low);
      var s, r := RunStatus(th, start, before), Estimated(th, RunStatus(th, start, before), temp);
      OneCall(th, start, temps);
      assert low <= Heat(th, temp) <= low + Margin(th);
      if r != s && r != NONE {
        Entering(th, s, r, temp);
        assert r in Levels(th) && !OutOfReach(th, low + Margin(th), r);
      }
      assert r == NONE || r == s || r in alive;
      if r < s {
        assert s in alive;
        LeavingDown(th, s, temp);
        assert OutOfReach(th, low + Margin(th), s);
        FallPays(alive, s, r);
        alive := alive - {s};
        assert r == NONE || r in alive;
      } else if s < r {
        ClimbPays(alive, s, r);
      }
    }
  }

  lemma NoCalls(th: Thresholds, start: Severity)
    requires Shaped(th)
    ensures RunCalls(th, start, []) == []
  {
  }

  lemma OneCall(th: Thresholds, start: Severity, temps: seq<real>)
    requires Shaped(th) && temps != []
    ensures var before := temps[..|temps| - 1];
      |RunCalls(th, start, temps)|
      == |RunCalls(th, start, before)| + if RunStatus(th, start, temps) == RunStatus(th, start, before) then 0 else 1
  {
  }

  /**
   However many readings there are: while they stay within one hysteresis of each other, a sensor with k
   thresholds calls back at most k(k + 3)/2 times, so at most five times for the two thresholds of a
   configured sensor.
   */
  lemma CallsBounded(th: Thresholds, start: Severity, temps: seq<real>, low: real)
    requires Shaped(th) && (start == NONE || start in Levels(th))
    requires forall i :: 0 <= i < |temps| ==> low <= Heat(th, temps[i]) <= low + Margin(th)
    ensures |RunCalls(th, start, temps)| <= MostChanges(|Levels(th)|)
    ensures |Levels(th)| <= 2 ==> |RunCalls(th, start, temps)| <= 5
  {
    var alive := CallsPaid(th, start, temps, low);
    var levels := Levels(th);
    CardinalityLe(Above(levels, start), levels);
    var k := |levels|;
    if levels != {} {
      assert MostChanges(k) == k + 1 + MostChanges(k - 1) by {
        assert k * (k + 3) == 2 * (k + 1) + (k - 1) * (k + 2);
      }
    }
  }

  // ---------------------------------------------------------------- latching

  /** The reading never clears the hysteresis of any level. */
  predicate WithinSlack(th: Thresholds, temp: real)
    requires Shaped(th)
  {
    forall s: Severity :: Relevant(th, s).Some? ==> Hit(th, s, temp, Slack(th.mulFactor) as real)
  }

  lemma {:induction false} Latched(th: Thresholds, start: Severity, temps: seq<real>)
    requires Shaped(th) && (start == NONE || start in Levels(th))
    requires forall i :: 0 <= i < |temps| ==> WithinSlack(th, temps[i])
    ensures RunStatus(th, start, temps) >= start
    ensures RunStatus(th, start, temps) == NONE || RunStatus(th, start, temps) in Levels(th)
  {
    if temps != [] {
      var n := |temps| - 1;
      Latched(th, start, temps[..n]);
      var s := RunStatus(th, start, temps[..n]);
      assert WithinSlack(th, temps[n]);
      if s != NONE {
        assert Reached(th, s, temps[n], s);
      }
    }
  }

  /**
   The battery percentage is not scaled, so its hysteresis is 5000 percentage points: with thresholds that are
   percentages, a severity once taken is never given up, however far the battery recovers.
   */
  lemma BatteryNeverRecovers(th: Thresholds, start: Severity, temps: seq<real>)
    requires Shaped(th) && !th.positiveThresh && th.mulFactor == 1 && (start == NONE || start in Levels(th))
    requires forall s: Severity :: th.cold[s].Some? ==> 0.0 <= th.cold[s].value <= 100.0
    requires forall i :: 0 <= i < |temps| ==> 0.0 <= temps[i] <= 100.0
    ensures RunStatus(th, start, temps) >= start
  {
    forall i | 0 <= i < |temps| ensures WithinSlack(th, temps[i]) {
      forall s: Severity | Relevant(th, s).Some? ensures Hit(th, s, temps[i], Slack(1) as real) {
        assert th.cold[s].value >= 0.0;
      }
    }
    Latched(th, start, temps);
  }

  // ---------------------------------------------------------------- in place

  /** A threshold as the configuration gives it: zero means there is none. */
  function Configured(cfg: Config, mulFactor: int, rising: bool, s: Severity): Option<real>
    requires mulFactor > 0
  {
    if cfg.positiveThreshRamp != rising then None
    else if s == SHUTDOWN && cfg.shutdwnThresh != 0 then Some(cfg.shutdwnThresh as real / mulFactor as real)
    else if s == cfg.throtSeverity && cfg.throtThresh != 0 then Some(cfg.throtThresh as real / mulFactor as real)
    else None
  }

  predicate FromConfig(th: Thresholds, cfg: Config)
  {
    && |th.hot| == |th.cold| == LEVELS
    && th.positiveThresh == cfg.positiveThreshRamp && th.mulFactor == (if cfg.bclPercentage then 1 else 1000)
    && (forall s: Severity :: th.hot[s] == Configured(cfg, th.mulFactor, true, s))
    && (forall s: Severity :: th.cold[s] == Configured(cfg, th.mulFactor, false, s))
  }

  /** The reading has passed the configured threshold in the direction of the ramp, less the margin; zero is no threshold. */
  predicate Passed(cfg: Config, threshold: int, temp: real, margin: real)
  {
    var limit := if cfg.bclPercentage then threshold as real else threshold as real / 1000.0;
    threshold != 0 && if cfg.positiveThreshRamp then temp >= limit - margin else temp <= limit + margin
  }

  /**
   The whole behaviour of a configured sensor, from its configuration alone: shutdown, or else the throttling
   severity, or else none; the severity that it already has is kept 5 degrees (5000 percentage points) longer.
   */
  lemma ConfiguredSeverity(th: Thresholds, cfg: Config, status: Severity, temp: real)
    requires FromConfig(th, cfg)
    ensures Shaped(th)
    ensures var margin := if cfg.bclPercentage then 5000.0 else 5.0;
      Estimated(th, status, temp) ==
        if Passed(cfg, cfg.shutdwnThresh, temp, if status == 6 then margin else 0.0) then 6
        else if Passed(cfg, cfg.throtThresh, temp, if status == cfg.throtSeverity then margin else 0.0)
                && (cfg.throtSeverity == 6 ==> cfg.shutdwnThresh == 0) then cfg.throtSeverity
        else 0
  {
    hide Reached, Estimated;
    var s := Estimated(th, status, temp);
    ReachedIs(th, cfg, status, temp, 6);
    ReachedIs(th, cfg, status, temp, cfg.throtSeverity);
    ReachedIs(th, cfg, status, temp, s);
    assert forall k: Severity :: s < k ==> !Reached(th, status, temp, k);
  }

  lemma ReachedIs(th: Thresholds, cfg: Config, status: Severity, temp: real, k: Severity)
    requires FromConfig(th, cfg) && Shaped(th)
    ensures var margin := if k == status then Margin(th) else 0.0;
      Reached(th, status, temp, k) <==>
        if k == 6 && cfg.shutdwnThresh != 0 then Passed(cfg, cfg.shutdwnThresh, temp, margin)
        else k == cfg.throtSeverity && Passed(cfg, cfg.throtThresh, temp, margin)
  {
    SlackIsMargin(th);
    assert Relevant(th, k) == Configured(cfg, th.mulFactor, cfg.positiveThreshRamp, k);
  }

  class ThermSensor {
    var thresh: Thresholds
    var value: real
    var throttlingStatus: Severity
    var lastThrottleStatus: Severity

    predicate Valid()
      reads this
    {
      Shaped(thresh) && (throttlingStatus == NONE || throttlingStatus in Levels(thresh))
    }

    constructor (cfg: Config)
      ensures Valid() && throttlingStatus == lastThrottleStatus == NONE
      ensures FromConfig(thresh, cfg)
      ensures |Levels(thresh)| <= 2
    {
      var mulFactor := if cfg.bclPercentage then 1 else 1000;
      var hot, cold: seq<Option<real>> := [], [];
      for idx := 0 to LEVELS
        invariant |hot| == |cold| == idx
        invariant forall k :: 0 <= k < idx ==> hot[k] == None && cold[k] == None
      {
        hot, cold := hot + [None], cold + [None];
      }
      if cfg.throtThresh != 0 && cfg.positiveThreshRamp {
        hot := hot[cfg.throtSeverity := Some(cfg.throtThresh as real / mulFactor as real)];
      } else if cfg.throtThresh != 0 && !cfg.positiveThreshRamp {
        cold := cold[cfg.throtSeverity := Some(cfg.throtThresh as real / mulFactor as real)];
      }
      if cfg.shutdwnThresh != 0 && cfg.positiveThreshRamp {
        hot := hot[SHUTDOWN := Some(cfg.shutdwnThresh as real / mulFactor as real)];
      } else if cfg.shutdwnThresh != 0 && !cfg.positiveThreshRamp {
        cold := cold[SHUTDOWN := Some(cfg.shutdwnThresh as real / mulFactor as real)];
      }
      thresh := Thresholds(cfg.positiveThreshRamp, mulFactor, hot, cold);
      value := 0.0;
      throttlingStatus, lastThrottleStatus := NONE, NONE;
      new;
      CardinalityLe(Levels(thresh), {cfg.throtSeverity, SHUTDOWN});
    }

    method EstimateSeverity() returns (changed: Option<Severity>)
      requires Valid()
      modifies this
      ensures Valid() && thresh == old(thresh) && value == old(value)
      ensures throttlingStatus == Estimated(thresh, old(throttlingStatus), value)
      ensures throttlingStatus == old(throttlingStatus) ==> changed == None && lastThrottleStatus == old(lastThrottleStatus)
      ensures throttlingStatus != old(throttlingStatus) ==>
        changed == Some(throttlingStatus) && lastThrottleStatus == old(throttlingStatus)
    {
      var idx: int := SHUTDOWN;
      while idx >= 0
        invariant -1 <= idx <= SHUTDOWN
        invariant Estimated(thresh, throttlingStatus, value) == Estimated(thresh, throttlingStatus, value, idx + 1)
      {
        if idx == throttlingStatus {
          if Hit(thresh, idx, value, Slack(thresh.mulFactor) as real) {
            break;
          }
        } else if Hit(thresh, idx, value, 0.0) {
          break;
        }
        idx := idx - 1;
      }
      var severity: Severity := if idx >= 0 then idx else NONE;
      if severity == throttlingStatus {
        return None;
      }
      lastThrottleStatus := throttlingStatus;
      throttlingStatus := severity;
      return Some(severity);
    }
  }

  /** The last severity a client was called with for a sensor. */
  function LastCall(calls: seq<Call>, sensor: string): Severity
  {
    if calls == [] then NONE
    else if calls[|calls| - 1].sensor == sensor then calls[|calls| - 1].severity
    else LastCall(calls[..|calls| - 1], sensor)
  }

  /** No call repeats the severity last told for its sensor. */
  predicate NoRepeats(calls: seq<Call>)
  {
    calls == []
    || (NoRepeats(calls[..|calls| - 1])
        && calls[|calls| - 1].severity != LastCall(calls[..|calls| - 1], calls[|calls| - 1].sensor))
  }

  class ThermalUtils {
    const thermalConfig: map<string, ThermSensor>
    ghost var calls: seq<Call>

    /** In every reachable state each sensor's severity is the one last told, and no call repeats. */
    ghost predicate Valid()
      reads this, thermalConfig.Values
    {
      && (forall a, b :: a in thermalConfig && b in thermalConfig && thermalConfig[a] == thermalConfig[b] ==> a == b)
      && (forall n :: n in thermalConfig ==> thermalConfig[n].Valid() && thermalConfig[n].throttlingStatus == LastCall(calls, n))
      && NoRepeats(calls)
    }

    constructor (sensors: map<string, ThermSensor>)
      requires forall a, b :: a in sensors && b in sensors && sensors[a] == sensors[b] ==> a == b
      requires forall n :: n in sensors ==> sensors[n].Valid() && sensors[n].throttlingStatus == NONE
      ensures Valid() && thermalConfig == sensors && calls == []
    {
      thermalConfig := sensors;
      calls := [];
    }

    method Notify(sensorName: string)
      requires Valid() && sensorName in thermalConfig
      modifies this, thermalConfig[sensorName]
      ensures Valid()
      ensures var sens := thermalConfig[sensorName];
        && sens.thresh == old(sens.thresh) && sens.value == old(sens.value)
        && sens.throttlingStatus == Estimated(sens.thresh, old(sens.throttlingStatus), sens.value)
        && calls == old(calls) + if sens.throttlingStatus == old(sens.throttlingStatus) then []
                                 else [Call(sensorName, sens.throttlingStatus)]
    {
      var changed := thermalConfig[sensorName].EstimateSeverity();
      if changed.Some? {
        calls := calls + [Call(sensorName, thermalConfig[sensorName].throttlingStatus)];
      }
    }

    method UeventParse(sensorName: string, temp: int)
      requires Valid()
      modifies this, if sensorName in thermalConfig then {thermalConfig[sensorName]} else {}
      ensures Valid()
      ensures sensorName !in thermalConfig ==> calls == old(calls)
      ensures sensorName in thermalConfig ==>
        var sens := thermalConfig[sensorName];
        && sens.thresh == old(sens.thresh) && sens.value == temp as real / sens.thresh.mulFactor as real
        && sens.throttlingStatus == Estimated(sens.thresh, old(sens.throttlingStatus), sens.value)
        && calls == old(calls) + if sens.throttlingStatus == old(sens.throttlingStatus) then []
                                 else [Call(sensorName, sens.throttlingStatus)]
    {
      if sensorName in thermalConfig {
        var sens := thermalConfig[sensorName];
        sens.value := temp as real / sens.thresh.mulFactor as real;
        Notify(sensorName);
      }
    }
  }
}
