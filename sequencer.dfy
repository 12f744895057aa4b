/** The initialization sequence of one axis as a pure value: which vendor
    calls are issued for a configuration, in which order, with which
    arguments, and what the short-circuiting walk over them issues. */
module Sequencer {
  import opened EposConfig
  import opened Vendor

  /** The conversion of a non-integral value to an integer parameter: the
      fraction is dropped, toward zero. */
  function Truncate(x: real): int
  {
    if x >= 0.0 then x.Floor else -((-x).Floor)
  }

  /** Truncation keeps the sign and drops less than one unit of magnitude. */
  lemma TruncateTowardZero(x: real)
    ensures 0.0 <= x ==> 0 <= Truncate(x) && Truncate(x) as real <= x < Truncate(x) as real + 1.0
    ensures x < 0.0 ==> Truncate(x) <= 0 && Truncate(x) as real - 1.0 < x <= Truncate(x) as real
  {
  }

  /** Amperes to the device's milliamperes. */
  function Milliamperes(amperes: real): int
  {
    Truncate(1000.0 * amperes)
  }

  /** Seconds to the device's units of 100 ms. */
  function Deciseconds(seconds: real): int
  {
    Truncate(10.0 * seconds)
  }

  /** Seconds to the device's milliseconds. */
  function Milliseconds(seconds: real): int
  {
    Truncate(1000.0 * seconds)
  }

  /** A whole number of device units survives the conversion exactly. */
  lemma ConversionsExact(m: int)
    ensures Milliamperes(m as real / 1000.0) == m
    ensures Deciseconds(m as real / 10.0) == m
    ensures Milliseconds(m as real / 1000.0) == m
  {
    assert 1000.0 * (m as real / 1000.0) == m as real;
    assert 10.0 * (m as real / 10.0) == m as real;
  }

  function OpenCall(serialNumber: uint64): Command
  {
    CreateNodeHandle("EPOS2", "MAXON SERIAL V2", "USB", serialNumber)
  }

  /** The fault-code queries for indices 1 to `n`, in increasing order. */
  function FaultCodeQueries(n: nat): seq<Command>
  {
    seq(n, i requires 0 <= i < n => GetDeviceErrorCode(i + 1))
  }

  /** The fault-code queries a device lets through: indices 1, 2, … in
      increasing order, stopping right after the first refused query; they
      all succeed exactly when all `n` are issued and the last is accepted. */
  lemma FaultCodesIssued(dev: Device, start: nat, n: nat)
    ensures |Run(dev, start, FaultCodeQueries(n))| <= n
    ensures 0 < n ==> 0 < |Run(dev, start, FaultCodeQueries(n))|
    ensures forall i | 0 <= i < |Run(dev, start, FaultCodeQueries(n))| ::
              Run(dev, start, FaultCodeQueries(n))[i] == GetDeviceErrorCode(i + 1)
    ensures forall i | 0 <= i < |Run(dev, start, FaultCodeQueries(n))| - 1 ::
              dev.accepts(start + i, Run(dev, start, FaultCodeQueries(n))[i])
    ensures |Run(dev, start, FaultCodeQueries(n))| < n ==>
              !dev.accepts(start + |Run(dev, start, FaultCodeQueries(n))| - 1,
                           GetDeviceErrorCode(|Run(dev, start, FaultCodeQueries(n))|))
    ensures AllAccepted(dev, start, FaultCodeQueries(n)) <==>
              |Run(dev, start, FaultCodeQueries(n))| == n
              && (n == 0 || dev.accepts(start + n - 1, GetDeviceErrorCode(n)))
  {
    var codes := FaultCodeQueries(n);
    var r := Run(dev, start, codes);
    assert r <= codes && (0 < n ==> 0 < |r|) && (|r| < n ==> !dev.accepts(start + |r| - 1, codes[|r| - 1]))
           && forall i | 0 <= i < |r| - 1 :: dev.accepts(start + i, r[i]) by {
      RunShape(dev, start, codes);
    }
    assert AllAccepted(dev, start, codes) <==>
             |r| == n && (n == 0 || dev.accepts(start + n - 1, codes[n - 1])) by {
      CompleteRun(dev, start, codes);
    }
    forall i | 0 <= i < |r|
      ensures r[i] == GetDeviceErrorCode(i + 1)
    {
      assert r[i] == codes[i];
    }
  }

  function DcMotorCalls(o: Option<DcMotorConfig>): seq<Command>
  {
    if o.None? then []
    else [SetDcMotorParameter(Milliamperes(o.value.nominalCurrent), Milliamperes(o.value.maxOutputCurrent),
                              Deciseconds(o.value.thermalTimeConstant))]
  }

  function EcMotorCalls(o: Option<EcMotorConfig>): seq<Command>
  {
    if o.None? then []
    else [SetEcMotorParameter(Milliamperes(o.value.nominalCurrent), Milliamperes(o.value.maxOutputCurrent),
                              Deciseconds(o.value.thermalTimeConstant), o.value.numberOfPolePairs)]
  }

  function IncEncoderCalls(o: Option<IncrementalEncoderConfig>): seq<Command>
  {
    if o.None? then [] else [SetIncEncoderParameter(o.value.resolution, o.value.invertedPolarity)]
  }

  function HallSensorCalls(o: Option<HallSensorConfig>): seq<Command>
  {
    if o.None? then [] else [SetHallSensorParameter(o.value.invertedPolarity)]
  }

  function SsiEncoderCalls(o: Option<SsiAbsoluteEncoderConfig>): seq<Command>
  {
    if o.None? then []
    else [SetSsiAbsEncoderParameter(o.value.dataRate, o.value.numberOfMultiturnBits,
                                    o.value.numberOfSingleturnBits, o.value.invertedPolarity)]
  }

  function FollowingErrorCalls(o: Option<SafetyConfig>): seq<Command>
  {
    if o.Some? && o.value.maxFollowingError.Some?
    then [SetMaxFollowingError(o.value.maxFollowingError.value)] else []
  }

  function ProfileVelocityLimitCalls(o: Option<SafetyConfig>): seq<Command>
  {
    if o.Some? && o.value.maxProfileVelocity.Some?
    then [SetMaxProfileVelocity(o.value.maxProfileVelocity.value)] else []
  }

  function AccelerationLimitCalls(o: Option<SafetyConfig>): seq<Command>
  {
    if o.Some? && o.value.maxAcceleration.Some?
    then [SetMaxAcceleration(o.value.maxAcceleration.value)] else []
  }

  function PositionGainCalls(o: Option<PositionRegulatorConfig>): seq<Command>
  {
    if o.Some? && o.value.gain.Some?
    then [SetPositionRegulatorGain(o.value.gain.value.p, o.value.gain.value.i, o.value.gain.value.d)]
    else []
  }

  function PositionFeedForwardCalls(o: Option<PositionRegulatorConfig>): seq<Command>
  {
    if o.Some? && o.value.feedForward.Some?
    then [SetPositionRegulatorFeedForward(o.value.feedForward.value.velocity, o.value.feedForward.value.acceleration)]
    else []
  }

  /** One pass of the velocity-regulator block. */
  function VelocityRegulatorBlock(o: Option<VelocityRegulatorConfig>): seq<Command>
  {
    if o.None? then []
    else
      (if o.value.gain.Some? then [SetVelocityRegulatorGain(o.value.gain.value.p, o.value.gain.value.i)] else [])
      + (if o.value.feedForward.Some?
         then [SetVelocityRegulatorFeedForward(o.value.feedForward.value.velocity, o.value.feedForward.value.acceleration)]
         else [])
  }

  function CurrentGainCalls(o: Option<CurrentRegulatorConfig>): seq<Command>
  {
    if o.Some? && o.value.gain.Some?
    then [SetCurrentRegulatorGain(o.value.gain.value.p, o.value.gain.value.i)] else []
  }

  function PositionProfileCalls(o: Option<PositionProfileConfig>): seq<Command>
  {
    if o.None? then [] else [SetPositionProfile(o.value.velocity, o.value.acceleration, o.value.deceleration)]
  }

  function PositionWindowCalls(o: Option<PositionProfileConfig>): seq<Command>
  {
    if o.Some? && o.value.window.Some?
    then [EnablePositionWindow(o.value.window.value.window, Milliseconds(o.value.window.value.time))] else []
  }

  function VelocityProfileCalls(o: Option<VelocityProfileConfig>): seq<Command>
  {
    if o.None? then [] else [SetVelocityProfile(o.value.acceleration, o.value.deceleration)]
  }

  function VelocityWindowCalls(o: Option<VelocityProfileConfig>): seq<Command>
  {
    if o.Some? && o.value.window.Some?
    then [EnableVelocityWindow(o.value.window.value.window, Milliseconds(o.value.window.value.time))] else []
  }

  /** The calls one stage issues for a configuration; `faults` is the count
      the device reports when asked. */
  function StageCalls(cfg: AxisConfig, faults: uint8, st: Stage): seq<Command>
  {
    match st
    case OpenHandle => [OpenCall(cfg.serialNumber)]
    case ProtocolSettings => [SetProtocolStackSettings(1000000, 500)]
    case OperationMode => [SetOperationMode(cfg.operationMode)]
    case MotorType => [SetMotorType(cfg.motor.motorType)]
    case DcMotorParameters => DcMotorCalls(cfg.motor.dcMotor)
    case EcMotorParameters => EcMotorCalls(cfg.motor.ecMotor)
    case SensorType => [SetSensorType(cfg.sensor.sensorType)]
    case IncEncoderParameters => IncEncoderCalls(cfg.sensor.incrementalEncoder)
    case HallSensorParameters => HallSensorCalls(cfg.sensor.hallSensor)
    case SsiEncoderParameters => SsiEncoderCalls(cfg.sensor.ssiAbsoluteEncoder)
    case FollowingErrorLimit => FollowingErrorCalls(cfg.safety)
    case ProfileVelocityLimit => ProfileVelocityLimitCalls(cfg.safety)
    case AccelerationLimit => AccelerationLimitCalls(cfg.safety)
    case PositionRegulatorGain => PositionGainCalls(cfg.positionRegulator)
    case PositionRegulatorFeedForward => PositionFeedForwardCalls(cfg.positionRegulator)
    case VelocityRegulator =>
      var block := VelocityRegulatorBlock(cfg.velocityRegulator);
      block + block + block
    case CurrentRegulatorGain => CurrentGainCalls(cfg.currentRegulator)
    case PositionProfile => PositionProfileCalls(cfg.positionProfile)
    case PositionWindow => PositionWindowCalls(cfg.positionProfile)
    case VelocityProfile => VelocityProfileCalls(cfg.velocityProfile)
    case VelocityWindow => VelocityWindowCalls(cfg.velocityProfile)
    case FaultCount => [GetNbOfDeviceError]
    case FaultCode => FaultCodeQueries(faults)
    case FaultClear => if cfg.clearFaults == Some(true) then [ClearFault] else []
    case Enable => [SetEnableState]
    case Cyclic => []
  }

  /** The stages that program parameters, between opening the handle and
      querying faults, in the order they run. */
  const ParameterStages: seq<Stage> := [
    ProtocolSettings, OperationMode,
    MotorType, DcMotorParameters, EcMotorParameters,
    SensorType, IncEncoderParameters, HallSensorParameters, SsiEncoderParameters,
    FollowingErrorLimit, ProfileVelocityLimit, AccelerationLimit,
    PositionRegulatorGain, PositionRegulatorFeedForward,
    VelocityRegulator,
    CurrentRegulatorGain,
    PositionProfile, PositionWindow,
    VelocityProfile, VelocityWindow]

  /** Every stage of initialization, in the order they run. */
  const InitStages: seq<Stage> := [OpenHandle] + ParameterStages + [FaultCount, FaultCode, FaultClear, Enable]

  /** The translator of one configuration, as a function of the stage. */
  function Translator(cfg: AxisConfig, faults: uint8): Stage -> seq<Command>
  {
    st => StageCalls(cfg, faults, st)
  }

  /** `calls` gives each stage only calls that belong to it. */
  ghost predicate StagesOwnCalls(calls: Stage -> seq<Command>)
  {
    forall st, c | c in calls(st) :: StageOf(c) == st
  }

  /** The calls of the given stages, one stage after the other. */
  function CallsOf(calls: Stage -> seq<Command>, stages: seq<Stage>): seq<Command>
  {
    if stages == [] then [] else calls(stages[0]) + CallsOf(calls, stages[1..])
  }

  /** The parameter-programming calls: protocol settings through the
      velocity window. */
  function ParameterCalls(cfg: AxisConfig, faults: uint8): seq<Command>
  {
    CallsOf(Translator(cfg, faults), ParameterStages)
  }

  /** The full initialization sequence of an axis whose device reports
      `faults` pending faults. */
  function Plan(cfg: AxisConfig, faults: uint8): seq<Command>
  {
    CallsOf(Translator(cfg, faults), InitStages)
  }

  // ---------------------------------------------------------------------
  // Structure of the plan

  /** Each stage issues only calls of that stage. */
  lemma TranslatorOwnsCalls(cfg: AxisConfig, faults: uint8)
    ensures StagesOwnCalls(Translator(cfg, faults))
  {
    forall st, c | c in Translator(cfg, faults)(st) ensures StageOf(c) == st {
      StageCallsOwned(cfg, faults, st, c);
    }
  }

  lemma StageCallsOwned(cfg: AxisConfig, faults: uint8, st: Stage, c: Command)
    requires c in StageCalls(cfg, faults, st)
    ensures StageOf(c) == st
  {
    match st
    case VelocityRegulator =>
      var block := VelocityRegulatorBlock(cfg.velocityRegulator);
      assert c in block;
    case FaultCode =>
      var q := FaultCodeQueries(faults);
      var i :| 0 <= i < |q| && q[i] == c;
    case _ =>
  }

  lemma {:induction false} CallsOfAppend(calls: Stage -> seq<Command>, a: seq<Stage>, b: seq<Stage>)
    ensures CallsOf(calls, a + b) == CallsOf(calls, a) + CallsOf(calls, b)
    decreases |a|
  {
    if a == [] {
      assert a + b == b;
    } else {
      assert (a + b)[0] == a[0];
      assert (a + b)[1..] == a[1..] + b;
      CallsOfAppend(calls, a[1..], b);
    }
  }

  /** Each call of the given stages belongs to one of them. */
  lemma {:induction false} CallsOfStages(calls: Stage -> seq<Command>, stages: seq<Stage>)
    requires StagesOwnCalls(calls)
    ensures forall c | c in CallsOf(calls, stages) :: StageOf(c) in stages
    decreases |stages|
  {
    if stages != [] {
      CallsOfStages(calls, stages[1..]);
      forall c | c in CallsOf(calls, stages) ensures StageOf(c) in stages {
        if c !in calls(stages[0]) {
          assert StageOf(c) in stages[1..];
        }
      }
    }
  }

  /** Stages given in increasing rank yield calls in stage order. */
  lemma {:induction false} CallsOfInStageOrder(calls: Stage -> seq<Command>, stages: seq<Stage>)
    requires StagesOwnCalls(calls)
    requires forall i, j | 0 <= i < j < |stages| :: Rank(stages[i]) < Rank(stages[j])
    ensures InStageOrder(CallsOf(calls, stages))
    decreases |stages|
  {
    if stages != [] {
      var head := calls(stages[0]);
      var tail := CallsOf(calls, stages[1..]);
      CallsOfStages(calls, stages[1..]);
      CallsOfInStageOrder(calls, stages[1..]);
      assert forall k | 0 <= k < |tail| :: Rank(stages[0]) < RankOf(tail[k]) by {
        forall k | 0 <= k < |tail| ensures Rank(stages[0]) < RankOf(tail[k]) {
          assert tail[k] in tail;
          var m :| 0 <= m < |stages[1..]| && stages[1..][m] == StageOf(tail[k]);
          assert stages[1..][m] == stages[m + 1];
        }
      }
      assert forall k | 0 <= k < |head| :: RankOf(head[k]) == Rank(stages[0]) by {
        forall k | 0 <= k < |head| ensures RankOf(head[k]) == Rank(stages[0]) {
          assert head[k] in head;
        }
      }
      InStageOrderAppend(head, tail, Rank(stages[0]));
    }
  }

  lemma InStageOrderAppend(a: seq<Command>, b: seq<Command>, r: nat)
    requires InStageOrder(a) && InStageOrder(b)
    requires forall k | 0 <= k < |a| :: RankOf(a[k]) <= r
    requires forall k | 0 <= k < |b| :: r <= RankOf(b[k])
    ensures InStageOrder(a + b)
  {
    forall i, j | 0 <= i < j < |a + b| ensures RankOf((a + b)[i]) <= RankOf((a + b)[j]) {
      if j < |a| {
        assert (a + b)[i] == a[i] && (a + b)[j] == a[j];
      } else if i >= |a| {
        assert (a + b)[i] == b[i - |a|] && (a + b)[j] == b[j - |a|];
      } else {
        assert (a + b)[i] == a[i] && (a + b)[j] == b[j - |a|];
      }
    }
  }

  /** Picking one stage out of the calls of distinct stages gives that
      stage's calls if it is among them, and nothing otherwise. */
  lemma {:induction false} CallsAtCallsOf(calls: Stage -> seq<Command>, stages: seq<Stage>, st: Stage)
    requires StagesOwnCalls(calls)
    requires forall i, j | 0 <= i < j < |stages| :: stages[i] != stages[j]
    ensures CallsAt(CallsOf(calls, stages), st) == if st in stages then calls(st) else []
    decreases |stages|
  {
    if stages != [] {
      var first, rest := stages[0], stages[1..];
      DistinctParts(stages);
      var head, tail := calls(first), CallsOf(calls, rest);
      assert CallsAt(tail, st) == if st in rest then calls(st) else [] by {
        CallsAtCallsOf(calls, rest, st);
      }
      assert CallsAt(head, st) == if first == st then head else [] by {
        CallsAtHomogeneous(head, first, st);
      }
      CallsAtAppend(head, tail, st);
    }
  }

  /** A sequence of distinct stages is its first stage, which does not
      recur, followed by distinct stages. */
  lemma DistinctParts(stages: seq<Stage>)
    requires stages != []
    requires forall i, j | 0 <= i < j < |stages| :: stages[i] != stages[j]
    ensures forall i, j | 0 <= i < j < |stages[1..]| :: stages[1..][i] != stages[1..][j]
    ensures stages[0] !in stages[1..]
    ensures forall st :: st in stages <==> st == stages[0] || st in stages[1..]
  {
    assert stages == [stages[0]] + stages[1..];
    forall i, j | 0 <= i < j < |stages[1..]| ensures stages[1..][i] != stages[1..][j] {
      assert stages[1..][i] == stages[i + 1] && stages[1..][j] == stages[j + 1];
    }
    forall m | 0 <= m < |stages[1..]| ensures stages[1..][m] != stages[0] {
      assert stages[1..][m] == stages[m + 1];
    }
  }

  /** Picking a stage out of calls that all belong to stage `at`. */
  lemma {:induction false} CallsAtHomogeneous(s: seq<Command>, at: Stage, st: Stage)
    requires forall c | c in s :: StageOf(c) == at
    ensures CallsAt(s, st) == if at == st then s else []
    decreases |s|
  {
    if s != [] {
      assert s[0] in s;
      assert forall c | c in s[1..] :: c in s;
      CallsAtHomogeneous(s[1..], at, st);
      if at == st {
        assert [s[0]] + s[1..] == s;
      }
    }
  }

  /** Every stage of initialization has a rank one above the one before it. */
  lemma InitStagesRanked()
    ensures |InitStages| == 25
    ensures forall i | 0 <= i < |InitStages| :: Rank(InitStages[i]) == i
  {
  }

  lemma InitStagesIncreasing()
    ensures forall i, j | 0 <= i < j < |InitStages| :: Rank(InitStages[i]) < Rank(InitStages[j])
    ensures forall i, j | 0 <= i < j < |InitStages| :: InitStages[i] != InitStages[j]
  {
    InitStagesRanked();
  }

  /** The plan is the open call, the parameter calls, the fault-count
      query, the fault-code queries, the optional fault clear and the enable,
      in this order. */
  lemma PlanPhases(cfg: AxisConfig, faults: uint8)
    ensures Plan(cfg, faults) ==
      [OpenCall(cfg.serialNumber)] + (ParameterCalls(cfg, faults) + ([GetNbOfDeviceError]
      + (FaultCodeQueries(faults) + ((if cfg.clearFaults == Some(true) then [ClearFault] else [])
      + [SetEnableState]))))
  {
    InitCallsShape(Translator(cfg, faults));
    TranslatorEnds(cfg, faults);
  }

  /** The calls of the initialization stages, for any translator. */
  lemma InitCallsShape(f: Stage -> seq<Command>)
    ensures CallsOf(f, InitStages) ==
      f(OpenHandle) + (CallsOf(f, ParameterStages) + (f(FaultCount) + (f(FaultCode) + (f(FaultClear) + f(Enable)))))
  {
    var tailStages := [FaultCount, FaultCode, FaultClear, Enable];
    var rest := ParameterStages + tailStages;
    assert InitStages == [OpenHandle] + rest;
    CallsOfAppend(f, [OpenHandle], rest);
    CallsOfAppend(f, ParameterStages, tailStages);
    CallsOfSingle(f, OpenHandle);
    CallsOfFour(f, FaultCount, FaultCode, FaultClear, Enable);
    var p, t := CallsOf(f, ParameterStages), CallsOf(f, tailStages);
    assert CallsOf(f, InitStages) == f(OpenHandle) + (p + t);
  }

  /** What the open stage and the last four stages issue. */
  lemma TranslatorEnds(cfg: AxisConfig, faults: uint8)
    ensures Translator(cfg, faults)(OpenHandle) == [OpenCall(cfg.serialNumber)]
    ensures Translator(cfg, faults)(FaultCount) == [GetNbOfDeviceError]
    ensures Translator(cfg, faults)(FaultCode) == FaultCodeQueries(faults)
    ensures Translator(cfg, faults)(FaultClear) == if cfg.clearFaults == Some(true) then [ClearFault] else []
    ensures Translator(cfg, faults)(Enable) == [SetEnableState]
  {
  }

  lemma CallsOfFour(calls: Stage -> seq<Command>, a: Stage, b: Stage, c: Stage, d: Stage)
    ensures CallsOf(calls, [a, b, c, d]) == calls(a) + (calls(b) + (calls(c) + calls(d)))
  {
    assert [a, b, c, d][1..] == [b, c, d];
    assert [b, c, d][1..] == [c, d];
    assert [c, d][1..] == [d];
    CallsOfSingle(calls, d);
    assert CallsOf(calls, [c, d]) == calls(c) + calls(d);
    assert CallsOf(calls, [b, c, d]) == calls(b) + (calls(c) + calls(d));
    assert CallsOf(calls, [a, b, c, d]) == calls(a) + (calls(b) + (calls(c) + calls(d)));
  }

  lemma CallsOfSingle(calls: Stage -> seq<Command>, st: Stage)
    ensures CallsOf(calls, [st]) == calls(st)
  {
    assert CallsOf(calls, [st]) == calls(st) + CallsOf(calls, []);
  }

  /** Every stage but the cyclic one takes part in initialization. */
  lemma InitStagesCover(st: Stage)
    ensures st in InitStages <==> st != Cyclic
  {
    InitStagesRanked();
    forall i | 0 <= i < |InitStages| ensures InitStages[i] != Cyclic {
      assert Rank(InitStages[i]) < Rank(Cyclic);
    }
  }

  /** The parameter calls start with the protocol settings. */
  lemma ParameterCallsStart(cfg: AxisConfig, faults: uint8)
    ensures ParameterCalls(cfg, faults) ==
      [SetProtocolStackSettings(1000000, 500)] + CallsOf(Translator(cfg, faults), ParameterStages[1..])
  {
    assert Translator(cfg, faults)(ProtocolSettings) == [SetProtocolStackSettings(1000000, 500)];
  }

  /** Picking out one stage of the plan gives exactly the calls that stage
      issues: nothing of a stage absent from the configuration, every
      variant present in it, and the velocity-regulator block three times. */
  lemma PlanCallsAt(cfg: AxisConfig, faults: uint8, st: Stage)
    ensures CallsAt(Plan(cfg, faults), st) == if st == Cyclic then [] else StageCalls(cfg, faults, st)
  {
    TranslatorOwnsCalls(cfg, faults);
    InitStagesIncreasing();
    CallsAtCallsOf(Translator(cfg, faults), InitStages, st);
    InitStagesCover(st);
  }

  /** The plan follows the fixed stage order. */
  lemma PlanInStageOrder(cfg: AxisConfig, faults: uint8)
    ensures InStageOrder(Plan(cfg, faults))
  {
    TranslatorOwnsCalls(cfg, faults);
    InitStagesIncreasing();
    CallsOfInStageOrder(Translator(cfg, faults), InitStages);
  }

  /** The plan opens the handle first, sets the protocol second and enables
      the drive last. */
  lemma PlanEnds(cfg: AxisConfig, faults: uint8)
    ensures |Plan(cfg, faults)| >= 4
    ensures Plan(cfg, faults)[0] == OpenCall(cfg.serialNumber)
    ensures Plan(cfg, faults)[1] == SetProtocolStackSettings(1000000, 500)
    ensures Plan(cfg, faults)[|Plan(cfg, faults)| - 1] == SetEnableState
  {
    PlanPhases(cfg, faults);
    ParameterCallsStart(cfg, faults);
    PhasesEnds(OpenCall(cfg.serialNumber), ParameterCalls(cfg, faults), GetNbOfDeviceError,
      FaultCodeQueries(faults), if cfg.clearFaults == Some(true) then [ClearFault] else [], SetEnableState);
  }

  lemma PhasesEnds(open: Command, params: seq<Command>, count: Command, codes: seq<Command>,
                   clear: seq<Command>, enable: Command)
    requires |params| > 0
    ensures |[open] + (params + ([count] + (codes + (clear + [enable]))))| >= 4
    ensures ([open] + (params + ([count] + (codes + (clear + [enable])))))[0] == open
    ensures ([open] + (params + ([count] + (codes + (clear + [enable])))))[1] == params[0]
    ensures ([open] + (params + ([count] + (codes + (clear + [enable])))))[|params| + |codes| + |clear| + 2] == enable
  {
  }

  /** The parameter calls come after the open call and before the fault
      handling in the stage order. */
  lemma ParameterCallsRanked(cfg: AxisConfig, faults: uint8)
    ensures forall c | c in ParameterCalls(cfg, faults) :: Rank(OpenHandle) < RankOf(c) < Rank(FaultCount)
  {
    TranslatorOwnsCalls(cfg, faults);
    ParameterStagesRanked();
    CallsOfRanks(Translator(cfg, faults), ParameterStages, Rank(OpenHandle), Rank(FaultCount));
  }

  lemma CallsOfRanks(calls: Stage -> seq<Command>, stages: seq<Stage>, lo: nat, hi: nat)
    requires StagesOwnCalls(calls)
    requires forall st | st in stages :: lo < Rank(st) < hi
    ensures forall c | c in CallsOf(calls, stages) :: lo < RankOf(c) < hi
  {
    CallsOfStages(calls, stages);
  }

  /** The enable call occurs once in the plan, as its last call. */
  lemma EnableOnlyLast(cfg: AxisConfig, faults: uint8)
    ensures forall i | 0 <= i < |Plan(cfg, faults)| - 1 :: Plan(cfg, faults)[i] != SetEnableState
  {
    PlanPhases(cfg, faults);
    ParameterCallsRanked(cfg, faults);
    PhasesWithoutEnable(Plan(cfg, faults), OpenCall(cfg.serialNumber), ParameterCalls(cfg, faults), faults,
      cfg.clearFaults == Some(true));
  }

  lemma PhasesWithoutEnable(s: seq<Command>, open: Command, params: seq<Command>, faults: nat, clear: bool)
    requires !open.SetEnableState?
    requires forall c | c in params :: RankOf(c) < Rank(FaultCount)
    requires s == [open] + (params + ([GetNbOfDeviceError] + (FaultCodeQueries(faults)
                 + ((if clear then [ClearFault] else []) + [SetEnableState]))))
    ensures forall i | 0 <= i < |s| - 1 :: s[i] != SetEnableState
  {
    var codes := FaultCodeQueries(faults);
    var x := [open] + params + [GetNbOfDeviceError] + codes + (if clear then [ClearFault] else []);
    assert s == x + [SetEnableState];
    forall i | 0 <= i < |s| - 1 ensures s[i] != SetEnableState {
      assert s[i] == x[i] && x[i] in x;
    }
  }

  /** The parameter stages lie strictly between opening and fault handling. */
  lemma ParameterStagesRanked()
    ensures forall st | st in ParameterStages :: Rank(OpenHandle) < Rank(st) < Rank(FaultCount)
  {
  }

  // ---------------------------------------------------------------------
  // What initialization issues against a device

  /** The calls issued are a prefix of the plan, in stage order, and the
      first of them opens the handle. */
  lemma IssuedFollowsPlan(cfg: AxisConfig, dev: Device, start: nat)
    ensures Run(dev, start, Plan(cfg, dev.faultCount)) <= Plan(cfg, dev.faultCount)
    ensures InStageOrder(Run(dev, start, Plan(cfg, dev.faultCount)))
    ensures |Run(dev, start, Plan(cfg, dev.faultCount))| > 0
    ensures Run(dev, start, Plan(cfg, dev.faultCount))[0] == OpenCall(cfg.serialNumber)
  {
    var plan := Plan(cfg, dev.faultCount);
    RunShape(dev, start, plan);
    PlanInStageOrder(cfg, dev.faultCount);
    PlanEnds(cfg, dev.faultCount);
    PrefixInStageOrder(plan, Run(dev, start, plan));
  }

  /** A device that does not answer the open call gets no other call. */
  lemma RefusedHandleStops(cfg: AxisConfig, dev: Device, start: nat)
    requires !dev.accepts(start, OpenCall(cfg.serialNumber))
    ensures Run(dev, start, Plan(cfg, dev.faultCount)) == [OpenCall(cfg.serialNumber)]
  {
    PlanEnds(cfg, dev.faultCount);
  }

  /** The enable call is issued only as the last call of the whole plan, and
      only when every call before it was accepted. */
  lemma EnableGated(cfg: AxisConfig, dev: Device, start: nat)
    ensures SetEnableState in Run(dev, start, Plan(cfg, dev.faultCount)) ==>
              Run(dev, start, Plan(cfg, dev.faultCount)) == Plan(cfg, dev.faultCount)
              && forall i | 0 <= i < |Plan(cfg, dev.faultCount)| - 1 ::
                   dev.accepts(start + i, Plan(cfg, dev.faultCount)[i])
  {
    PlanEnds(cfg, dev.faultCount);
    EnableOnlyLast(cfg, dev.faultCount);
    LastOnlyGate(dev, start, Plan(cfg, dev.faultCount), SetEnableState);
  }

  /** A position window is enabled only with a configured window, and with
      its time in milliseconds. */
  lemma PositionWindowIssued(cfg: AxisConfig, dev: Device, start: nat, j: nat)
    requires j < |Run(dev, start, Plan(cfg, dev.faultCount))|
    requires Run(dev, start, Plan(cfg, dev.faultCount))[j].EnablePositionWindow?
    ensures cfg.positionProfile.Some? && cfg.positionProfile.value.window.Some?
    ensures Run(dev, start, Plan(cfg, dev.faultCount))[j] ==
              EnablePositionWindow(cfg.positionProfile.value.window.value.window,
                                   Milliseconds(cfg.positionProfile.value.window.value.time))
  {
    PlanCallsAt(cfg, dev.faultCount, PositionWindow);
    IssuedOfStage(dev, start, Plan(cfg, dev.faultCount), j, PositionWindow, StageCalls(cfg, dev.faultCount, PositionWindow));
  }

  /** A position window is enabled only after the position profile was set
      and accepted. */
  lemma PositionWindowAfterProfile(cfg: AxisConfig, dev: Device, start: nat, j: nat)
    requires j < |Run(dev, start, Plan(cfg, dev.faultCount))|
    requires Run(dev, start, Plan(cfg, dev.faultCount))[j].EnablePositionWindow?
    ensures cfg.positionProfile.Some?
    ensures exists i | 0 <= i < j ::
              Run(dev, start, Plan(cfg, dev.faultCount))[i] ==
                SetPositionProfile(cfg.positionProfile.value.velocity, cfg.positionProfile.value.acceleration,
                                   cfg.positionProfile.value.deceleration)
              && dev.accepts(start + i, Run(dev, start, Plan(cfg, dev.faultCount))[i])
  {
    PositionWindowIssued(cfg, dev, start, j);
    var pp := cfg.positionProfile.value;
    var profile := SetPositionProfile(pp.velocity, pp.acceleration, pp.deceleration);
    PlanCallsAt(cfg, dev.faultCount, PositionProfile);
    PlanInStageOrder(cfg, dev.faultCount);
    AcceptedBefore(dev, start, Plan(cfg, dev.faultCount), j, profile,
                   StageCalls(cfg, dev.faultCount, PositionProfile), PositionWindow);
  }

  /** A velocity window is enabled only with a configured window, and with
      its time in milliseconds. */
  lemma VelocityWindowIssued(cfg: AxisConfig, dev: Device, start: nat, j: nat)
    requires j < |Run(dev, start, Plan(cfg, dev.faultCount))|
    requires Run(dev, start, Plan(cfg, dev.faultCount))[j].EnableVelocityWindow?
    ensures cfg.velocityProfile.Some? && cfg.velocityProfile.value.window.Some?
    ensures Run(dev, start, Plan(cfg, dev.faultCount))[j] ==
              EnableVelocityWindow(cfg.velocityProfile.value.window.value.window,
                                   Milliseconds(cfg.velocityProfile.value.window.value.time))
  {
    PlanCallsAt(cfg, dev.faultCount, VelocityWindow);
    IssuedOfStage(dev, start, Plan(cfg, dev.faultCount), j, VelocityWindow, StageCalls(cfg, dev.faultCount, VelocityWindow));
  }

  /** A velocity window is enabled only after the velocity profile was set
      and accepted. */
  lemma VelocityWindowAfterProfile(cfg: AxisConfig, dev: Device, start: nat, j: nat)
    requires j < |Run(dev, start, Plan(cfg, dev.faultCount))|
    requires Run(dev, start, Plan(cfg, dev.faultCount))[j].EnableVelocityWindow?
    ensures cfg.velocityProfile.Some?
    ensures exists i | 0 <= i < j ::
              Run(dev, start, Plan(cfg, dev.faultCount))[i] ==
                SetVelocityProfile(cfg.velocityProfile.value.acceleration, cfg.velocityProfile.value.deceleration)
              && dev.accepts(start + i, Run(dev, start, Plan(cfg, dev.faultCount))[i])
  {
    VelocityWindowIssued(cfg, dev, start, j);
    var vp := cfg.velocityProfile.value;
    var profile := SetVelocityProfile(vp.acceleration, vp.deceleration);
    PlanCallsAt(cfg, dev.faultCount, VelocityProfile);
    PlanInStageOrder(cfg, dev.faultCount);
    AcceptedBefore(dev, start, Plan(cfg, dev.faultCount), j, profile,
                   StageCalls(cfg, dev.faultCount, VelocityProfile), VelocityWindow);
  }

  // ---------------------------------------------------------------------
  // Which calls the plan contains

  /** A stage of initialization occurs in the plan iff it has calls for
      this configuration. */
  lemma PlanIssues(cfg: AxisConfig, faults: uint8, st: Stage)
    requires st != Cyclic
    ensures Issues(Plan(cfg, faults), st) <==> StageCalls(cfg, faults, st) != []
  {
    PlanCallsAt(cfg, faults, st);
    StagePresence(Plan(cfg, faults), st, StageCalls(cfg, faults, st));
  }

  /** The motor type is always set; each motor's parameters are set iff
      its subsection is present, independently of the other. */
  lemma MotorStagesIssued(cfg: AxisConfig, faults: uint8)
    ensures Issues(Plan(cfg, faults), MotorType)
    ensures Issues(Plan(cfg, faults), DcMotorParameters) <==> cfg.motor.dcMotor.Some?
    ensures Issues(Plan(cfg, faults), EcMotorParameters) <==> cfg.motor.ecMotor.Some?
  {
    PlanIssues(cfg, faults, MotorType);
    PlanIssues(cfg, faults, DcMotorParameters);
    PlanIssues(cfg, faults, EcMotorParameters);
  }

  /** The sensor type is always set; each sensor variant's parameters are
      set iff its subsection is present, with nothing limiting them to one. */
  lemma SensorStagesIssued(cfg: AxisConfig, faults: uint8)
    ensures Issues(Plan(cfg, faults), SensorType)
    ensures Issues(Plan(cfg, faults), IncEncoderParameters) <==> cfg.sensor.incrementalEncoder.Some?
    ensures Issues(Plan(cfg, faults), HallSensorParameters) <==> cfg.sensor.hallSensor.Some?
    ensures Issues(Plan(cfg, faults), SsiEncoderParameters) <==> cfg.sensor.ssiAbsoluteEncoder.Some?
  {
    PlanIssues(cfg, faults, SensorType);
    PlanIssues(cfg, faults, IncEncoderParameters);
    PlanIssues(cfg, faults, HallSensorParameters);
    PlanIssues(cfg, faults, SsiEncoderParameters);
  }

  /** Each safety limit is set iff it is present in a present safety
      section, independently of the other two. */
  lemma SafetyStagesIssued(cfg: AxisConfig, faults: uint8)
    ensures Issues(Plan(cfg, faults), FollowingErrorLimit) <==>
              cfg.safety.Some? && cfg.safety.value.maxFollowingError.Some?
    ensures Issues(Plan(cfg, faults), ProfileVelocityLimit) <==>
              cfg.safety.Some? && cfg.safety.value.maxProfileVelocity.Some?
    ensures Issues(Plan(cfg, faults), AccelerationLimit) <==>
              cfg.safety.Some? && cfg.safety.value.maxAcceleration.Some?
  {
    PlanIssues(cfg, faults, FollowingErrorLimit);
    PlanIssues(cfg, faults, ProfileVelocityLimit);
    PlanIssues(cfg, faults, AccelerationLimit);
  }

  /** The position and current regulator settings are each issued iff
      present in a present regulator section, independently of each other. */
  lemma RegulatorStagesIssued(cfg: AxisConfig, faults: uint8)
    ensures Issues(Plan(cfg, faults), PositionRegulatorGain) <==>
              cfg.positionRegulator.Some? && cfg.positionRegulator.value.gain.Some?
    ensures Issues(Plan(cfg, faults), PositionRegulatorFeedForward) <==>
              cfg.positionRegulator.Some? && cfg.positionRegulator.value.feedForward.Some?
    ensures Issues(Plan(cfg, faults), CurrentRegulatorGain) <==>
              cfg.currentRegulator.Some? && cfg.currentRegulator.value.gain.Some?
  {
    PlanIssues(cfg, faults, PositionRegulatorGain);
    PlanIssues(cfg, faults, PositionRegulatorFeedForward);
    PlanIssues(cfg, faults, CurrentRegulatorGain);
  }

  /** The position profile is set iff configured; its window is enabled
      iff the profile is configured with a window. */
  lemma PositionProfileIssued(cfg: AxisConfig, faults: uint8)
    ensures Issues(Plan(cfg, faults), PositionProfile) <==> cfg.positionProfile.Some?
    ensures Issues(Plan(cfg, faults), PositionWindow) <==>
              cfg.positionProfile.Some? && cfg.positionProfile.value.window.Some?
  {
    PlanIssues(cfg, faults, PositionProfile);
    PlanIssues(cfg, faults, PositionWindow);
  }

  /** The velocity profile is set iff configured; its window is enabled
      iff the profile is configured with a window. */
  lemma VelocityProfileIssued(cfg: AxisConfig, faults: uint8)
    ensures Issues(Plan(cfg, faults), VelocityProfile) <==> cfg.velocityProfile.Some?
    ensures Issues(Plan(cfg, faults), VelocityWindow) <==>
              cfg.velocityProfile.Some? && cfg.velocityProfile.value.window.Some?
  {
    PlanIssues(cfg, faults, VelocityProfile);
    PlanIssues(cfg, faults, VelocityWindow);
  }

  /** The fault count is always queried, and a fault code is queried iff a
      fault is reported. */
  lemma FaultQueriesIssued(cfg: AxisConfig, faults: uint8)
    ensures Issues(Plan(cfg, faults), FaultCount)
    ensures Issues(Plan(cfg, faults), FaultCode) <==> faults > 0
  {
    PlanIssues(cfg, faults, FaultCount);
    PlanIssues(cfg, faults, FaultCode);
  }

  /** The faults are cleared iff `clear_faults` is present and true. */
  lemma FaultClearIssued(cfg: AxisConfig, faults: uint8)
    ensures ClearFault in Plan(cfg, faults) <==> cfg.clearFaults == Some(true)
  {
    PlanCallsAt(cfg, faults, FaultClear);
    MemberOfStage(Plan(cfg, faults), ClearFault, StageCalls(cfg, faults, FaultClear));
  }

  /** Each velocity-regulator setting present in the configuration occurs
      in the plan exactly three times with the same arguments, and an absent
      one never. */
  lemma VelocityRegulatorThrice(cfg: AxisConfig, faults: uint8, c: Command)
    requires c.SetVelocityRegulatorGain? || c.SetVelocityRegulatorFeedForward?
    ensures multiset(Plan(cfg, faults))[c] == 3 * multiset(VelocityRegulatorBlock(cfg.velocityRegulator))[c]
    ensures multiset(Plan(cfg, faults))[c] == if c in VelocityRegulatorBlock(cfg.velocityRegulator) then 3 else 0
  {
    var block := VelocityRegulatorBlock(cfg.velocityRegulator);
    PlanCallsAt(cfg, faults, VelocityRegulator);
    assert StageOf(c) == VelocityRegulator;
    RepeatedStageCount(Plan(cfg, faults), c, block);
    VelocityRegulatorBlockOnce(cfg.velocityRegulator, c);
  }

  /** The block sets the gain iff one is configured and the feed-forward iff
      one is configured, each at most once. */
  lemma VelocityRegulatorBlockOnce(o: Option<VelocityRegulatorConfig>, c: Command)
    ensures c.SetVelocityRegulatorGain? ==>
              multiset(VelocityRegulatorBlock(o))[c] ==
                if o.Some? && o.value.gain.Some? && c == SetVelocityRegulatorGain(o.value.gain.value.p, o.value.gain.value.i)
                then 1 else 0
    ensures c.SetVelocityRegulatorFeedForward? ==>
              multiset(VelocityRegulatorBlock(o))[c] ==
                if o.Some? && o.value.feedForward.Some?
                   && c == SetVelocityRegulatorFeedForward(o.value.feedForward.value.velocity,
                                                           o.value.feedForward.value.acceleration)
                then 1 else 0
    ensures multiset(VelocityRegulatorBlock(o))[c] <= 1
  {
  }

  /** A stage whose calls are one block repeated three times holds each call
      three times as often as the block does. */
  lemma RepeatedStageCount(plan: seq<Command>, c: Command, block: seq<Command>)
    requires CallsAt(plan, StageOf(c)) == block + block + block
    ensures multiset(plan)[c] == 3 * multiset(block)[c]
  {
    CallsAtCount(plan, c);
    assert multiset(block + block + block) == multiset(block) + multiset(block) + multiset(block);
  }

  /** The parameter stages, four at a time, for any translator. */
  lemma ParameterStagesChunks(f: Stage -> seq<Command>)
    ensures CallsOf(f, ParameterStages) ==
      CallsOf(f, [ProtocolSettings, OperationMode, MotorType, DcMotorParameters])
      + (CallsOf(f, [EcMotorParameters, SensorType, IncEncoderParameters, HallSensorParameters])
      + (CallsOf(f, [SsiEncoderParameters, FollowingErrorLimit, ProfileVelocityLimit, AccelerationLimit])
      + (CallsOf(f, [PositionRegulatorGain, PositionRegulatorFeedForward, VelocityRegulator, CurrentRegulatorGain])
      + CallsOf(f, [PositionProfile, PositionWindow, VelocityProfile, VelocityWindow]))))
  {
    var c1 := [ProtocolSettings, OperationMode, MotorType, DcMotorParameters];
    var c2 := [EcMotorParameters, SensorType, IncEncoderParameters, HallSensorParameters];
    var c3 := [SsiEncoderParameters, FollowingErrorLimit, ProfileVelocityLimit, AccelerationLimit];
    var c4 := [PositionRegulatorGain, PositionRegulatorFeedForward, VelocityRegulator, CurrentRegulatorGain];
    var c5 := [PositionProfile, PositionWindow, VelocityProfile, VelocityWindow];
    assert ParameterStages == c1 + (c2 + (c3 + (c4 + c5)));
    CallsOfAppend(f, c1, c2 + (c3 + (c4 + c5)));
    CallsOfAppend(f, c2, c3 + (c4 + c5));
    CallsOfAppend(f, c3, c4 + c5);
    CallsOfAppend(f, c4, c5);
  }

  // ---------------------------------------------------------------------
  // The plan as the axis walks it: the open call, then the setup, which is
  // the parameter calls and then the closing (fault queries, then the
  // finale: the optional fault clear and the enable)

  /** The fault-count query followed by one code query per pending fault. */
  function FaultQueryCalls(faults: uint8): seq<Command>
  {
    [GetNbOfDeviceError] + FaultCodeQueries(faults)
  }

  /** The optional fault clear followed by the enable. */
  function FinaleCalls(cfg: AxisConfig): seq<Command>
  {
    (if cfg.clearFaults == Some(true) then [ClearFault] else []) + [SetEnableState]
  }

  function ClosingCalls(cfg: AxisConfig, faults: uint8): seq<Command>
  {
    FaultQueryCalls(faults) + FinaleCalls(cfg)
  }

  function SetupCalls(cfg: AxisConfig, faults: uint8): seq<Command>
  {
    ParameterCalls(cfg, faults) + ClosingCalls(cfg, faults)
  }

  /** The plan is the open call followed by the setup. */
  lemma PlanSplit(cfg: AxisConfig, faults: uint8)
    ensures Plan(cfg, faults) == [OpenCall(cfg.serialNumber)] + SetupCalls(cfg, faults)
  {
    PlanPhases(cfg, faults);
    SplitShape(Plan(cfg, faults), [OpenCall(cfg.serialNumber)], ParameterCalls(cfg, faults),
               FaultCodeQueries(faults), if cfg.clearFaults == Some(true) then [ClearFault] else []);
  }

  lemma SplitShape(plan: seq<Command>, open: seq<Command>, params: seq<Command>, codes: seq<Command>,
                   clear: seq<Command>)
    requires plan == open + (params + ([GetNbOfDeviceError] + (codes + (clear + [SetEnableState]))))
    ensures plan == open + (params + (([GetNbOfDeviceError] + codes) + (clear + [SetEnableState])))
  {
    AppendAssoc([GetNbOfDeviceError], codes, clear + [SetEnableState]);
  }

  /** No call of the cyclic stage (telemetry, set-point, disable) is part of
      initialization. */
  lemma CyclicOutsidePlan(cfg: AxisConfig, faults: uint8, c: Command)
    requires StageOf(c) == Cyclic
    ensures c !in Plan(cfg, faults)
  {
    PlanCallsAt(cfg, faults, Cyclic);
    MemberOfStage(Plan(cfg, faults), c, []);
  }
}
