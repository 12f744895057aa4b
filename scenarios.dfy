/** A worked configuration: one axis with a DC motor and an incremental
    encoder, initialized against a device that accepts everything and
    against one that rejects the sensor type. */
module Scenarios {
  import opened EposConfig
  import opened Vendor
  import opened Sequencer

  /** Serial 0x12345678, DC motor 1.0 A / 2.0 A / 1.0 s, incremental encoder
      500 counts without inverted polarity, no safety, regulator or profile
      sections, `clear_faults` false. */
  const Sample: AxisConfig := AxisConfig("axis", 0x12345678, 3,
    MotorConfig(1, Some(DcMotorConfig(1.0, 2.0, 1.0)), None),
    SensorConfig(1, Some(IncrementalEncoderConfig(500, false)), None, None),
    None, None, None, None, None, None, Some(false))

  /** The calls of the sample configuration, with no fault pending. */
  const SampleCalls: seq<Command> := [
    CreateNodeHandle("EPOS2", "MAXON SERIAL V2", "USB", 0x12345678),
    SetProtocolStackSettings(1000000, 500),
    SetOperationMode(3),
    SetMotorType(1),
    SetDcMotorParameter(1000, 2000, 10),
    SetSensorType(1),
    SetIncEncoderParameter(500, false),
    GetNbOfDeviceError,
    SetEnableState]

  lemma SampleMotorStages(faults: uint8)
    ensures CallsOf(Translator(Sample, faults), [ProtocolSettings, OperationMode, MotorType, DcMotorParameters]) ==
      [SetProtocolStackSettings(1000000, 500), SetOperationMode(3), SetMotorType(1), SetDcMotorParameter(1000, 2000, 10)]
  {
    var f := Translator(Sample, faults);
    CallsOfFour(f, ProtocolSettings, OperationMode, MotorType, DcMotorParameters);
    ConversionsExact(1000);
    ConversionsExact(2000);
    ConversionsExact(10);
    assert f(DcMotorParameters) == [SetDcMotorParameter(1000, 2000, 10)];
  }

  lemma SampleSensorStages(faults: uint8)
    ensures CallsOf(Translator(Sample, faults), [EcMotorParameters, SensorType, IncEncoderParameters, HallSensorParameters]) ==
      [SetSensorType(1), SetIncEncoderParameter(500, false)]
  {
    CallsOfFour(Translator(Sample, faults), EcMotorParameters, SensorType, IncEncoderParameters, HallSensorParameters);
  }

  lemma SampleSafetyStages(faults: uint8)
    ensures CallsOf(Translator(Sample, faults), [SsiEncoderParameters, FollowingErrorLimit, ProfileVelocityLimit, AccelerationLimit]) == []
  {
    CallsOfFour(Translator(Sample, faults), SsiEncoderParameters, FollowingErrorLimit, ProfileVelocityLimit, AccelerationLimit);
  }

  lemma SampleRegulatorStages(faults: uint8)
    ensures CallsOf(Translator(Sample, faults), [PositionRegulatorGain, PositionRegulatorFeedForward, VelocityRegulator, CurrentRegulatorGain]) == []
  {
    CallsOfFour(Translator(Sample, faults), PositionRegulatorGain, PositionRegulatorFeedForward, VelocityRegulator, CurrentRegulatorGain);
  }

  lemma SampleProfileStages(faults: uint8)
    ensures CallsOf(Translator(Sample, faults), [PositionProfile, PositionWindow, VelocityProfile, VelocityWindow]) == []
  {
    CallsOfFour(Translator(Sample, faults), PositionProfile, PositionWindow, VelocityProfile, VelocityWindow);
  }

  /** The sample configuration, with no fault pending, opens the handle,
      sets the protocol, the operation mode, the motor type, the DC motor in
      mA, mA and units of 100 ms, the sensor type and the encoder, queries
      the fault count and enables the drive: nothing else. */
  lemma SamplePlan()
    ensures Plan(Sample, 0) == SampleCalls
  {
    PlanPhases(Sample, 0);
    SampleParameters(0);
    Assemble(Plan(Sample, 0), OpenCall(Sample.serialNumber), ParameterCalls(Sample, 0),
      FaultCodeQueries(0), if Sample.clearFaults == Some(true) then [ClearFault] else []);
  }

  /** Against a device that accepts every call and reports no fault, the
      sample issues its nine calls and initialization succeeds. */
  lemma SampleAccepted(dev: Device)
    requires dev.faultCount == 0
    requires forall k: nat, c: Command :: dev.accepts(k, c)
    ensures Run(dev, 0, Plan(Sample, dev.faultCount)) == SampleCalls
    ensures AllAccepted(dev, 0, Plan(Sample, dev.faultCount))
  {
    SamplePlan();
    assert AllAccepted(dev, 0, SampleCalls);
    assert |Run(dev, 0, SampleCalls)| == |SampleCalls| by {
      CompleteRun(dev, 0, SampleCalls);
    }
    assert Run(dev, 0, SampleCalls) <= SampleCalls by {
      RunShape(dev, 0, SampleCalls);
    }
  }

  /** Against a device that refuses only the sixth call, the sensor type,
      initialization stops right there and fails: no encoder parameter, no
      fault query and no enable call follows. */
  lemma SensorTypeRefused(dev: Device)
    requires dev.faultCount == 0
    requires forall k: nat, c: Command :: dev.accepts(k, c) == (k != 5)
    ensures Run(dev, 0, Plan(Sample, dev.faultCount)) == SampleCalls[..6]
    ensures SampleCalls[5] == SetSensorType(1)
    ensures SetEnableState !in Run(dev, 0, Plan(Sample, dev.faultCount))
    ensures !AllAccepted(dev, 0, Plan(Sample, dev.faultCount))
  {
    SamplePlan();
    assert SampleCalls == SampleCalls[..5] + SampleCalls[5..];
    RunAppendAccepted(dev, 0, SampleCalls[..5], SampleCalls[5..]);
    assert !dev.accepts(5, SampleCalls[5]);
  }

  /** The parameter calls of the sample: the protocol, the operation mode,
      the motor, the DC motor parameters converted to device units, the
      sensor and the encoder. */
  lemma SampleParameters(faults: uint8)
    ensures ParameterCalls(Sample, faults) ==
      [SetProtocolStackSettings(1000000, 500), SetOperationMode(3), SetMotorType(1),
       SetDcMotorParameter(1000, 2000, 10), SetSensorType(1), SetIncEncoderParameter(500, false)]
  {
    var f := Translator(Sample, faults);
    ParameterStagesChunks(f);
    SampleMotorStages(faults);
    SampleSensorStages(faults);
    SampleSafetyStages(faults);
    SampleRegulatorStages(faults);
    SampleProfileStages(faults);
    AssembleParameters(ParameterCalls(Sample, faults),
      CallsOf(f, [ProtocolSettings, OperationMode, MotorType, DcMotorParameters]),
      CallsOf(f, [EcMotorParameters, SensorType, IncEncoderParameters, HallSensorParameters]),
      CallsOf(f, [SsiEncoderParameters, FollowingErrorLimit, ProfileVelocityLimit, AccelerationLimit])
      + (CallsOf(f, [PositionRegulatorGain, PositionRegulatorFeedForward, VelocityRegulator, CurrentRegulatorGain])
      + CallsOf(f, [PositionProfile, PositionWindow, VelocityProfile, VelocityWindow])));
  }

  lemma AssembleParameters(s: seq<Command>, motor: seq<Command>, sensor: seq<Command>, rest: seq<Command>)
    requires s == motor + (sensor + rest)
    requires motor == [SetProtocolStackSettings(1000000, 500), SetOperationMode(3), SetMotorType(1),
      SetDcMotorParameter(1000, 2000, 10)]
    requires sensor == [SetSensorType(1), SetIncEncoderParameter(500, false)] && rest == []
    ensures s == [SetProtocolStackSettings(1000000, 500), SetOperationMode(3), SetMotorType(1),
      SetDcMotorParameter(1000, 2000, 10), SetSensorType(1), SetIncEncoderParameter(500, false)]
  {
  }

  lemma Assemble(s: seq<Command>, open: Command, params: seq<Command>, codes: seq<Command>, clear: seq<Command>)
    requires s == [open] + (params + ([GetNbOfDeviceError] + (codes + (clear + [SetEnableState]))))
    requires open == OpenCall(0x12345678) && codes == [] && clear == []
    requires params == [SetProtocolStackSettings(1000000, 500), SetOperationMode(3), SetMotorType(1),
      SetDcMotorParameter(1000, 2000, 10), SetSensorType(1), SetIncEncoderParameter(500, false)]
    ensures s == SampleCalls
  {
  }
}
