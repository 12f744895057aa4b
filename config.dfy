/** The per-motor configuration tree, typed.
    Every field the initializer reads with a type assertion becomes a typed
    field here; every subsection or field it guards with `hasMember` becomes
    an `Option`, so a configuration value of these types is exactly a tree
    that passes all of the initializer's type assertions. */
module EposConfig {

  datatype Option<T> = None | Some(value: T)

  /** An `unsigned char`, as the device reports its pending fault count. */
  type uint8 = x: int | 0 <= x < 0x100

  /** The 64-bit serial number that identifies one controller. */
  type uint64 = x: int | 0 <= x < 0x1_0000_0000_0000_0000

  /** `motor.dc_motor`: currents in amperes, time constant in seconds. */
  datatype DcMotorConfig = DcMotorConfig(
    nominalCurrent: real,
    maxOutputCurrent: real,
    thermalTimeConstant: real)

  /** `motor.ec_motor`: as for a DC motor, plus the pole-pair count. */
  datatype EcMotorConfig = EcMotorConfig(
    nominalCurrent: real,
    maxOutputCurrent: real,
    thermalTimeConstant: real,
    numberOfPolePairs: int)

  /** `motor`: the type is mandatory, both parameter subsections are optional
      and nothing stops both from being present. */
  datatype MotorConfig = MotorConfig(
    motorType: int,
    dcMotor: Option<DcMotorConfig>,
    ecMotor: Option<EcMotorConfig>)

  datatype IncrementalEncoderConfig = IncrementalEncoderConfig(resolution: int, invertedPolarity: bool)

  datatype HallSensorConfig = HallSensorConfig(invertedPolarity: bool)

  datatype SsiAbsoluteEncoderConfig = SsiAbsoluteEncoderConfig(
    dataRate: int,
    numberOfMultiturnBits: int,
    numberOfSingleturnBits: int,
    invertedPolarity: bool)

  /** `sensor`: the type is mandatory, each variant subsection optional. */
  datatype SensorConfig = SensorConfig(
    sensorType: int,
    incrementalEncoder: Option<IncrementalEncoderConfig>,
    hallSensor: Option<HallSensorConfig>,
    ssiAbsoluteEncoder: Option<SsiAbsoluteEncoderConfig>)

  /** `safety`: three independently optional limits. */
  datatype SafetyConfig = SafetyConfig(
    maxFollowingError: Option<int>,
    maxProfileVelocity: Option<int>,
    maxAcceleration: Option<int>)

  datatype PidGain = PidGain(p: int, i: int, d: int)

  datatype PiGain = PiGain(p: int, i: int)

  datatype FeedForward = FeedForward(velocity: int, acceleration: int)

  datatype PositionRegulatorConfig = PositionRegulatorConfig(gain: Option<PidGain>, feedForward: Option<FeedForward>)

  datatype VelocityRegulatorConfig = VelocityRegulatorConfig(gain: Option<PiGain>, feedForward: Option<FeedForward>)

  datatype CurrentRegulatorConfig = CurrentRegulatorConfig(gain: Option<PiGain>)

  /** A profile's `window`: the window size and the settle time in seconds. */
  datatype WindowConfig = WindowConfig(window: int, time: real)

  datatype PositionProfileConfig = PositionProfileConfig(
    velocity: int,
    acceleration: int,
    deceleration: int,
    window: Option<WindowConfig>)

  datatype VelocityProfileConfig = VelocityProfileConfig(
    acceleration: int,
    deceleration: int,
    window: Option<WindowConfig>)

  /** One entry of the `motors` list. The serial number is the value the hex
      string parses to; the operation mode is the integer as configured, which
      the source casts to its enumeration without checking it. */
  datatype AxisConfig = AxisConfig(
    name: string,
    serialNumber: uint64,
    operationMode: int,
    motor: MotorConfig,
    sensor: SensorConfig,
    safety: Option<SafetyConfig>,
    positionRegulator: Option<PositionRegulatorConfig>,
    velocityRegulator: Option<VelocityRegulatorConfig>,
    currentRegulator: Option<CurrentRegulatorConfig>,
    positionProfile: Option<PositionProfileConfig>,
    velocityProfile: Option<VelocityProfileConfig>,
    clearFaults: Option<bool>)
}
