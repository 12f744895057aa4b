# EPOS hardware interface: initialization, read and write cycles

This project models the driver layer of a ROS hardware interface for Maxon
EPOS2 motor controllers. One `Epos` object drives one axis. Its `init` opens
a node handle for the controller's serial number and then pushes the axis
configuration to the controller, one vendor call at a time:

- protocol settings, operation mode;
- motor type and motor parameters;
- sensor type and sensor parameters;
- safety limits;
- position, velocity and current regulators;
- position and velocity profiles with their windows.

It then reads and reports the pending device faults, optionally clears them,
and enables the drive. Any refused call ends `init` with `false`. The `read`
cycle queries position, velocity and current. The `write` cycle commands a
fixed velocity. The destructor disables the drive. `EposHardware` owns one
`Epos` per configured motor and runs `init`, `read` and `write` over all of
them in order.

The vendor library (`VCS_*`) and the node-handle factory are foreign code.
They are modelled as a `Device`: an oracle that says whether the controller
accepts the n-th call of an axis, plus the number of faults the controller
reports. Every axis keeps the log of the calls it issued.

Files:

- `config.dfy`: the typed axis configuration. The XML-RPC type assertions become the types of its fields.
- `vendor.dfy`: the vendor calls, their stages and order, the device oracle, and `Run`. `Run` is the prefix of a call plan that a device lets through: everything up to and including the first refused call.
- `sequencer.dfy`: the unit conversions, the calls of each configuration section, the full `Plan` of `init`, and the properties of that plan.
- `axis.dfy`: the class `Epos`, with methods that issue calls and grow the log.
- `hardware.dfy`: the class `EposHardware` over a sequence of axes, with a trace of the calls its read and write cycles issue, each tagged with its axis.
- `scenarios.dfy`: a worked configuration whose plan is computed call by call.

## Model

| member | source | states |
|---|---|---|
| Axis.Epos.constructor | epos_hardware/src/util/epos_hardware.cpp:6-18 | a new axis holds its configuration and controller, has no node handle and has issued no call |
| Axis.Epos.Issue | epos_hardware/src/util/epos_hardware.cpp:32-34 | one vendor call is appended to the log, and its success is the controller's answer to that call at that position |
| Axis.Epos.IssueAll | epos_hardware/src/util/epos_hardware.cpp:32-338 | issuing the parameter calls one by one, stopping at the first refusal, logs exactly `Run` of the list, and succeeds iff every call was accepted |
| Axis.Epos.QueryFaultCodes | epos_hardware/src/util/epos_hardware.cpp:345-350 | the fault-code query is issued for indices 1..n in increasing order and stops at the first failed query; it succeeds iff every query succeeded |
| Axis.Epos.ReportFaults | epos_hardware/src/util/epos_hardware.cpp:342-350 | the fault count is queried first; the code queries follow only if the count query succeeded, and the log is `Run` of that phase |
| Axis.Epos.ClearAndEnable | epos_hardware/src/util/epos_hardware.cpp:352-366 | the fault clear (only when `clear_faults` is true) and the enable call, stopping at the first refusal |
| Axis.Epos.Conclude | epos_hardware/src/util/epos_hardware.cpp:342-366 | the fault phase followed by the clear and enable phase, as one run over both |
| Axis.Epos.Configure | epos_hardware/src/util/epos_hardware.cpp:32-366 | every call after the open call, as one run: the log is `Run` of the rest of the plan and success means all were accepted |
| Axis.Epos.Init | epos_hardware/src/util/epos_hardware.cpp:24-367 | the calls issued are exactly the prefix of `Plan` through the first refused call; the result is true iff every planned call was accepted; a handle is held iff the open call was accepted |
| Axis.Epos.Read | epos_hardware/src/util/epos_hardware.cpp:368-377 | with a node handle, a read queries position, velocity and current in that order; without one, no call is issued |
| Axis.Epos.ReadAsWritten | epos_hardware/src/util/epos_hardware.cpp:368-377 | the read as written: it needs a node handle, then issues the three telemetry queries |
| Axis.Epos.Write | epos_hardware/src/util/epos_hardware.cpp:379-382 | with a node handle, a write commands velocity 100 whatever the operation mode; without one, no call is issued |
| Axis.Epos.WriteAsWritten | epos_hardware/src/util/epos_hardware.cpp:379-382 | the write as written: it needs a node handle, then commands velocity 100 |
| Axis.Epos.Release | epos_hardware/src/util/epos_hardware.cpp:19-22 | with a node handle, releasing the axis disables the drive; without one, no call is issued |
| Axis.Epos.ReleaseAsWritten | epos_hardware/src/util/epos_hardware.cpp:19-22 | the destructor as written: it needs a node handle, then disables the drive |
| Axis.CycleCallsOutsidePlan | epos_hardware/src/util/epos_hardware.cpp:368-382 | the telemetry and velocity calls of the read and write cycles, and the disable call of the destructor (lines 19-22), never occur in the initialization plan |
| Hardware.EposHardware.constructor | epos_hardware/src/util/epos_hardware.cpp:384-398 | one fresh, distinct axis per configured motor, in list order, each without a handle and with an empty log |
| Hardware.EposHardware.Init | epos_hardware/src/util/epos_hardware.cpp:400-405 | every axis is initialized once, in order, and each ends as its own `Init` promises; a failed axis does not stop the later ones, and its result is only reported |
| Hardware.EposHardware.Read | epos_hardware/src/util/epos_hardware.cpp:407-411 | every axis runs one read cycle, with handles unchanged; the fleet trace grows by one pass over the axes in configuration order, each axis with a handle issuing the three telemetry queries |
| Hardware.EposHardware.ReadAsWritten | epos_hardware/src/util/epos_hardware.cpp:407-411 | the fleet read as written: every axis must hold a handle; the trace grows by one pass in configuration order, three telemetry queries per axis |
| Hardware.EposHardware.Write | epos_hardware/src/util/epos_hardware.cpp:413-417 | every axis runs one write cycle, with handles unchanged; the fleet trace grows by one pass over the axes in configuration order, each axis with a handle sending the set-point |
| Hardware.EposHardware.WriteAsWritten | epos_hardware/src/util/epos_hardware.cpp:413-417 | the fleet write as written: every axis must hold a handle; the trace grows by one pass in configuration order, one set-point per axis |
| Hardware.SweepInOrder | epos_hardware/src/util/epos_hardware.cpp:407-417 | within one pass, the axis indices of the trace never decrease and stay inside the fleet: the axes are visited in configuration order |
| Hardware.SweepPerAxis | epos_hardware/src/util/epos_hardware.cpp:407-417 | within one pass, the calls tagged with an axis are exactly that axis's calls, so each axis is visited once |
| Hardware.RefusedOpenLeavesNoHandle | epos_hardware/src/util/epos_hardware.cpp:27-29 | after the fleet initializes an axis whose open call is refused, the axis holds no handle and only the open call was issued, so the as-written read and write cannot be called on that fleet |
| Vendor.Run | epos_hardware/src/util/epos_hardware.cpp:24-367 | the chain of `if(!VCS_…) return false`: the calls issued when a plan is walked, through the first refused one; specified by `Vendor.RunShape`, `Vendor.CompleteRun` and `Vendor.AcceptedIffIssuedAccepted` |
| Vendor.CompleteRun | epos_hardware/src/util/epos_hardware.cpp:24-367 | the walk succeeds iff it issues the whole plan and the last call is accepted |
| Vendor.RunShape | epos_hardware/src/util/epos_hardware.cpp:24-367 | the issued calls are a prefix of the plan; every issued call except the last was accepted; if the run stops early, its last call was refused |
| Vendor.AcceptedIffIssuedAccepted | epos_hardware/src/util/epos_hardware.cpp:24-367 | a plan is fully accepted iff every issued call was accepted, and then the whole plan was issued |
| Vendor.IssuedOnlyAfterAccepted | epos_hardware/src/util/epos_hardware.cpp:24-367 | a call is issued only after every call before it was accepted |
| Vendor.RunAppend | epos_hardware/src/util/epos_hardware.cpp:24-367 | running two phases in a row continues into the second phase only if the first was fully accepted |
| Vendor.RunAppendAccepted | epos_hardware/src/util/epos_hardware.cpp:24-367 | after a fully accepted first phase, the second phase runs from the next call |
| Vendor.RunAppendRejected | epos_hardware/src/util/epos_hardware.cpp:24-367 | after a refusal in the first phase, no call of the second phase is issued |
| Vendor.AllAcceptedAppend | epos_hardware/src/util/epos_hardware.cpp:24-367 | two phases are accepted iff each is, the second counted from the end of the first |
| Vendor.LastOnlyGate | epos_hardware/src/util/epos_hardware.cpp:362-364 | a call that occurs only at the end of a plan is issued only if the whole plan was issued and every earlier call was accepted |
| Vendor.EarlierStageAccepted | epos_hardware/src/util/epos_hardware.cpp:24-367 | any planned call of an earlier stage was issued and accepted before a call of a later stage |
| Sequencer.Truncate | epos_hardware/src/util/epos_hardware.cpp:54-56 | the conversion of a scaled value to an integer argument; specified by `Sequencer.TruncateTowardZero` |
| Sequencer.Milliamperes | epos_hardware/src/util/epos_hardware.cpp:54-55 | amperes to milliamperes, also at 69-70; specified by `Sequencer.ConversionsExact` |
| Sequencer.Deciseconds | epos_hardware/src/util/epos_hardware.cpp:56 | seconds to units of 100 ms, also at 71; specified by `Sequencer.ConversionsExact` |
| Sequencer.Milliseconds | epos_hardware/src/util/epos_hardware.cpp:309 | seconds to milliseconds for the window times, also at 334; specified by `Sequencer.ConversionsExact` and the window lemmas |
| Sequencer.FaultCodesIssued | epos_hardware/src/util/epos_hardware.cpp:345-350 | the fault-code queries issued are for indices 1, 2, … in increasing order; every issued query before the last was accepted, and the queries stop right after the first refused one; and all succeed iff all n were issued and the last was accepted |
| Sequencer.DcMotorCalls | epos_hardware/src/util/epos_hardware.cpp:47-59 | the DC motor parameters in mA, mA and 100 ms when the subsection is present; specified by `Sequencer.MotorStagesIssued`, `Sequencer.PlanCallsAt` and `Scenarios.SampleParameters` |
| Sequencer.EcMotorCalls | epos_hardware/src/util/epos_hardware.cpp:61-75 | the EC motor parameters, with the pole pairs, when the subsection is present; specified by `Sequencer.MotorStagesIssued` and `Sequencer.PlanCallsAt` |
| Sequencer.IncEncoderCalls | epos_hardware/src/util/epos_hardware.cpp:86-96 | the incremental encoder parameters when present; specified by `Sequencer.SensorStagesIssued` |
| Sequencer.HallSensorCalls | epos_hardware/src/util/epos_hardware.cpp:98-106 | the Hall sensor parameters when present; specified by `Sequencer.SensorStagesIssued` |
| Sequencer.SsiEncoderCalls | epos_hardware/src/util/epos_hardware.cpp:108-122 | the SSI absolute encoder parameters when present; specified by `Sequencer.SensorStagesIssued` |
| Sequencer.FollowingErrorCalls | epos_hardware/src/util/epos_hardware.cpp:129-135 | the following-error limit when present in a present safety section; specified by `Sequencer.SafetyStagesIssued` |
| Sequencer.ProfileVelocityLimitCalls | epos_hardware/src/util/epos_hardware.cpp:137-143 | the profile-velocity limit, likewise; specified by `Sequencer.SafetyStagesIssued` |
| Sequencer.AccelerationLimitCalls | epos_hardware/src/util/epos_hardware.cpp:145-151 | the acceleration limit, likewise; specified by `Sequencer.SafetyStagesIssued` |
| Sequencer.PositionGainCalls | epos_hardware/src/util/epos_hardware.cpp:157-169 | the position regulator gain when present; specified by `Sequencer.RegulatorStagesIssued` |
| Sequencer.PositionFeedForwardCalls | epos_hardware/src/util/epos_hardware.cpp:171-181 | the position regulator feed-forward when present; specified by `Sequencer.RegulatorStagesIssued` |
| Sequencer.VelocityRegulatorBlock | epos_hardware/src/util/epos_hardware.cpp:185-212 | one pass of the velocity regulator block; specified by `Sequencer.VelocityRegulatorBlockOnce` and `Sequencer.VelocityRegulatorThrice` |
| Sequencer.CurrentGainCalls | epos_hardware/src/util/epos_hardware.cpp:274-288 | the current regulator gain when present; specified by `Sequencer.RegulatorStagesIssued` |
| Sequencer.PositionProfileCalls | epos_hardware/src/util/epos_hardware.cpp:290-301 | the position profile when its section is present; specified by `Sequencer.PositionProfileIssued` |
| Sequencer.PositionWindowCalls | epos_hardware/src/util/epos_hardware.cpp:302-312 | the position window, time in ms, when present; specified by `Sequencer.PositionProfileIssued` and `Sequencer.PositionWindowIssued` |
| Sequencer.VelocityProfileCalls | epos_hardware/src/util/epos_hardware.cpp:317-326 | the velocity profile when its section is present; specified by `Sequencer.VelocityProfileIssued` |
| Sequencer.VelocityWindowCalls | epos_hardware/src/util/epos_hardware.cpp:327-337 | the velocity window, time in ms, when present; specified by `Sequencer.VelocityProfileIssued` and `Sequencer.VelocityWindowIssued` |
| Sequencer.StageCalls | epos_hardware/src/util/epos_hardware.cpp:27-364 | the calls each block of `init` issues for a configuration; specified by `Sequencer.PlanCallsAt`, `Sequencer.TranslatorOwnsCalls` and the `…Issued` lemmas |
| Sequencer.Plan | epos_hardware/src/util/epos_hardware.cpp:24-367 | every call `init` issues when all succeed, in order; specified by `Sequencer.PlanPhases`, `Sequencer.PlanInStageOrder`, `Sequencer.PlanCallsAt`, `Sequencer.PlanEnds` and `Sequencer.EnableOnlyLast` |
| Sequencer.TruncateTowardZero | epos_hardware/src/util/epos_hardware.cpp:54-56 | the conversion to an integer drops the fraction toward zero, for both signs |
| Sequencer.ConversionsExact | epos_hardware/src/util/epos_hardware.cpp:54-56 | a current given in whole milliamperes, a time in whole tenths or whole milliseconds is passed exactly as 1000 × A, 10 × s or 1000 × s |
| Sequencer.TranslatorOwnsCalls | epos_hardware/src/util/epos_hardware.cpp:27-364 | every call a configuration section produces belongs to that section's stage |
| Sequencer.PlanPhases | epos_hardware/src/util/epos_hardware.cpp:24-367 | the plan is: open, the parameter calls, the fault count, the fault codes, the clear (when requested), enable |
| Sequencer.PlanEnds | epos_hardware/src/util/epos_hardware.cpp:27-364 | the plan starts with the open call for the axis's serial number and the protocol settings, and ends with enable |
| Sequencer.PlanInStageOrder | epos_hardware/src/util/epos_hardware.cpp:27-363 | the plan visits the fourteen groups of calls in their fixed order |
| Sequencer.PlanCallsAt | epos_hardware/src/util/epos_hardware.cpp:27-364 | the calls of each stage within the plan are exactly the calls its configuration section produces |
| Sequencer.ParameterCallsRanked | epos_hardware/src/util/epos_hardware.cpp:32-338 | every parameter call lies strictly between the open call and the fault queries |
| Sequencer.EnableOnlyLast | epos_hardware/src/util/epos_hardware.cpp:362-364 | enable occurs in the plan only as its last call |
| Sequencer.IssuedFollowsPlan | epos_hardware/src/util/epos_hardware.cpp:24-367 | the issued calls are a non-empty prefix of the plan, in stage order, starting with the open call |
| Sequencer.RefusedHandleStops | epos_hardware/src/util/epos_hardware.cpp:27-29 | when the open call is refused, it is the only call issued |
| Sequencer.EnableGated | epos_hardware/src/util/epos_hardware.cpp:362-364 | enable is issued only if every earlier planned call was issued and accepted |
| Sequencer.PositionWindowIssued | epos_hardware/src/util/epos_hardware.cpp:302-312 | an issued position-window call implies a position profile with a window, and carries its window and its time in milliseconds |
| Sequencer.PositionWindowAfterProfile | epos_hardware/src/util/epos_hardware.cpp:296-312 | an issued position-window call comes after the position-profile call was issued and accepted |
| Sequencer.VelocityWindowIssued | epos_hardware/src/util/epos_hardware.cpp:327-337 | an issued velocity-window call implies a velocity profile with a window, and carries its window and its time in milliseconds |
| Sequencer.VelocityWindowAfterProfile | epos_hardware/src/util/epos_hardware.cpp:322-337 | an issued velocity-window call comes after the velocity-profile call was issued and accepted |
| Sequencer.PlanIssues | epos_hardware/src/util/epos_hardware.cpp:27-364 | the plan issues a stage iff that stage's section produces a call |
| Sequencer.MotorStagesIssued | epos_hardware/src/util/epos_hardware.cpp:39-76 | motor type is always planned; DC and EC parameters are planned iff their subsection is present, both when both are |
| Sequencer.SensorStagesIssued | epos_hardware/src/util/epos_hardware.cpp:78-124 | sensor type is always planned; incremental, Hall and SSI parameters are each planned iff their subsection is present |
| Sequencer.SafetyStagesIssued | epos_hardware/src/util/epos_hardware.cpp:126-152 | each safety limit is planned iff that field is present inside a present safety section |
| Sequencer.RegulatorStagesIssued | epos_hardware/src/util/epos_hardware.cpp:154-288 | each position and current regulator gain or feed-forward call is planned iff that field is present inside a present section |
| Sequencer.PositionProfileIssued | epos_hardware/src/util/epos_hardware.cpp:290-313 | the position profile is planned iff its section is present, its window iff the window is present too |
| Sequencer.VelocityProfileIssued | epos_hardware/src/util/epos_hardware.cpp:317-338 | the velocity profile is planned iff its section is present, its window iff the window is present too |
| Sequencer.FaultQueriesIssued | epos_hardware/src/util/epos_hardware.cpp:342-350 | the fault count is always queried; fault codes are queried iff the controller reports a fault |
| Sequencer.FaultClearIssued | epos_hardware/src/util/epos_hardware.cpp:352-360 | the fault clear is planned iff `clear_faults` is present and true |
| Sequencer.VelocityRegulatorBlockOnce | epos_hardware/src/util/epos_hardware.cpp:185-212 | one velocity-regulator block issues each present gain or feed-forward call once, with the configured arguments |
| Sequencer.VelocityRegulatorThrice | epos_hardware/src/util/epos_hardware.cpp:185-272 | a velocity-regulator gain or feed-forward call occurs in the plan exactly three times when present, never otherwise |
| Sequencer.CyclicOutsidePlan | epos_hardware/src/util/epos_hardware.cpp:24-367 | no telemetry, motion or disable call is part of the initialization plan |
| Scenarios.SamplePlan | epos_hardware/src/util/epos_hardware.cpp:24-367 | for a DC motor with an incremental encoder and no fault pending, the plan is the nine expected calls, with the currents in mA and the time constant in tenths of a second |
| Scenarios.SampleAccepted | epos_hardware/src/util/epos_hardware.cpp:24-367 | against a device that accepts every call, the sample issues exactly those nine calls and succeeds |
| Scenarios.SensorTypeRefused | epos_hardware/src/util/epos_hardware.cpp:78-85 | against a device that refuses the sensor type, initialization stops after it and fails: no encoder, fault or enable call follows |
| Scenarios.SampleParameters | epos_hardware/src/util/epos_hardware.cpp:32-124 | the parameter calls of that configuration, with converted units |

## Left out

- The vendor library and the node-handle factory are foreign code. A `Device` oracle answers each call and reports the fault count; the effect of a call on the controller's registers is not modelled.
- The values the vendor calls return are not modelled: the telemetry a read fetches and the fault codes `init` logs. Only the number of faults matters to the call sequence.
- Logging (`ROS_INFO`, `ROS_WARN`, `ROS_ERROR`, `ROS_FATAL`) is left out.
- Parsing the serial number from hexadecimal (`SerialNumberFromHex`) is not part of this model. The serial number is a given 64-bit value.
- The XML-RPC configuration and its `ROS_ASSERT` type checks become a typed configuration. A configuration whose types do not match is not modelled; in the source it aborts the process.
- The double-to-integer conversions are truncations on exact reals. IEEE rounding of `1000 * x` and `10 * x` is not modelled, and neither are the widths of the vendor call arguments.
- Hardware.EposHardware.constructor: takes the motor list as a parameter. Reading it from the ROS parameter server, and the "No motors defined" branch that leaves the list empty, are not modelled.
- Hardware.EposHardware.Init: returns each axis's result, where the source only logs a failure. The fleet trace records the read and write cycles only, so the order across axes during initialization appears only as the loop's index order.
- The destructor of `EposHardware` and the object lifetimes of the shared pointers are left out. `Axis.Epos.Release` models one axis's destructor.
- Uniqueness of serial numbers across axes is not checked, as in the source.

Some behaviours of the code that a reader might not expect, which the model reproduces:

- A failed fault-code query makes `init` return false, like every other refused call.
- All present motor and sensor subsections are issued, in the order DC, EC, incremental, Hall, SSI. Nothing enforces that only one is present.
- The velocity-regulator block is issued three times, as the code repeats it verbatim.
- A write always commands velocity 100, whatever the operation mode.
- The operation mode is passed through without validation.

`Epos::init` is one function in the source. Here it is split into several methods (`Configure`, `ReportFaults`, `QueryFaultCodes`, `ClearAndEnable`, `Conclude`). Each keeps the source's order and its stop-at-first-failure rule.

## Findings

| source | as written | input that shows it | evidently intended | confidence | as-written member | corrected member |
|---|---|---|---|---|---|---|
| epos_hardware/src/util/epos_hardware.cpp:19-22, 368-382, 400-417 | `init` returns false when `CreateNodeHandle` yields no handle. The fleet's `init` only logs this, and its `read` and `write` then call every axis. `read`, `write` and the destructor dereference the node handle without checking it. | one axis whose controller refuses the open call: after the fleet's `init`, that axis has no handle, and the next read cycle dereferences a null handle | read, write and the destructor skip an axis that holds no node handle | not executed | Axis.Epos.ReadAsWritten, Axis.Epos.WriteAsWritten, Axis.Epos.ReleaseAsWritten, Hardware.EposHardware.ReadAsWritten, Hardware.EposHardware.WriteAsWritten, Hardware.RefusedOpenLeavesNoHandle | Axis.Epos.Read, Axis.Epos.Write, Axis.Epos.Release, Hardware.EposHardware.Read, Hardware.EposHardware.Write |
