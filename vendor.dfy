/** The boundary to the controller's vendor library: one constructor per call
    the core issues, carrying the integer arguments it passes, and an abstract
    device that answers each call with success or failure. */
module Vendor {
  import opened EposConfig

  datatype Command =
    | CreateNodeHandle(deviceName: string, protocolStackName: string, interfaceName: string, serialNumber: uint64)
    | SetProtocolStackSettings(baudrate: int, timeout: int)
    | SetOperationMode(mode: int)
    | SetMotorType(motorType: int)
    | SetDcMotorParameter(nominalCurrent: int, maxOutputCurrent: int, thermalTimeConstant: int)
    | SetEcMotorParameter(nominalCurrent: int, maxOutputCurrent: int, thermalTimeConstant: int, numberOfPolePairs: int)
    | SetSensorType(sensorType: int)
    | SetIncEncoderParameter(resolution: int, invertedPolarity: bool)
    | SetHallSensorParameter(invertedPolarity: bool)
    | SetSsiAbsEncoderParameter(dataRate: int, multiturnBits: int, singleturnBits: int, invertedPolarity: bool)
    | SetMaxFollowingError(limit: int)
    | SetMaxProfileVelocity(limit: int)
    | SetMaxAcceleration(limit: int)
    | SetPositionRegulatorGain(p: int, i: int, d: int)
    | SetPositionRegulatorFeedForward(velocity: int, acceleration: int)
    | SetVelocityRegulatorGain(p: int, i: int)
    | SetVelocityRegulatorFeedForward(velocity: int, acceleration: int)
    | SetCurrentRegulatorGain(p: int, i: int)
    | SetPositionProfile(velocity: int, acceleration: int, deceleration: int)
    | EnablePositionWindow(window: int, time: int)
    | SetVelocityProfile(acceleration: int, deceleration: int)
    | EnableVelocityWindow(window: int, time: int)
    | GetNbOfDeviceError
    | GetDeviceErrorCode(errorIndex: int)
    | ClearFault
    | SetEnableState
    | SetDisableState
    | GetPositionIs
    | GetVelocityIs
    | GetCurrentIs
    | MoveWithVelocity(velocity: int)

  /** The stages of initialization, in the order they are issued. The
      velocity regulator's gain and feed-forward share one stage because the
      source repeats that whole block. `Cyclic` collects the calls made after
      initialization (telemetry, set-point, disable). */
  datatype Stage =
    | OpenHandle | ProtocolSettings | OperationMode
    | MotorType | DcMotorParameters | EcMotorParameters
    | SensorType | IncEncoderParameters | HallSensorParameters | SsiEncoderParameters
    | FollowingErrorLimit | ProfileVelocityLimit | AccelerationLimit
    | PositionRegulatorGain | PositionRegulatorFeedForward
    | VelocityRegulator
    | CurrentRegulatorGain
    | PositionProfile | PositionWindow
    | VelocityProfile | VelocityWindow
    | FaultCount | FaultCode | FaultClear
    | Enable
    | Cyclic

  function StageOf(c: Command): Stage
  {
    match c
    case CreateNodeHandle(_, _, _, _) => OpenHandle
    case SetProtocolStackSettings(_, _) => ProtocolSettings
    case SetOperationMode(_) => OperationMode
    case SetMotorType(_) => MotorType
    case SetDcMotorParameter(_, _, _) => DcMotorParameters
    case SetEcMotorParameter(_, _, _, _) => EcMotorParameters
    case SetSensorType(_) => SensorType
    case SetIncEncoderParameter(_, _) => IncEncoderParameters
    case SetHallSensorParameter(_) => HallSensorParameters
    case SetSsiAbsEncoderParameter(_, _, _, _) => SsiEncoderParameters
    case SetMaxFollowingError(_) => FollowingErrorLimit
    case SetMaxProfileVelocity(_) => ProfileVelocityLimit
    case SetMaxAcceleration(_) => AccelerationLimit
    case SetPositionRegulatorGain(_, _, _) => PositionRegulatorGain
    case SetPositionRegulatorFeedForward(_, _) => PositionRegulatorFeedForward
    case SetVelocityRegulatorGain(_, _) => VelocityRegulator
    case SetVelocityRegulatorFeedForward(_, _) => VelocityRegulator
    case SetCurrentRegulatorGain(_, _) => CurrentRegulatorGain
    case SetPositionProfile(_, _, _) => PositionProfile
    case EnablePositionWindow(_, _) => PositionWindow
    case SetVelocityProfile(_, _) => VelocityProfile
    case EnableVelocityWindow(_, _) => VelocityWindow
    case GetNbOfDeviceError => FaultCount
    case GetDeviceErrorCode(_) => FaultCode
    case ClearFault => FaultClear
    case SetEnableState => Enable
    case _ => Cyclic
  }

  /** The position of a stage in the fixed initialization order. */
  function Rank(s: Stage): nat
  {
    match s
    case OpenHandle => 0
    case ProtocolSettings => 1
    case OperationMode => 2
    case MotorType => 3
    case DcMotorParameters => 4
    case EcMotorParameters => 5
    case SensorType => 6
    case IncEncoderParameters => 7
    case HallSensorParameters => 8
    case SsiEncoderParameters => 9
    case FollowingErrorLimit => 10
    case ProfileVelocityLimit => 11
    case AccelerationLimit => 12
    case PositionRegulatorGain => 13
    case PositionRegulatorFeedForward => 14
    case VelocityRegulator => 15
    case CurrentRegulatorGain => 16
    case PositionProfile => 17
    case PositionWindow => 18
    case VelocityProfile => 19
    case VelocityWindow => 20
    case FaultCount => 21
    case FaultCode => 22
    case FaultClear => 23
    case Enable => 24
    case Cyclic => 25
  }

  function RankOf(c: Command): nat
  {
    Rank(StageOf(c))
  }

  /** The calls of `s` never go back to an earlier stage. */
  ghost predicate InStageOrder(s: seq<Command>)
  {
    forall i, j | 0 <= i < j < |s| :: RankOf(s[i]) <= RankOf(s[j])
  }

  /** The controller behind one axis, as seen through the vendor library:
      whether it accepts the call it receives as the `k`-th call on this axis,
      and the pending fault count it reports. Nothing else of the device is
      modelled. */
  datatype Device = Device(accepts: (nat, Command) -> bool, faultCount: uint8)

  /** Every call of `plan`, issued from call number `start` on, is accepted. */
  ghost predicate AllAccepted(dev: Device, start: nat, plan: seq<Command>)
  {
    forall i | 0 <= i < |plan| :: dev.accepts(start + i, plan[i])
  }

  /** The calls actually issued when `plan` is walked from call number
      `start` on, stopping right after the first call the device rejects. */
  function Run(dev: Device, start: nat, plan: seq<Command>): seq<Command>
    decreases |plan|
  {
    if plan == [] then []
    else if dev.accepts(start, plan[0]) then [plan[0]] + Run(dev, start + 1, plan[1..])
    else [plan[0]]
  }

  /** What a walk issues: a prefix of the plan, non-empty when the plan is,
      every call but the last accepted, and, when it stops short of the end of
      the plan, the last one issued rejected. */
  lemma {:induction false} RunShape(dev: Device, start: nat, plan: seq<Command>)
    ensures Run(dev, start, plan) <= plan
    ensures |plan| > 0 ==> |Run(dev, start, plan)| > 0
    ensures forall i | 0 <= i < |Run(dev, start, plan)| - 1 :: dev.accepts(start + i, Run(dev, start, plan)[i])
    ensures |Run(dev, start, plan)| < |plan| ==>
              !dev.accepts(start + |Run(dev, start, plan)| - 1, plan[|Run(dev, start, plan)| - 1])
    decreases |plan|
  {
    if plan != [] && dev.accepts(start, plan[0]) {
      var rest := Run(dev, start + 1, plan[1..]);
      RunShape(dev, start + 1, plan[1..]);
      assert Run(dev, start, plan) == [plan[0]] + rest;
      forall i | 1 <= i <= |rest| ensures ([plan[0]] + rest)[i] == plan[i] {
        assert rest[i - 1] == plan[1..][i - 1];
      }
      forall i | 1 <= i < |rest| ensures dev.accepts(start + i, ([plan[0]] + rest)[i]) {
        assert dev.accepts(start + 1 + (i - 1), rest[i - 1]);
      }
    }
  }

  /** Walking `a + b` is walking `a`, then, only if all of `a` was accepted,
      walking `b`. */
  lemma RunAppend(dev: Device, start: nat, a: seq<Command>, b: seq<Command>)
    ensures Run(dev, start, a + b) ==
            if AllAccepted(dev, start, a) then a + Run(dev, start + |a|, b) else Run(dev, start, a)
  {
    if AllAccepted(dev, start, a) {
      RunAppendAccepted(dev, start, a, b);
    } else {
      RunAppendRejected(dev, start, a, b);
    }
  }

  lemma {:induction false} RunAppendAccepted(dev: Device, start: nat, a: seq<Command>, b: seq<Command>)
    requires AllAccepted(dev, start, a)
    ensures Run(dev, start, a + b) == a + Run(dev, start + |a|, b)
    decreases |a|
  {
    if a == [] {
      assert a + b == b;
    } else {
      assert (a + b)[0] == a[0];
      assert (a + b)[1..] == a[1..] + b;
      AllAcceptedCons(dev, start, a);
      assert Run(dev, start, a + b) == [a[0]] + Run(dev, start + 1, a[1..] + b);
      RunAppendAccepted(dev, start + 1, a[1..], b);
      assert [a[0]] + (a[1..] + Run(dev, start + |a|, b)) == a + Run(dev, start + |a|, b);
    }
  }

  lemma {:induction false} RunAppendRejected(dev: Device, start: nat, a: seq<Command>, b: seq<Command>)
    requires !AllAccepted(dev, start, a)
    ensures Run(dev, start, a + b) == Run(dev, start, a)
    decreases |a|
  {
    assert a != [];
    assert (a + b)[0] == a[0];
    assert (a + b)[1..] == a[1..] + b;
    AllAcceptedCons(dev, start, a);
    if dev.accepts(start, a[0]) {
      assert Run(dev, start, a + b) == [a[0]] + Run(dev, start + 1, a[1..] + b);
      RunAppendRejected(dev, start + 1, a[1..], b);
    }
  }

  /** All of a non-empty plan is accepted iff its head and all of its tail are. */
  lemma AllAcceptedCons(dev: Device, start: nat, a: seq<Command>)
    requires |a| > 0
    ensures AllAccepted(dev, start, a) <==> dev.accepts(start, a[0]) && AllAccepted(dev, start + 1, a[1..])
  {
    if dev.accepts(start, a[0]) && AllAccepted(dev, start + 1, a[1..]) {
      forall i | 0 <= i < |a| ensures dev.accepts(start + i, a[i]) {
        if i > 0 {
          assert a[i] == a[1..][i - 1];
        }
      }
    }
    if AllAccepted(dev, start, a) {
      forall i | 0 <= i < |a| - 1 ensures dev.accepts(start + 1 + i, a[1..][i]) {
        assert dev.accepts(start + (i + 1), a[i + 1]);
      }
    }
  }

  /** All of `a + b` is accepted iff all of `a` is and then all of `b` is. */
  lemma AllAcceptedAppend(dev: Device, start: nat, a: seq<Command>, b: seq<Command>)
    ensures AllAccepted(dev, start, a + b) <==> AllAccepted(dev, start, a) && AllAccepted(dev, start + |a|, b)
  {
    if AllAccepted(dev, start, a + b) {
      forall i | 0 <= i < |a| ensures dev.accepts(start + i, a[i]) {
        assert (a + b)[i] == a[i];
      }
      forall i | 0 <= i < |b| ensures dev.accepts(start + |a| + i, b[i]) {
        assert (a + b)[|a| + i] == b[i];
      }
    }
  }

  /** A plan is fully carried out iff every call that was actually issued
      succeeded: the walk reports success exactly when no issued call failed. */
  lemma {:induction false} AcceptedIffIssuedAccepted(dev: Device, start: nat, plan: seq<Command>)
    ensures AllAccepted(dev, start, plan) <==> AllAccepted(dev, start, Run(dev, start, plan))
    ensures AllAccepted(dev, start, plan) ==> Run(dev, start, plan) == plan
  {
    var issued := Run(dev, start, plan);
    RunShape(dev, start, plan);
    if |issued| < |plan| {
      var k := |issued| - 1;
      assert plan[k] == issued[k];
    }
  }

  /** A plan is fully accepted exactly when the walk issues all of it and
      the device accepts its last call. */
  lemma CompleteRun(dev: Device, start: nat, plan: seq<Command>)
    ensures AllAccepted(dev, start, plan) <==>
              |Run(dev, start, plan)| == |plan| && (plan == [] || dev.accepts(start + |plan| - 1, plan[|plan| - 1]))
  {
    RunShape(dev, start, plan);
    AcceptedIffIssuedAccepted(dev, start, plan);
    var r := Run(dev, start, plan);
    if |r| == |plan| && plan != [] && dev.accepts(start + |plan| - 1, plan[|plan| - 1]) {
      assert r == plan;
      forall i | 0 <= i < |plan|
        ensures dev.accepts(start + i, plan[i])
      {
        if i < |plan| - 1 {
          assert plan[i] == r[i];
        }
      }
    }
  }

  /** If a walk issued the call at position `j`, every call issued before it
      was accepted by the device. */
  lemma IssuedOnlyAfterAccepted(dev: Device, start: nat, plan: seq<Command>, j: nat)
    requires j < |Run(dev, start, plan)|
    ensures forall i | 0 <= i < j :: dev.accepts(start + i, Run(dev, start, plan)[i])
  {
    RunShape(dev, start, plan);
  }

  /** The calls of `s` that belong to stage `st`, in order. */
  function CallsAt(s: seq<Command>, st: Stage): (r: seq<Command>)
    ensures |r| <= |s|
  {
    if s == [] then []
    else (if StageOf(s[0]) == st then [s[0]] else []) + CallsAt(s[1..], st)
  }

  lemma {:induction false} CallsAtAppend(a: seq<Command>, b: seq<Command>, st: Stage)
    ensures CallsAt(a + b, st) == CallsAt(a, st) + CallsAt(b, st)
    decreases |a|
  {
    if a == [] {
      assert a + b == b;
    } else {
      var head := if StageOf(a[0]) == st then [a[0]] else [];
      assert CallsAt(a, st) == head + CallsAt(a[1..], st);
      assert CallsAt(a + b, st) == head + CallsAt(a[1..] + b, st) by {
        assert (a + b)[0] == a[0] && (a + b)[1..] == a[1..] + b;
      }
      CallsAtAppend(a[1..], b, st);
      AppendAssoc(head, CallsAt(a[1..], st), CallsAt(b, st));
    }
  }

  /** The calls of one stage are exactly the calls of the sequence that
      belong to that stage. */
  lemma {:induction false} CallsAtMembers(s: seq<Command>, st: Stage)
    ensures forall c :: c in CallsAt(s, st) <==> c in s && StageOf(c) == st
    decreases |s|
  {
    if s != [] {
      CallsAtMembers(s[1..], st);
      assert forall c :: c in s <==> c == s[0] || c in s[1..];
    }
  }

  /** A prefix of calls in stage order is in stage order. */
  lemma PrefixInStageOrder(s: seq<Command>, t: seq<Command>)
    requires t <= s && InStageOrder(s)
    ensures InStageOrder(t)
  {
    forall i, j | 0 <= i < j < |t| ensures RankOf(t[i]) <= RankOf(t[j]) {
      assert t[i] == s[i] && t[j] == s[j];
    }
  }

  /** A call that only ends the plan is issued only when the walk reached the
      end of the plan with every call before it accepted. */
  lemma LastOnlyGate(dev: Device, start: nat, plan: seq<Command>, e: Command)
    requires |plan| > 0 && plan[|plan| - 1] == e
    requires forall i | 0 <= i < |plan| - 1 :: plan[i] != e
    ensures e in Run(dev, start, plan) ==>
              Run(dev, start, plan) == plan && forall i | 0 <= i < |plan| - 1 :: dev.accepts(start + i, plan[i])
  {
    var issued := Run(dev, start, plan);
    RunShape(dev, start, plan);
    if e in issued {
      var j :| 0 <= j < |issued| && issued[j] == e;
      assert plan[j] == e;
      assert j == |plan| - 1;
      assert issued == plan[..|issued|];
    }
  }

  /** If the walk issued a call of a later stage than `earlier`, and
      `earlier` is in an ordered plan, then `earlier` was issued before it and
      accepted. */
  lemma EarlierStageAccepted(dev: Device, start: nat, plan: seq<Command>, j: nat, earlier: Command)
    requires InStageOrder(plan) && earlier in plan
    requires j < |Run(dev, start, plan)| && RankOf(earlier) < RankOf(Run(dev, start, plan)[j])
    ensures exists i | 0 <= i < j :: Run(dev, start, plan)[i] == earlier && dev.accepts(start + i, earlier)
  {
    var issued := Run(dev, start, plan);
    RunShape(dev, start, plan);
    var i :| 0 <= i < |plan| && plan[i] == earlier;
    assert issued[j] == plan[j];
    assert issued[i] == earlier;
  }

  /** Once the calls of a stage are known, a call of that stage is in the
      sequence iff it is among them. */
  lemma MemberOfStage(s: seq<Command>, c: Command, expected: seq<Command>)
    requires CallsAt(s, StageOf(c)) == expected
    ensures c in s <==> c in expected
  {
    CallsAtMembers(s, StageOf(c));
  }

  /** A call the walk issued belongs to the calls its stage has in the
      plan. */
  lemma IssuedOfStage(dev: Device, start: nat, plan: seq<Command>, j: nat, st: Stage, expected: seq<Command>)
    requires j < |Run(dev, start, plan)| && StageOf(Run(dev, start, plan)[j]) == st
    requires CallsAt(plan, st) == expected
    ensures Run(dev, start, plan)[j] in expected
  {
    RunShape(dev, start, plan);
    var c := Run(dev, start, plan)[j];
    assert c == plan[j];
    MemberOfStage(plan, c, expected);
  }

  /** In a plan kept in stage order, a planned call of an earlier stage than
      the `j`-th issued call was issued before it and accepted. */
  lemma AcceptedBefore(dev: Device, start: nat, plan: seq<Command>, j: nat, earlier: Command,
                       expected: seq<Command>, later: Stage)
    requires InStageOrder(plan)
    requires CallsAt(plan, StageOf(earlier)) == expected && earlier in expected
    requires j < |Run(dev, start, plan)| && StageOf(Run(dev, start, plan)[j]) == later
    requires RankOf(earlier) < Rank(later)
    ensures exists i | 0 <= i < j :: Run(dev, start, plan)[i] == earlier && dev.accepts(start + i, earlier)
  {
    MemberOfStage(plan, earlier, expected);
    EarlierStageAccepted(dev, start, plan, j, earlier);
  }

  /** Some call of `s` belongs to stage `st`. */
  ghost predicate Issues(s: seq<Command>, st: Stage)
  {
    exists c | c in s :: StageOf(c) == st
  }

  /** Once the calls of a stage are known, the stage is present iff it has
      any. */
  lemma StagePresence(s: seq<Command>, st: Stage, expected: seq<Command>)
    requires CallsAt(s, st) == expected
    ensures Issues(s, st) <==> expected != []
  {
    CallsAtMembers(s, st);
    if expected != [] {
      assert expected[0] in expected;
    }
  }

  /** A call occurs in the calls of its stage as often as in the sequence. */
  lemma {:induction false} CallsAtCount(s: seq<Command>, c: Command)
    ensures multiset(CallsAt(s, StageOf(c)))[c] == multiset(s)[c]
    decreases |s|
  {
    if s != [] {
      CallsAtCount(s[1..], c);
      assert s == [s[0]] + s[1..];
    }
  }

  /** A log that recorded the walk of `done`, all accepted, and then the
      walk of `phase` records the walk of `done + phase`, which is accepted
      exactly when `phase` is. */
  lemma Extend(dev: Device, log: seq<Command>, done: seq<Command>, phase: seq<Command>,
               mid: seq<Command>, calls: seq<Command>)
    requires AllAccepted(dev, |log|, done)
    requires mid == log + Run(dev, |log|, done)
    requires calls == mid + Run(dev, |mid|, phase)
    ensures calls == log + Run(dev, |log|, done + phase)
    ensures AllAccepted(dev, |mid|, phase) <==> AllAccepted(dev, |log|, done + phase)
  {
    var tail := Run(dev, |mid|, phase);
    assert mid == log + done && |mid| == |log| + |done| by {
      AcceptedIffIssuedAccepted(dev, |log|, done);
    }
    assert Run(dev, |log|, done + phase) == done + tail by {
      RunAppend(dev, |log|, done, phase);
    }
    assert AllAccepted(dev, |log|, done + phase) <==> AllAccepted(dev, |mid|, phase) by {
      AllAcceptedAppend(dev, |log|, done, phase);
    }
    AppendAssoc(log, done, tail);
  }

  /** Once a prefix of the plan fails, the walk of the whole plan is the
      walk of that prefix, and the plan fails. */
  lemma Truncated(dev: Device, start: nat, done: seq<Command>, rest: seq<Command>, plan: seq<Command>)
    requires plan == done + rest
    requires !AllAccepted(dev, start, done)
    ensures Run(dev, start, plan) == Run(dev, start, done)
    ensures !AllAccepted(dev, start, plan)
  {
    RunAppend(dev, start, done, rest);
    AllAcceptedAppend(dev, start, done, rest);
  }

  /** Walking `first` and then, only if all of it was accepted, `second`
      walks `first + second`. */
  lemma Sequenced(dev: Device, log: seq<Command>, first: seq<Command>, second: seq<Command>,
                  mid: seq<Command>, calls: seq<Command>, firstOk: bool, ok: bool)
    requires mid == log + Run(dev, |log|, first)
    requires firstOk == AllAccepted(dev, |log|, first)
    requires firstOk ==> calls == mid + Run(dev, |mid|, second) && ok == AllAccepted(dev, |mid|, second)
    requires !firstOk ==> calls == mid && !ok
    ensures calls == log + Run(dev, |log|, first + second)
    ensures ok == AllAccepted(dev, |log|, first + second)
  {
    if firstOk {
      Extend(dev, log, first, second, mid, calls);
    } else {
      Truncated(dev, |log|, first, second, first + second);
    }
  }

  /** One more call of `plan` walked after the accepted prefix `plan[..i]`:
      the log records `plan[..i + 1]`, or, when the call was rejected, the
      walk of the whole plan. */
  lemma WalkStep(dev: Device, log: seq<Command>, plan: seq<Command>, i: nat, mid: seq<Command>,
                 calls: seq<Command>, ok: bool)
    requires i < |plan|
    requires AllAccepted(dev, |log|, plan[..i])
    requires mid == log + Run(dev, |log|, plan[..i])
    requires calls == mid + Run(dev, |mid|, [plan[i]])
    requires ok == AllAccepted(dev, |mid|, [plan[i]])
    ensures ok ==> calls == log + Run(dev, |log|, plan[..i + 1]) && AllAccepted(dev, |log|, plan[..i + 1])
    ensures !ok ==> calls == log + Run(dev, |log|, plan) && !AllAccepted(dev, |log|, plan)
  {
    var next := plan[..i + 1];
    SliceParts(plan, i);
    assert calls == log + Run(dev, |log|, next) && (ok <==> AllAccepted(dev, |log|, next)) by {
      Extend(dev, log, plan[..i], [plan[i]], mid, calls);
    }
    if !ok {
      Truncated(dev, |log|, next, plan[i + 1..], plan);
    }
  }

  /** A single call is issued whatever the answer, and accepted iff the
      device accepts it. */
  lemma RunSingle(dev: Device, start: nat, c: Command)
    ensures Run(dev, start, [c]) == [c]
    ensures AllAccepted(dev, start, [c]) <==> dev.accepts(start, c)
  {
    assert AllAccepted(dev, start, [c]) <==> dev.accepts(start + 0, [c][0]);
  }

  lemma SliceParts(s: seq<Command>, i: nat)
    requires i < |s|
    ensures s[..i + 1] == s[..i] + [s[i]]
    ensures s == s[..i + 1] + s[i + 1..]
  {
  }

  lemma AppendAssoc(a: seq<Command>, b: seq<Command>, c: seq<Command>)
    ensures (a + b) + c == a + (b + c)
  {
  }
}
