/** One axis: the controller session of a single motor. It remembers whether
    the node handle was obtained and every vendor call issued on this axis,
    in order. */
module Axis {
  import opened EposConfig
  import opened Vendor
  import opened Sequencer

  class Epos {
    /** The configuration entry this axis was built from. */
    const config: AxisConfig
    /** The controller answering the calls of this axis. */
    const device: Device
    /** The node handle was obtained, so the handle is not null. */
    var handleOpen: bool
    /** Every vendor call issued on this axis so far, oldest first. */
    var calls: seq<Command>

    constructor(config: AxisConfig, device: Device)
      ensures this.config == config && this.device == device
      ensures !handleOpen && calls == []
    {
      this.config := config;
      this.device := device;
      handleOpen := false;
      calls := [];
    }

    /** Issues one vendor call and reports whether the device accepted it. */
    method Issue(c: Command) returns (ok: bool)
      modifies this
      ensures calls == old(calls) + [c]
      ensures ok == device.accepts(|old(calls)|, c)
      // The same step as a walk of a one-call plan, the form in which the
      // callers' logs are stated.
      ensures calls == old(calls) + Run(device, |old(calls)|, [c])
      ensures ok == AllAccepted(device, |old(calls)|, [c])
      ensures handleOpen == old(handleOpen)
    {
      ok := device.accepts(|calls|, c);
      calls := calls + [c];
      RunSingle(device, |old(calls)|, c);
    }

    /** Issues the calls of `cs` in order, stopping right after the first one
        the device rejects. */
    method IssueAll(cs: seq<Command>) returns (ok: bool)
      modifies this
      ensures calls == old(calls) + Run(device, |old(calls)|, cs)
      ensures ok == AllAccepted(device, |old(calls)|, cs)
      ensures handleOpen == old(handleOpen)
    {
      ok := true;
      var i := 0;
      assert calls == old(calls) + Run(device, |old(calls)|, cs[..0]);
      while i < |cs|
        invariant 0 <= i <= |cs|
        invariant calls == old(calls) + Run(device, |old(calls)|, cs[..i])
        invariant AllAccepted(device, |old(calls)|, cs[..i])
        invariant handleOpen == old(handleOpen)
      {
        ghost var mid := calls;
        ok := Issue(cs[i]);
        WalkStep(device, old(calls), cs, i, mid, calls, ok);
        if !ok {
          return;
        }
        i := i + 1;
      }
      assert cs[..i] == cs;
    }

    /** Queries the pending fault count, then the code of each pending
        fault, stopping at the first rejected call. */
    method ReportFaults() returns (ok: bool)
      modifies this
      ensures calls == old(calls) + Run(device, |old(calls)|, FaultQueryCalls(device.faultCount))
      ensures ok == AllAccepted(device, |old(calls)|, FaultQueryCalls(device.faultCount))
      ensures handleOpen == old(handleOpen)
    {
      ghost var log := calls;
      ok := Issue(GetNbOfDeviceError);
      ghost var mid, counted := calls, ok;
      if ok {
        var numErrors := device.faultCount;
        ok := QueryFaultCodes(numErrors);
      }
      Sequenced(device, log, [GetNbOfDeviceError], FaultCodeQueries(device.faultCount), mid, calls, counted, ok);
    }

    /** Queries the code of each fault by index, from 1 up to `numErrors`,
        stopping at the first rejected call. */
    method QueryFaultCodes(numErrors: uint8) returns (ok: bool)
      modifies this
      ensures calls == old(calls) + Run(device, |old(calls)|, FaultCodeQueries(numErrors))
      ensures ok == AllAccepted(device, |old(calls)|, FaultCodeQueries(numErrors))
      ensures handleOpen == old(handleOpen)
    {
      ghost var codes := FaultCodeQueries(numErrors);
      ok := true;
      var i := 1;
      assert calls == old(calls) + Run(device, |old(calls)|, codes[..0]);
      while i <= numErrors
        invariant 1 <= i <= numErrors + 1
        invariant calls == old(calls) + Run(device, |old(calls)|, codes[..i - 1])
        invariant AllAccepted(device, |old(calls)|, codes[..i - 1])
        invariant handleOpen == old(handleOpen)
      {
        ghost var mid := calls;
        assert codes[i - 1] == GetDeviceErrorCode(i);
        ok := Issue(GetDeviceErrorCode(i));
        WalkStep(device, old(calls), codes, i - 1, mid, calls, ok);
        if !ok {
          return;
        }
        i := i + 1;
      }
      assert codes[..i - 1] == codes;
    }

    /** Clears the pending faults when the configuration asks for it, then
        enables the drive, stopping at the first rejected call. */
    method ClearAndEnable() returns (ok: bool)
      modifies this
      ensures calls == old(calls) + Run(device, |old(calls)|, FinaleCalls(config))
      ensures ok == AllAccepted(device, |old(calls)|, FinaleCalls(config))
      ensures handleOpen == old(handleOpen)
    {
      if config.clearFaults == Some(true) {
        ghost var log := calls;
        ok := Issue(ClearFault);
        ghost var mid, cleared := calls, ok;
        if ok {
          ok := Issue(SetEnableState);
        }
        Sequenced(device, log, [ClearFault], [SetEnableState], mid, calls, cleared, ok);
      } else {
        ok := Issue(SetEnableState);
      }
    }

    /** Reports the pending faults, then clears them if configured and
        enables the drive. */
    method Conclude() returns (ok: bool)
      modifies this
      ensures calls == old(calls) + Run(device, |old(calls)|, ClosingCalls(config, device.faultCount))
      ensures ok == AllAccepted(device, |old(calls)|, ClosingCalls(config, device.faultCount))
      ensures handleOpen == old(handleOpen)
    {
      ghost var log := calls;
      ok := ReportFaults();
      ghost var mid, reported := calls, ok;
      if ok {
        ok := ClearAndEnable();
      }
      Sequenced(device, log, FaultQueryCalls(device.faultCount), FinaleCalls(config), mid, calls, reported, ok);
    }

    /** Programs the parameters, then reports the faults and enables the
        drive. */
    method Configure() returns (ok: bool)
      modifies this
      ensures calls == old(calls) + Run(device, |old(calls)|, SetupCalls(config, device.faultCount))
      ensures ok == AllAccepted(device, |old(calls)|, SetupCalls(config, device.faultCount))
      ensures handleOpen == old(handleOpen)
    {
      ghost var log := calls;
      ok := IssueAll(ParameterCalls(config, device.faultCount));
      ghost var mid, programmed := calls, ok;
      if ok {
        ok := Conclude();
      }
      Sequenced(device, log, ParameterCalls(config, device.faultCount), ClosingCalls(config, device.faultCount),
                mid, calls, programmed, ok);
    }

    /** Opens the node handle, programs the parameters, reports the pending
        faults, clears them if configured, and enables the drive; the first
        rejected call ends initialization with `false`. */
    method Init() returns (ok: bool)
      modifies this
      ensures calls == old(calls) + Run(device, |old(calls)|, Plan(config, device.faultCount))
      ensures ok == AllAccepted(device, |old(calls)|, Plan(config, device.faultCount))
      ensures handleOpen == device.accepts(|old(calls)|, OpenCall(config.serialNumber))
    {
      ghost var log := calls;
      ok := Issue(OpenCall(config.serialNumber));
      handleOpen := ok;
      ghost var mid, reached := calls, ok;
      if ok {
        ok := Configure();
      }
      Sequenced(device, log, [OpenCall(config.serialNumber)], SetupCalls(config, device.faultCount),
                mid, calls, reached, ok);
      PlanSplit(config, device.faultCount);
    }

    /** Fetches position, velocity and current once, discarding the values
        and the outcomes; an axis without a node handle issues nothing. */
    method Read()
      modifies this
      ensures calls == old(calls) + (if handleOpen then TelemetryQueries else [])
      ensures handleOpen == old(handleOpen)
    {
      if handleOpen {
        var _ := Issue(GetPositionIs);
        var _ := Issue(GetVelocityIs);
        var _ := Issue(GetCurrentIs);
      }
    }

    /** `Read` as the source has it: the queries go to the node handle
        whether or not one was obtained, so the handle must exist. */
    method ReadAsWritten()
      requires handleOpen
      modifies this
      ensures calls == old(calls) + TelemetryQueries
      ensures handleOpen
    {
      var _ := Issue(GetPositionIs);
      var _ := Issue(GetVelocityIs);
      var _ := Issue(GetCurrentIs);
    }

    /** Sends the fixed velocity set-point once, discarding the outcome; an
        axis without a node handle issues nothing. */
    method Write()
      modifies this
      ensures calls == old(calls) + (if handleOpen then [SetPoint] else [])
      ensures handleOpen == old(handleOpen)
    {
      if handleOpen {
        var _ := Issue(SetPoint);
      }
    }

    /** `Write` as the source has it: it needs the node handle. */
    method WriteAsWritten()
      requires handleOpen
      modifies this
      ensures calls == old(calls) + [SetPoint]
      ensures handleOpen
    {
      var _ := Issue(SetPoint);
    }

    /** Tears the axis down, disabling the drive once, whatever state it was
        in; an axis without a node handle issues nothing. */
    method Release()
      modifies this
      ensures calls == old(calls) + (if handleOpen then [SetDisableState] else [])
      ensures handleOpen == old(handleOpen)
    {
      if handleOpen {
        var _ := Issue(SetDisableState);
      }
    }

    /** `Release` as the source has it: it needs the node handle. */
    method ReleaseAsWritten()
      requires handleOpen
      modifies this
      ensures calls == old(calls) + [SetDisableState]
      ensures handleOpen
    {
      var _ := Issue(SetDisableState);
    }
  }

  /** The telemetry one read cycle fetches, in order. */
  const TelemetryQueries: seq<Command> := [GetPositionIs, GetVelocityIs, GetCurrentIs]

  /** The set-point every write cycle sends, whatever the operation mode. */
  const SetPoint: Command := MoveWithVelocity(100)

  /** Read, write and release issue only calls that initialization never
      issues. */
  lemma CycleCallsOutsidePlan(cfg: AxisConfig, faults: uint8)
    ensures forall c | c in TelemetryQueries + [SetPoint, SetDisableState] :: c !in Plan(cfg, faults)
  {
    forall c | c in TelemetryQueries + [SetPoint, SetDisableState]
      ensures c !in Plan(cfg, faults)
    {
      CyclicOutsidePlan(cfg, faults, c);
    }
  }
}
