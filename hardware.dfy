/** The fleet: one axis per configured motor, initialized, read and written
    in the order the configuration lists them. */
module Hardware {
  import opened EposConfig
  import opened Vendor
  import opened Sequencer
  import opened Axis

  /** The calls `cs` of one axis, each tagged with that axis's index. */
  function Tagged(axis: nat, cs: seq<Command>): seq<(nat, Command)>
  {
    seq(|cs|, k requires 0 <= k < |cs| => (axis, cs[k]))
  }

  /** One pass over the fleet as a single trace: every call of axis 0, then
      every call of axis 1, and so on; `parts[i]` holds the calls of axis `i`. */
  function Sweep(parts: seq<seq<Command>>): seq<(nat, Command)>
    decreases |parts|
  {
    if parts == [] then [] else Sweep(parts[..|parts| - 1]) + Tagged(|parts| - 1, parts[|parts| - 1])
  }

  /** The calls of a trace that axis `axis` issued, in order. */
  function CallsOfAxis(trace: seq<(nat, Command)>, axis: nat): seq<Command>
    decreases |trace|
  {
    if trace == [] then []
    else (if trace[0].0 == axis then [trace[0].1] else []) + CallsOfAxis(trace[1..], axis)
  }

  /** `n` axes that each issue `cs`. */
  function Repeat(n: nat, cs: seq<Command>): seq<seq<Command>>
  {
    seq(n, i requires 0 <= i < n => cs)
  }

  lemma RepeatSnoc(n: nat, cs: seq<Command>)
    ensures Sweep(Repeat(n + 1, cs)) == Sweep(Repeat(n, cs)) + Tagged(n, cs)
  {
    assert Repeat(n + 1, cs)[..n] == Repeat(n, cs);
  }

  lemma SweepSnoc(parts: seq<seq<Command>>, cs: seq<Command>)
    ensures Sweep(parts + [cs]) == Sweep(parts) + Tagged(|parts|, cs)
  {
    assert (parts + [cs])[..|parts|] == parts;
  }

  /** A pass visits the axes in increasing index order and only axes of the
      fleet. */
  lemma {:induction false} SweepInOrder(parts: seq<seq<Command>>)
    ensures forall p | 0 <= p < |Sweep(parts)| :: Sweep(parts)[p].0 < |parts|
    ensures forall p, q | 0 <= p < q < |Sweep(parts)| :: Sweep(parts)[p].0 <= Sweep(parts)[q].0
    decreases |parts|
  {
    if parts != [] {
      var front := parts[..|parts| - 1];
      SweepInOrder(front);
      var s: seq<(nat, Command)> := Sweep(front);
      var t: seq<(nat, Command)> := Tagged(|parts| - 1, parts[|parts| - 1]);
      var all: seq<(nat, Command)> := s + t;
      assert Sweep(parts) == all;
      forall p | 0 <= p < |all|
        ensures all[p].0 < |parts|
      {
        if p < |s| {
          assert all[p] == s[p];
        } else {
          assert all[p] == t[p - |s|];
        }
      }
      forall p, q | 0 <= p < q < |all|
        ensures all[p].0 <= all[q].0
      {
        if q < |s| {
          assert all[p] == s[p] && all[q] == s[q];
        } else if p < |s| {
          assert all[p] == s[p] && all[q] == t[q - |s|];
        } else {
          assert all[p] == t[p - |s|] && all[q] == t[q - |s|];
        }
      }
    }
  }

  lemma {:induction false} CallsOfAxisAppend(a: seq<(nat, Command)>, b: seq<(nat, Command)>, axis: nat)
    ensures CallsOfAxis(a + b, axis) == CallsOfAxis(a, axis) + CallsOfAxis(b, axis)
    decreases |a|
  {
    if a != [] {
      assert (a + b)[1..] == a[1..] + b;
      CallsOfAxisAppend(a[1..], b, axis);
    } else {
      assert a + b == b;
    }
  }

  lemma {:induction false} CallsOfTagged(i: nat, cs: seq<Command>, axis: nat)
    ensures CallsOfAxis(Tagged(i, cs), axis) == if i == axis then cs else []
    decreases |cs|
  {
    if cs != [] {
      var t := Tagged(i, cs);
      assert t[0] == (i, cs[0]);
      assert t[1..] == Tagged(i, cs[1..]) by {
        forall k | 0 <= k < |cs| - 1
          ensures t[1..][k] == Tagged(i, cs[1..])[k]
        {
        }
      }
      CallsOfTagged(i, cs[1..], axis);
      assert cs == [cs[0]] + cs[1..];
    }
  }

  /** In a pass, the calls of each axis are exactly that axis's part, and an
      index outside the fleet issued nothing. */
  lemma {:induction false} SweepPerAxis(parts: seq<seq<Command>>, axis: nat)
    ensures CallsOfAxis(Sweep(parts), axis) == if axis < |parts| then parts[axis] else []
    decreases |parts|
  {
    if parts != [] {
      var front := parts[..|parts| - 1];
      SweepPerAxis(front, axis);
      CallsOfAxisAppend(Sweep(front), Tagged(|parts| - 1, parts[|parts| - 1]), axis);
      CallsOfTagged(|parts| - 1, parts[|parts| - 1], axis);
    }
  }

  class EposHardware {
    /** The axes, in configuration order. */
    const motors: seq<Epos>
    /** Every call the fleet's read and write cycles issued, oldest first,
        tagged with the index of the axis that issued it. */
    ghost var trace: seq<(nat, Command)>

    /** No axis appears twice, so work on one leaves the others alone. */
    ghost predicate Valid()
    {
      forall i, j | 0 <= i < j < |motors| :: motors[i] != motors[j]
    }

    /** Builds one fresh axis per configured motor, each paired with the
        controller that answers it. */
    constructor(axes: seq<(AxisConfig, Device)>)
      ensures Valid()
      ensures |motors| == |axes| && trace == []
      ensures forall i | 0 <= i < |axes| ::
                fresh(motors[i]) && motors[i].config == axes[i].0 && motors[i].device == axes[i].1
                && !motors[i].handleOpen && motors[i].calls == []
    {
      var built: seq<Epos> := [];
      for i := 0 to |axes|
        invariant |built| == i
        invariant forall k | 0 <= k < i ::
                    fresh(built[k]) && built[k].config == axes[k].0 && built[k].device == axes[k].1
                    && !built[k].handleOpen && built[k].calls == []
        invariant forall j, k | 0 <= j < k < i :: built[j] != built[k]
      {
        var motor := new Epos(axes[i].0, axes[i].1);
        built := built + [motor];
      }
      motors := built;
      trace := [];
    }

    /** Initializes every axis once, in order; an axis whose initialization
        fails is reported in `results` and the later axes still run. */
    method Init() returns (results: seq<bool>)
      requires Valid()
      modifies motors
      ensures |results| == |motors|
      ensures forall i | 0 <= i < |motors| ::
                motors[i].calls == old(motors[i].calls) + Run(motors[i].device, |old(motors[i].calls)|,
                                                               Plan(motors[i].config, motors[i].device.faultCount))
                && results[i] == AllAccepted(motors[i].device, |old(motors[i].calls)|,
                                             Plan(motors[i].config, motors[i].device.faultCount))
                && motors[i].handleOpen == motors[i].device.accepts(|old(motors[i].calls)|,
                                                                     OpenCall(motors[i].config.serialNumber))
    {
      results := [];
      for i := 0 to |motors|
        invariant |results| == i
        invariant forall k | 0 <= k < i ::
                    motors[k].calls == old(motors[k].calls) + Run(motors[k].device, |old(motors[k].calls)|,
                                                                   Plan(motors[k].config, motors[k].device.faultCount))
                    && results[k] == AllAccepted(motors[k].device, |old(motors[k].calls)|,
                                                 Plan(motors[k].config, motors[k].device.faultCount))
                    && motors[k].handleOpen == motors[k].device.accepts(|old(motors[k].calls)|,
                                                                         OpenCall(motors[k].config.serialNumber))
        invariant forall k | i <= k < |motors| ::
                    motors[k].calls == old(motors[k].calls) && motors[k].handleOpen == old(motors[k].handleOpen)
      {
        var ok := motors[i].Init();
        results := results + [ok];
      }
    }

    /** One read cycle: every axis, in configuration order. Returns what each axis issued, which the trace
        records axis after axis. */
    method Read() returns (ghost pass: seq<seq<Command>>)
      requires Valid()
      modifies this, motors
      ensures |pass| == |motors|
      ensures forall i | 0 <= i < |motors| ::
                pass[i] == (if motors[i].handleOpen then TelemetryQueries else [])
                && motors[i].calls == old(motors[i].calls) + pass[i]
                && motors[i].handleOpen == old(motors[i].handleOpen)
      ensures trace == old(trace) + Sweep(pass)
    {
      pass := [];
      for i := 0 to |motors|
        invariant |pass| == i
        invariant forall k | 0 <= k < i ::
                    pass[k] == (if motors[k].handleOpen then TelemetryQueries else [])
                    && motors[k].calls == old(motors[k].calls) + pass[k]
                    && motors[k].handleOpen == old(motors[k].handleOpen)
        invariant forall k | i <= k < |motors| ::
                    motors[k].calls == old(motors[k].calls) && motors[k].handleOpen == old(motors[k].handleOpen)
        invariant trace == old(trace) + Sweep(pass)
      {
        assert forall k | 0 <= k < |motors| && k != i :: motors[k] != motors[i];
        motors[i].Read();
        ghost var issued := if motors[i].handleOpen then TelemetryQueries else [];
        SweepSnoc(pass, issued);
        trace := trace + Tagged(i, issued);
        pass := pass + [issued];
      }
    }

    /** One read cycle as the source has it: every axis must hold a node
        handle. */
    method ReadAsWritten()
      requires Valid()
      requires forall i | 0 <= i < |motors| :: motors[i].handleOpen
      modifies this, motors
      ensures forall i | 0 <= i < |motors| ::
                motors[i].calls == old(motors[i].calls) + TelemetryQueries && motors[i].handleOpen
      ensures trace == old(trace) + Sweep(Repeat(|motors|, TelemetryQueries))
    {
      for i := 0 to |motors|
        invariant forall k | 0 <= k < i ::
                    motors[k].calls == old(motors[k].calls) + TelemetryQueries && motors[k].handleOpen
        invariant forall k | i <= k < |motors| ::
                    motors[k].calls == old(motors[k].calls) && motors[k].handleOpen
        invariant trace == old(trace) + Sweep(Repeat(i, TelemetryQueries))
      {
        motors[i].ReadAsWritten();
        RepeatSnoc(i, TelemetryQueries);
        trace := trace + Tagged(i, TelemetryQueries);
      }
    }

    /** One write cycle: every axis, in configuration order. Returns what each axis issued, which the trace
        records axis after axis. */
    method Write() returns (ghost pass: seq<seq<Command>>)
      requires Valid()
      modifies this, motors
      ensures |pass| == |motors|
      ensures forall i | 0 <= i < |motors| ::
                pass[i] == (if motors[i].handleOpen then [SetPoint] else [])
                && motors[i].calls == old(motors[i].calls) + pass[i]
                && motors[i].handleOpen == old(motors[i].handleOpen)
      ensures trace == old(trace) + Sweep(pass)
    {
      pass := [];
      for i := 0 to |motors|
        invariant |pass| == i
        invariant forall k | 0 <= k < i ::
                    pass[k] == (if motors[k].handleOpen then [SetPoint] else [])
                    && motors[k].calls == old(motors[k].calls) + pass[k]
                    && motors[k].handleOpen == old(motors[k].handleOpen)
        invariant forall k | i <= k < |motors| ::
                    motors[k].calls == old(motors[k].calls) && motors[k].handleOpen == old(motors[k].handleOpen)
        invariant trace == old(trace) + Sweep(pass)
      {
        assert forall k | 0 <= k < |motors| && k != i :: motors[k] != motors[i];
        motors[i].Write();
        ghost var issued := if motors[i].handleOpen then [SetPoint] else [];
        SweepSnoc(pass, issued);
        trace := trace + Tagged(i, issued);
        pass := pass + [issued];
      }
    }

    /** One write cycle as the source has it: every axis must hold a node
        handle. */
    method WriteAsWritten()
      requires Valid()
      requires forall i | 0 <= i < |motors| :: motors[i].handleOpen
      modifies this, motors
      ensures forall i | 0 <= i < |motors| ::
                motors[i].calls == old(motors[i].calls) + [SetPoint] && motors[i].handleOpen
      ensures trace == old(trace) + Sweep(Repeat(|motors|, [SetPoint]))
    {
      for i := 0 to |motors|
        invariant forall k | 0 <= k < i :: motors[k].calls == old(motors[k].calls) + [SetPoint] && motors[k].handleOpen
        invariant forall k | i <= k < |motors| :: motors[k].calls == old(motors[k].calls) && motors[k].handleOpen
        invariant trace == old(trace) + Sweep(Repeat(i, [SetPoint]))
      {
        motors[i].WriteAsWritten();
        RepeatSnoc(i, [SetPoint]);
        trace := trace + Tagged(i, [SetPoint]);
      }
    }
  }

  /** A one-axis fleet whose controller refuses the open call: after the
      fleet's initialization, which only reports the failure, the axis holds
      no node handle, so the next read or write cycle as the source has it
      goes through a missing handle. */
  method RefusedOpenLeavesNoHandle(cfg: AxisConfig) returns (fleet: EposHardware, results: seq<bool>)
    ensures |fleet.motors| == 1 && results == [false]
    ensures !fleet.motors[0].handleOpen
    ensures !(forall i | 0 <= i < |fleet.motors| :: fleet.motors[i].handleOpen)
    ensures fleet.motors[0].calls == [OpenCall(cfg.serialNumber)]
  {
    var refusing := Device((n: nat, c: Command) => false, 0);
    fleet := new EposHardware([(cfg, refusing)]);
    results := fleet.Init();
    RefusedHandleStops(cfg, refusing, 0);
  }
}
