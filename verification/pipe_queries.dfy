/**
  The read-only questions a pipe answers about itself: which single side is
  open, whether any wire is installed, and the redstone it emits. Each is a
  loop in the same order as the Java, specified against a declarative
  reference.
 */
module PipeQueries {

  import opened Options
  import opened Directions
  import opened Pipe

  /**
    `getOpenOrientation`: when exactly one side of `p` is connected to a
    pipe (`container.isPipeConnected`), the side opposite to it; otherwise
    `UNKNOWN`, here `None`.
   */
  method GetOpenOrientation(p: Segment) returns (r: Option<Direction>)
    ensures r.Some? <==> |p.pipeConnected| == 1
    ensures r.Some? ==> p.pipeConnected == {Opposite(r.value)}
  {
    var connected := p.pipeConnected;
    var count := 0;
    var target: Option<Direction> := None;
    ghost var seen: set<Direction> := {};
    for i := 0 to |ValidDirections|
      invariant seen <= connected && count == |seen|
      invariant forall d :: d in seen ==> Ordinal(d) < i
      invariant forall d :: d in connected && Ordinal(d) < i ==> d in seen
      invariant count == 0 <==> target.None?
      invariant count == 1 ==> seen == {target.value}
    {
      var o := ValidDirections[i];
      if o in connected {
        assert o !in seen;
        seen := seen + {o};
        count := count + 1;
        if count == 1 {
          target := Some(o);
        }
      }
    }
    assert connected == seen;
    if count > 1 || count == 0 {
      return None;
    }
    OppositeIsInvolution(target.value);
    return Some(Opposite(target.value));
  }

  /** `isWired()`: some colour of wire is installed. */
  method IsWired(p: Segment) returns (r: bool)
    ensures r <==> exists c :: Wired(p, c)
  {
    for i := 0 to |Wires|
      invariant forall j :: 0 <= j < i ==> !Wired(p, Wires[j])
    {
      if Wired(p, Wires[i]) {
        return true;
      }
    }
    forall c ensures !Wired(p, c) {
      assert Wires[WireOrdinal(c)] == c;
    }
    return false;
  }

  /** `canConnectRedstone`: some side carries a gate. */
  method CanConnectRedstone(p: Segment) returns (r: bool)
    ensures r <==> exists i :: 0 <= i < |p.gates| && p.gates[i].Some?
  {
    for i := 0 to |p.gates|
      invariant forall j :: 0 <= j < i ==> p.gates[j].None?
    {
      if p.gates[i].Some? {
        return true;
      }
    }
    return false;
  }

  /** `m` is the largest redstone output of the gates, or 0 when no gate
      emits a positive one. */
  predicate IsMaxOutput(gates: GateSlots, m: int)
  {
    && m >= 0
    && (forall i :: 0 <= i < |gates| && gates[i].Some? ==> gates[i].value.redstoneOutput <= m)
    && (m == 0 || exists i :: 0 <= i < |gates| && gates[i].Some? && gates[i].value.redstoneOutput == m)
  }

  /** The maximum output is well defined: at most one value qualifies. */
  lemma MaxOutputUnique(gates: GateSlots, a: int, b: int)
    requires IsMaxOutput(gates, a) && IsMaxOutput(gates, b)
    ensures a == b
  {
    if a != 0 {
      var i :| 0 <= i < |gates| && gates[i].Some? && gates[i].value.redstoneOutput == a;
      assert a <= b;
    }
    if b != 0 {
      var i :| 0 <= i < |gates| && gates[i].Some? && gates[i].value.redstoneOutput == b;
      assert b <= a;
    }
  }

  /** `getMaxRedstoneOutput`: the gates are visited in side order, starting
      from 0, and only a strictly larger output replaces the maximum. */
  method GetMaxRedstoneOutput(p: Segment) returns (max: int)
    ensures IsMaxOutput(p.gates, max)
  {
    max := 0;
    for i := 0 to |ValidDirections|
      invariant max >= 0
      invariant forall j :: 0 <= j < i && p.gates[j].Some? ==> p.gates[j].value.redstoneOutput <= max
      invariant max == 0 || exists j :: 0 <= j < i && p.gates[j].Some? && p.gates[j].value.redstoneOutput == max
    {
      var gate := p.gates[Ordinal(ValidDirections[i])];
      if gate.Some? && gate.value.redstoneOutput > max {
        max := gate.value.redstoneOutput;
      }
    }
  }

  /**
    `isPoweringTo`: no redstone towards a side whose opposite neighbour is a
    connected pipe; otherwise the maximum gate output.
   */
  method IsPoweringTo(net: Network, id: NodeId, side: Direction) returns (r: int)
    requires id in net.pipes
    ensures var o := Opposite(side);
      if PipeAt(net, id, o).Some? && o in net.pipes[id].pipeConnected then r == 0
      else IsMaxOutput(net.pipes[id].gates, r)
  {
    var o := Opposite(side);
    if PipeAt(net, id, o).Some? && o in net.pipes[id].pipeConnected {
      return 0;
    }
    r := GetMaxRedstoneOutput(net.pipes[id]);
  }

}
