/**
  Wire-signal state of pipe segments and the propagation step of `Pipe.java`.

  The world is split in two: a `Network` holds what propagation only reads
  (installed wires, gates, the host's neighbour lookup), and `Signals` maps
  every pipe to what it writes (strengths and the scheduled flag). Every loop
  of the Java code is a recursive function over the same sequence
  (directions, gates or colours) in the same order, with the signal map
  threaded through exactly as the Java code mutates it in place.
 */
module Pipe {

  import opened Options
  import opened Directions

  /** The strength a broadcasting gate drives its colour to. */
  const MaxSignal: int := 255

  type NodeId = int

  /** `signalStrength`, one entry per wire colour. */
  type Strengths = s: seq<int> | |s| == 4 witness [0, 0, 0, 0]

  /** `wireSet` and `broadcastSignal`, one flag per wire colour. */
  type WireFlags = s: seq<bool> | |s| == 4 witness [false, false, false, false]

  /** `gates`, one optional gate per side. */
  type GateSlots = s: seq<Option<Gate>> | |s| == 6 witness [None, None, None, None, None, None]

  /** A gate as far as the pipe sees it: which colours it broadcasts, and the
      redstone output it currently reports (computed by the gate itself). */
  datatype Gate = Gate(broadcastSignal: WireFlags, redstoneOutput: int)

  /**
    The parts of one pipe segment that signal propagation reads but never
    writes. `fullyDefined` stands for `BlockGenericPipe.isFullyDefined`,
    `structureTransport` for `transport instanceof PipeTransportStructure`, and
    `pipeConnected` for the sides on which `container.isPipeConnected` holds.
   */
  datatype Segment = Segment(
    wireSet: WireFlags,
    gates: GateSlots,
    fullyDefined: bool,
    structureTransport: bool,
    pipeConnected: set<Direction>)

  /** The parts of one pipe segment that signal propagation writes:
      `signalStrength` and `internalUpdateScheduled`. */
  datatype Signal = Signal(signalStrength: Strengths, updateScheduled: bool)

  /**
    The part of the host world the propagation reads. `tiles[(n, d)]` is the
    tile entity next to `n` on side `d`; it is a pipe exactly when it is a key
    of `pipes`. `linked` is the relation `Utils.checkPipesConnections`, and
    `hasWorld` says whether `container.getWorldObj()` is non-null.
   */
  datatype Network = Network(
    pipes: map<NodeId, Segment>,
    tiles: map<(NodeId, Direction), NodeId>,
    linked: set<(NodeId, NodeId)>,
    hasWorld: bool)

  /** The signal state of every pipe of a network. */
  type Signals = map<NodeId, Signal>

  /** Every pipe of the network has a signal state, and nothing else has. */
  predicate Valid(net: Network, s: Signals)
  {
    s.Keys == net.pipes.Keys
  }

  function Strength(p: Signal, c: PipeWire): int
  {
    p.signalStrength[WireOrdinal(c)]
  }

  predicate Wired(p: Segment, c: PipeWire)
  {
    p.wireSet[WireOrdinal(c)]
  }

  predicate Broadcasts(g: Option<Gate>, c: PipeWire)
  {
    g.Some? && g.value.broadcastSignal[WireOrdinal(c)]
  }

  /** The pipe tile on side `d` of `id`, if that tile is a pipe
      (`tile instanceof TileGenericPipe`). */
  function PipeAt(net: Network, id: NodeId, d: Direction): (r: Option<NodeId>)
    ensures r.Some? ==> r.value in net.pipes
  {
    if (id, d) in net.tiles && net.tiles[(id, d)] in net.pipes then Some(net.tiles[(id, d)]) else None
  }

  predicate Adjacent(net: Network, id: NodeId, n: NodeId)
  {
    exists d :: PipeAt(net, id, d) == Some(n)
  }

  /** A pipe after it has taken the offer `v` for colour `c`. */
  function Raised(p: Signal, c: PipeWire, v: int): Signal
  {
    Signal(p.signalStrength[WireOrdinal(c) := v], true)
  }

  /**
    `receiveSignal`: the only way a strength is raised. With no world nothing
    happens; otherwise the offer is taken when it is at least the current
    strength and non-zero, which also schedules an internal update.
   */
  function ReceiveSignal(p: Signal, signal: int, c: PipeWire, hasWorld: bool): (r: (Signal, bool))
    ensures r.1 <==> hasWorld && signal >= Strength(p, c) && signal != 0
    ensures r.1 ==> Strength(r.0, c) == signal && r.0.updateScheduled
    ensures !r.1 ==> r.0 == p
    ensures Strength(r.0, c) >= Strength(p, c)
    ensures forall c' :: c' != c ==> Strength(r.0, c') == Strength(p, c')
  {
    if !hasWorld then
      (p, false)
    else if signal >= Strength(p, c) && signal != 0 then
      (Raised(p, c, signal), true)
    else
      (p, false)
  }

  /** `receiveSignal` called on the pipe `id`. */
  function ReceiveAt(net: Network, s: Signals, id: NodeId, signal: int, c: PipeWire): (r: (Signals, bool))
    requires id in s
  {
    var (p, ok) := ReceiveSignal(s[id], signal, c, net.hasWorld);
    (s[id := p], ok)
  }

  /**
    `isWireConnectedTo`: false for a tile that is not a pipe, a pipe that is not
    fully defined, or one without colour `c`; otherwise true when either side
    has a structure transport or the host's connection check passes.
   */
  function IsWireConnectedTo(net: Network, id: NodeId, tile: Option<NodeId>, c: PipeWire): (r: bool)
    requires id in net.pipes
    ensures r ==> tile.Some? && tile.value in net.pipes && net.pipes[tile.value].fullyDefined && Wired(net.pipes[tile.value], c)
    ensures r ==> net.pipes[tile.value].structureTransport || net.pipes[id].structureTransport || (id, tile.value) in net.linked
    ensures tile.Some? && tile.value in net.pipes && net.pipes[tile.value].fullyDefined && Wired(net.pipes[tile.value], c) ==>
      (net.pipes[tile.value].structureTransport || net.pipes[id].structureTransport || (id, tile.value) in net.linked ==> r)
  {
    match tile
    case None => false
    case Some(n) =>
      && n in net.pipes
      && net.pipes[n].fullyDefined
      && Wired(net.pipes[n], c)
      && (net.pipes[n].structureTransport || net.pipes[id].structureTransport || (id, n) in net.linked)
  }

  /** What the neighbour on side `d` offers `id` for colour `c` in
      `readNearbyPipesSignal`: its strength minus one, when it is a fully
      defined, wire-connected pipe. */
  function Offer(net: Network, s: Signals, id: NodeId, c: PipeWire, d: Direction): Option<int>
    requires Valid(net, s) && id in net.pipes
  {
    var t := PipeAt(net, id, d);
    if t.Some? && net.pipes[t.value].fullyDefined && IsWireConnectedTo(net, id, t, c) then
      Some(Strength(s[t.value], c) - 1)
    else
      None
  }

  /** The neighbour on side `d` that `id` transmits colour `c` to, if any. */
  function RelayTarget(net: Network, id: NodeId, c: PipeWire, d: Direction): (r: Option<NodeId>)
    requires id in net.pipes
    ensures r.Some? ==> r == PipeAt(net, id, d) && Wired(net.pipes[r.value], c)
  {
    var t := PipeAt(net, id, d);
    if t.Some? && net.pipes[t.value].fullyDefined && Wired(net.pipes[t.value], c) && IsWireConnectedTo(net, id, t, c) then
      t
    else
      None
  }

  /** The scan loop of `readNearbyPipesSignal`: every offer is handed to
      `receiveSignal` of `id`, and `found` records whether one was taken. */
  function ReadLoop(net: Network, s: Signals, id: NodeId, c: PipeWire, dirs: seq<Direction>, found: bool): (r: (Signals, bool))
    requires Valid(net, s) && id in net.pipes
    ensures r.0.Keys == s.Keys
    ensures forall n :: n in s && n != id ==> r.0[n] == s[n]
    ensures forall c' :: c' != c ==> Strength(r.0[id], c') == Strength(s[id], c')
    ensures found ==> r.1
    ensures !r.1 ==> r.0 == s
    decreases |dirs|
  {
    if dirs == [] then
      (s, found)
    else
      match Offer(net, s, id, c, dirs[0])
      case None => ReadLoop(net, s, id, c, dirs[1..], found)
      case Some(o) =>
        var (s', ok) := ReceiveAt(net, s, id, o, c);
        ReadLoop(net, s', id, c, dirs[1..], found || ok)
  }

  /** The fully defined pipes next to `id` along `dirs`. */
  function DefinedNeighbours(net: Network, id: NodeId, dirs: seq<Direction>): (r: set<NodeId>)
    ensures forall n :: n in r ==> n in net.pipes && net.pipes[n].fullyDefined && Adjacent(net, id, n)
    decreases |dirs|
  {
    if dirs == [] then
      {}
    else
      var t := PipeAt(net, id, dirs[0]);
      var here := if t.Some? && net.pipes[t.value].fullyDefined then {t.value} else {};
      here + DefinedNeighbours(net, id, dirs[1..])
  }

  /** The loop of `readNearbyPipesSignal` that schedules an internal update on
      every fully defined neighbouring pipe once the signal has collapsed. */
  function ScheduleNeighbours(net: Network, s: Signals, id: NodeId, dirs: seq<Direction>): (r: Signals)
    requires Valid(net, s)
    ensures r.Keys == s.Keys
    ensures forall n :: n in s ==> r[n].signalStrength == s[n].signalStrength
    decreases |dirs|
  {
    if dirs == [] then
      s
    else
      var t := PipeAt(net, id, dirs[0]);
      var s' := if t.Some? && net.pipes[t.value].fullyDefined then s[t.value := s[t.value].(updateScheduled := true)] else s;
      ScheduleNeighbours(net, s', id, dirs[1..])
  }

  /**
    `readNearbyPipesSignal`: take the neighbours' offers; when none was taken
    and the strength is non-zero, the strength collapses to 0 and every fully
    defined neighbouring pipe is scheduled for re-evaluation.
   */
  function ReadNearbyPipesSignal(net: Network, s: Signals, id: NodeId, c: PipeWire): (r: Signals)
    requires Valid(net, s) && id in net.pipes
    ensures r.Keys == s.Keys
    ensures forall n, c' :: n in s && c' != c ==> Strength(r[n], c') == Strength(s[n], c')
  {
    ReadNearbyAlong(net, s, id, c, ValidDirections)
  }

  /** `readNearbyPipesSignal` with both of its loops running over `dirs`. */
  function ReadNearbyAlong(net: Network, s: Signals, id: NodeId, c: PipeWire, dirs: seq<Direction>): (r: Signals)
    requires Valid(net, s) && id in net.pipes
    ensures r.Keys == s.Keys
    ensures forall n, c' :: n in s && c' != c ==> Strength(r[n], c') == Strength(s[n], c')
  {
    var read := ReadLoop(net, s, id, c, dirs, false);
    if !read.1 && Strength(read.0[id], c) != 0 then
      ScheduleNeighbours(net, Zeroed(read.0, id, c), id, dirs)
    else
      read.0
  }

  /** `s` with the strength of `c` at `id` dropped to 0. */
  function Zeroed(s: Signals, id: NodeId, c: PipeWire): (r: Signals)
    requires id in s
    ensures r.Keys == s.Keys && Strength(r[id], c) == 0
    ensures forall c' :: c' != c ==> Strength(r[id], c') == Strength(s[id], c')
    ensures forall n :: n in s && n != id ==> r[n] == s[n]
  {
    s[id := s[id].(signalStrength := s[id].signalStrength[WireOrdinal(c) := 0])]
  }

  /** The loop of step 2 of `updateSignalStateForColor`: every relay target
      is offered this pipe's strength minus one. */
  function TransmitLoop(net: Network, s: Signals, id: NodeId, c: PipeWire, dirs: seq<Direction>): (r: Signals)
    requires Valid(net, s) && id in net.pipes
    ensures r.Keys == s.Keys
    ensures forall n :: n in s && !Adjacent(net, id, n) ==> r[n] == s[n]
    ensures forall n, c' :: n in s && c' != c ==> Strength(r[n], c') == Strength(s[n], c')
    decreases |dirs|
  {
    if dirs == [] then
      s
    else
      var s' := match RelayTarget(net, id, c, dirs[0])
        case None => s
        case Some(n) => ReceiveAt(net, s, n, Strength(s[id], c) - 1, c).0;
      TransmitLoop(net, s', id, c, dirs[1..])
  }

  /** Step 2 of `updateSignalStateForColor`: transmission happens only above 1. */
  function TransmitSignal(net: Network, s: Signals, id: NodeId, c: PipeWire): (r: Signals)
    requires Valid(net, s) && id in net.pipes
    ensures r.Keys == s.Keys
    ensures forall n :: n in s && !Adjacent(net, id, n) ==> r[n] == s[n]
    ensures forall n, c' :: n in s && c' != c ==> Strength(r[n], c') == Strength(s[n], c')
    ensures Strength(s[id], c) <= 1 ==> r == s
  {
    if Strength(s[id], c) > 1 then TransmitLoop(net, s, id, c, ValidDirections) else s
  }

  /** The gate loop of step 1: every gate broadcasting `c` offers 255, and
      `read` turns false once one does. */
  function BroadcastLoop(net: Network, s: Signals, id: NodeId, c: PipeWire, gates: seq<Option<Gate>>, read: bool): (r: (Signals, bool))
    requires Valid(net, s) && id in net.pipes
    ensures r.0.Keys == s.Keys
    ensures forall n :: n in s && n != id ==> r.0[n] == s[n]
    ensures forall c' :: c' != c ==> Strength(r.0[id], c') == Strength(s[id], c')
    ensures r.1 ==> read
    decreases |gates|
  {
    if gates == [] then
      (s, read)
    else if Broadcasts(gates[0], c) then
      BroadcastLoop(net, ReceiveAt(net, s, id, MaxSignal, c).0, id, c, gates[1..], false)
    else
      BroadcastLoop(net, s, id, c, gates[1..], read)
  }

  /**
    `updateSignalStateForColor`: nothing happens for a colour that is not
    installed; otherwise step 1 (broadcast, or else read the neighbours) is
    followed by step 2 (transmit).
   */
  function UpdateSignalStateForColor(net: Network, s: Signals, id: NodeId, c: PipeWire): (r: Signals)
    requires Valid(net, s) && id in net.pipes
    ensures r.Keys == s.Keys
    ensures !Wired(net.pipes[id], c) ==> r == s
    ensures forall n, c' :: n in s && c' != c ==> Strength(r[n], c') == Strength(s[n], c')
  {
    if !Wired(net.pipes[id], c) then
      s
    else
      var (s1, readNearby) := BroadcastLoop(net, s, id, c, net.pipes[id].gates, true);
      var s2 := if readNearby then ReadNearbyPipesSignal(net, s1, id, c) else s1;
      TransmitSignal(net, s2, id, c)
  }

  /** The colour loop of `updateSignalState`. */
  function UpdateWires(net: Network, s: Signals, id: NodeId, wires: seq<PipeWire>): (r: Signals)
    requires Valid(net, s) && id in net.pipes
    ensures r.Keys == s.Keys
    ensures forall n, c :: n in s && c !in wires ==> Strength(r[n], c) == Strength(s[n], c)
    decreases |wires|
  {
    if wires == [] then
      s
    else
      assert forall c :: c !in wires ==> c != wires[0] && c !in wires[1..];
      UpdateWires(net, UpdateSignalStateForColor(net, s, id, wires[0]), id, wires[1..])
  }

  /** `updateSignalState`: every colour in `PipeWire` order. */
  function UpdateSignalState(net: Network, s: Signals, id: NodeId): (r: Signals)
    requires Valid(net, s) && id in net.pipes
    ensures r.Keys == s.Keys
  {
    UpdateWires(net, s, id, Wires)
  }

  /** The scheduled-update step of `updateEntity`: when an internal update is
      scheduled, run `updateSignalState`, then clear the flag. */
  function ScheduledUpdate(net: Network, s: Signals, id: NodeId): (r: Signals)
    requires Valid(net, s) && id in net.pipes
    ensures r.Keys == s.Keys
    ensures !r[id].updateScheduled
    ensures !s[id].updateScheduled ==> r == s
    ensures s[id].updateScheduled ==> forall n :: n in s ==>
      r[n].signalStrength == UpdateSignalState(net, s, id)[n].signalStrength
    ensures s[id].updateScheduled ==> forall n :: n in s && n != id ==> r[n] == UpdateSignalState(net, s, id)[n]
  {
    if s[id].updateScheduled then
      var s1 := UpdateSignalState(net, s, id);
      s1[id := s1[id].(updateScheduled := false)]
    else
      s
  }

}
