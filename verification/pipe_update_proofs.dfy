/**
  The whole `updateSignalState` and the scheduled-update step of
  `updateEntity`. Each colour's update reads only that colour's strengths
  and writes only those (and scheduled flags), so within the four-colour
  loop every colour ends exactly as its own `updateSignalStateForColor`
  would leave it. The per-colour results of `PipeSignalProofs` therefore
  carry over to the step the host actually runs.
 */
module PipeUpdateProofs {

  import opened Options
  import opened Directions
  import opened Pipe
  import opened PipeSignalProofs

  /** `s` and `s'` hold the same pipes, with the same strengths of colour `c`. */
  predicate SameColour(s: Signals, s': Signals, c: PipeWire)
  {
    s.Keys == s'.Keys && forall n :: n in s ==> Strength(s[n], c) == Strength(s'[n], c)
  }

  lemma SameColourTrans(s1: Signals, s2: Signals, s3: Signals, c: PipeWire)
    requires SameColour(s1, s2, c) && SameColour(s2, s3, c)
    ensures SameColour(s1, s3, c)
  {
  }

  // ---------------------------------------------------------------------
  // Colour `c`'s update depends only on the strengths of colour `c`

  /** `receiveSignal` decides on the strength of its own colour alone. */
  lemma ReceiveAtAgrees(net: Network, s: Signals, s': Signals, n: NodeId, v: int, c: PipeWire)
    requires SameColour(s, s', c) && n in s
    ensures ReceiveAt(net, s, n, v, c).1 == ReceiveAt(net, s', n, v, c).1
    ensures SameColour(ReceiveAt(net, s, n, v, c).0, ReceiveAt(net, s', n, v, c).0, c)
  {
  }

  lemma {:induction false} ReadLoopAgrees(net: Network, s: Signals, s': Signals, id: NodeId, c: PipeWire, dirs: seq<Direction>, found: bool)
    requires Valid(net, s) && Valid(net, s') && id in net.pipes && SameColour(s, s', c)
    ensures ReadLoop(net, s, id, c, dirs, found).1 == ReadLoop(net, s', id, c, dirs, found).1
    ensures SameColour(ReadLoop(net, s, id, c, dirs, found).0, ReadLoop(net, s', id, c, dirs, found).0, c)
    decreases |dirs|
  {
    if dirs != [] {
      assert Offer(net, s, id, c, dirs[0]) == Offer(net, s', id, c, dirs[0]);
      match Offer(net, s, id, c, dirs[0])
      case None =>
        ReadLoopAgrees(net, s, s', id, c, dirs[1..], found);
      case Some(o) =>
        ReceiveAtAgrees(net, s, s', id, o, c);
        var (s1, ok) := ReceiveAt(net, s, id, o, c);
        var s1' := ReceiveAt(net, s', id, o, c).0;
        ReadLoopAgrees(net, s1, s1', id, c, dirs[1..], found || ok);
    }
  }

  lemma ReadNearbyAlongAgrees(net: Network, s: Signals, s': Signals, id: NodeId, c: PipeWire, dirs: seq<Direction>)
    requires Valid(net, s) && Valid(net, s') && id in net.pipes && SameColour(s, s', c)
    ensures SameColour(ReadNearbyAlong(net, s, id, c, dirs), ReadNearbyAlong(net, s', id, c, dirs), c)
  {
    ReadLoopAgrees(net, s, s', id, c, dirs, false);
    var (r, found) := ReadLoop(net, s, id, c, dirs, false);
    var r' := ReadLoop(net, s', id, c, dirs, false).0;
    if !found && Strength(r[id], c) != 0 {
      var z, z' := Zeroed(r, id, c), Zeroed(r', id, c);
      var a, a' := ScheduleNeighbours(net, z, id, dirs), ScheduleNeighbours(net, z', id, dirs);
      assert SameColour(a, z, c) && SameColour(z, z', c) && SameColour(z', a', c);
    }
  }

  lemma {:induction false} TransmitLoopAgrees(net: Network, s: Signals, s': Signals, id: NodeId, c: PipeWire, dirs: seq<Direction>)
    requires Valid(net, s) && Valid(net, s') && id in net.pipes && SameColour(s, s', c)
    ensures SameColour(TransmitLoop(net, s, id, c, dirs), TransmitLoop(net, s', id, c, dirs), c)
    decreases |dirs|
  {
    if dirs != [] {
      match RelayTarget(net, id, c, dirs[0])
      case None =>
        TransmitLoopAgrees(net, s, s', id, c, dirs[1..]);
      case Some(n) =>
        var v := Strength(s[id], c) - 1;
        ReceiveAtAgrees(net, s, s', n, v, c);
        TransmitLoopAgrees(net, ReceiveAt(net, s, n, v, c).0, ReceiveAt(net, s', n, v, c).0, id, c, dirs[1..]);
    }
  }

  lemma {:induction false} BroadcastLoopAgrees(net: Network, s: Signals, s': Signals, id: NodeId, c: PipeWire, gates: seq<Option<Gate>>, read: bool)
    requires Valid(net, s) && Valid(net, s') && id in net.pipes && SameColour(s, s', c)
    ensures BroadcastLoop(net, s, id, c, gates, read).1 == BroadcastLoop(net, s', id, c, gates, read).1
    ensures SameColour(BroadcastLoop(net, s, id, c, gates, read).0, BroadcastLoop(net, s', id, c, gates, read).0, c)
    decreases |gates|
  {
    if gates != [] {
      if Broadcasts(gates[0], c) {
        ReceiveAtAgrees(net, s, s', id, MaxSignal, c);
        BroadcastLoopAgrees(net, ReceiveAt(net, s, id, MaxSignal, c).0, ReceiveAt(net, s', id, MaxSignal, c).0, id, c, gates[1..], false);
      } else {
        BroadcastLoopAgrees(net, s, s', id, c, gates[1..], read);
      }
    }
  }

  lemma ReadNearbyAgrees(net: Network, s: Signals, s': Signals, id: NodeId, c: PipeWire)
    requires Valid(net, s) && Valid(net, s') && id in net.pipes && SameColour(s, s', c)
    ensures SameColour(ReadNearbyPipesSignal(net, s, id, c), ReadNearbyPipesSignal(net, s', id, c), c)
  {
    ReadNearbyAlongAgrees(net, s, s', id, c, ValidDirections);
  }

  lemma TransmitSignalAgrees(net: Network, s: Signals, s': Signals, id: NodeId, c: PipeWire)
    requires Valid(net, s) && Valid(net, s') && id in net.pipes && SameColour(s, s', c)
    ensures SameColour(TransmitSignal(net, s, id, c), TransmitSignal(net, s', id, c), c)
  {
    if Strength(s[id], c) > 1 {
      TransmitLoopAgrees(net, s, s', id, c, ValidDirections);
    }
  }

  /** Two signal maps that agree on colour `c` still agree on it after the
      update for `c`: the update reads no other colour. */
  lemma UpdateForColorAgrees(net: Network, s: Signals, s': Signals, id: NodeId, c: PipeWire)
    requires Valid(net, s) && Valid(net, s') && id in net.pipes && SameColour(s, s', c)
    ensures SameColour(UpdateSignalStateForColor(net, s, id, c), UpdateSignalStateForColor(net, s', id, c), c)
  {
    if Wired(net.pipes[id], c) {
      var gates := net.pipes[id].gates;
      BroadcastLoopAgrees(net, s, s', id, c, gates, true);
      var b := BroadcastLoop(net, s, id, c, gates, true);
      var b' := BroadcastLoop(net, s', id, c, gates, true);
      var s2 := if b.1 then ReadNearbyPipesSignal(net, b.0, id, c) else b.0;
      var s2' := if b'.1 then ReadNearbyPipesSignal(net, b'.0, id, c) else b'.0;
      if b.1 {
        ReadNearbyAgrees(net, b.0, b'.0, id, c);
      }
      TransmitSignalAgrees(net, s2, s2', id, c);
    }
  }

  // ---------------------------------------------------------------------
  // The colour loop

  /**
    Over a list of distinct colours containing `c`, the colour loop leaves
    colour `c` exactly as `c`'s own update, run on the starting state, does.
   */
  lemma {:induction false} UpdateWiresPerColour(net: Network, s: Signals, id: NodeId, wires: seq<PipeWire>, c: PipeWire)
    requires Valid(net, s) && id in net.pipes && c in wires
    requires forall i, j :: 0 <= i < j < |wires| ==> wires[i] != wires[j]
    ensures SameColour(UpdateWires(net, s, id, wires), UpdateSignalStateForColor(net, s, id, c), c)
    decreases |wires|
  {
    var s1 := UpdateSignalStateForColor(net, s, id, wires[0]);
    if wires[0] == c {
      assert c !in wires[1..];
    } else {
      assert c in wires[1..] by {
        var k :| 0 <= k < |wires| && wires[k] == c;
        assert wires[1..][k - 1] == c;
      }
      UpdateWiresPerColour(net, s1, id, wires[1..], c);
      UpdateForColorAgrees(net, s1, s, id, c);
      SameColourTrans(UpdateWires(net, s1, id, wires[1..]), UpdateSignalStateForColor(net, s1, id, c), UpdateSignalStateForColor(net, s, id, c), c);
    }
  }

  /**
    Within `updateSignalState` every colour ends exactly as its own
    `updateSignalStateForColor` would leave it, for every pipe: the four
    colour updates do not interfere.
   */
  lemma UpdateSignalStatePerColour(net: Network, s: Signals, id: NodeId, c: PipeWire)
    requires Valid(net, s) && id in net.pipes
    ensures forall n :: n in s ==>
      Strength(UpdateSignalState(net, s, id)[n], c) == Strength(UpdateSignalStateForColor(net, s, id, c)[n], c)
  {
    assert Wires[WireOrdinal(c)] == c;
    UpdateWiresPerColour(net, s, id, Wires, c);
  }

  // ---------------------------------------------------------------------
  // Scheduled flags are only ever set

  /** Every pipe scheduled in `s` is still scheduled in `r`. */
  predicate FlagsKept(s: Signals, r: Signals)
  {
    s.Keys <= r.Keys && forall n :: n in s && s[n].updateScheduled ==> r[n].updateScheduled
  }

  lemma FlagsKeptTrans(s1: Signals, s2: Signals, s3: Signals)
    requires FlagsKept(s1, s2) && FlagsKept(s2, s3)
    ensures FlagsKept(s1, s3)
  {
  }

  lemma ReceiveAtKeepsFlags(net: Network, s: Signals, n: NodeId, v: int, c: PipeWire)
    requires n in s
    ensures FlagsKept(s, ReceiveAt(net, s, n, v, c).0)
  {
  }

  lemma {:induction false} ReadLoopKeepsFlags(net: Network, s: Signals, id: NodeId, c: PipeWire, dirs: seq<Direction>, found: bool)
    requires Valid(net, s) && id in net.pipes
    ensures FlagsKept(s, ReadLoop(net, s, id, c, dirs, found).0)
    decreases |dirs|
  {
    if dirs != [] {
      match Offer(net, s, id, c, dirs[0])
      case None =>
        ReadLoopKeepsFlags(net, s, id, c, dirs[1..], found);
      case Some(o) =>
        var (s1, ok) := ReceiveAt(net, s, id, o, c);
        ReceiveAtKeepsFlags(net, s, id, o, c);
        ReadLoopKeepsFlags(net, s1, id, c, dirs[1..], found || ok);
        FlagsKeptTrans(s, s1, ReadLoop(net, s1, id, c, dirs[1..], found || ok).0);
    }
  }

  lemma {:induction false} ScheduleNeighboursKeepsFlags(net: Network, s: Signals, id: NodeId, dirs: seq<Direction>)
    requires Valid(net, s)
    ensures FlagsKept(s, ScheduleNeighbours(net, s, id, dirs))
    decreases |dirs|
  {
    if dirs != [] {
      var t := PipeAt(net, id, dirs[0]);
      var s1 := if t.Some? && net.pipes[t.value].fullyDefined then s[t.value := s[t.value].(updateScheduled := true)] else s;
      ScheduleNeighboursKeepsFlags(net, s1, id, dirs[1..]);
      FlagsKeptTrans(s, s1, ScheduleNeighbours(net, s1, id, dirs[1..]));
    }
  }

  lemma ReadNearbyAlongKeepsFlags(net: Network, s: Signals, id: NodeId, c: PipeWire, dirs: seq<Direction>)
    requires Valid(net, s) && id in net.pipes
    ensures FlagsKept(s, ReadNearbyAlong(net, s, id, c, dirs))
  {
    var read := ReadLoop(net, s, id, c, dirs, false);
    ReadLoopKeepsFlags(net, s, id, c, dirs, false);
    if !read.1 && Strength(read.0[id], c) != 0 {
      var z := Zeroed(read.0, id, c);
      assert FlagsKept(read.0, z);
      ScheduleNeighboursKeepsFlags(net, z, id, dirs);
      FlagsKeptTrans(s, read.0, z);
      FlagsKeptTrans(s, z, ScheduleNeighbours(net, z, id, dirs));
    }
  }

  lemma ReadNearbyKeepsFlags(net: Network, s: Signals, id: NodeId, c: PipeWire)
    requires Valid(net, s) && id in net.pipes
    ensures FlagsKept(s, ReadNearbyPipesSignal(net, s, id, c))
  {
    ReadNearbyAlongKeepsFlags(net, s, id, c, ValidDirections);
  }

  lemma {:induction false} TransmitLoopKeepsFlags(net: Network, s: Signals, id: NodeId, c: PipeWire, dirs: seq<Direction>)
    requires Valid(net, s) && id in net.pipes
    ensures FlagsKept(s, TransmitLoop(net, s, id, c, dirs))
    decreases |dirs|
  {
    if dirs != [] {
      match RelayTarget(net, id, c, dirs[0])
      case None =>
        TransmitLoopKeepsFlags(net, s, id, c, dirs[1..]);
      case Some(n) =>
        var s1 := ReceiveAt(net, s, n, Strength(s[id], c) - 1, c).0;
        ReceiveAtKeepsFlags(net, s, n, Strength(s[id], c) - 1, c);
        TransmitLoopKeepsFlags(net, s1, id, c, dirs[1..]);
        FlagsKeptTrans(s, s1, TransmitLoop(net, s1, id, c, dirs[1..]));
    }
  }

  lemma TransmitSignalKeepsFlags(net: Network, s: Signals, id: NodeId, c: PipeWire)
    requires Valid(net, s) && id in net.pipes
    ensures FlagsKept(s, TransmitSignal(net, s, id, c))
  {
    if Strength(s[id], c) > 1 {
      TransmitLoopKeepsFlags(net, s, id, c, ValidDirections);
    }
  }

  lemma {:induction false} BroadcastLoopKeepsFlags(net: Network, s: Signals, id: NodeId, c: PipeWire, gates: seq<Option<Gate>>, read: bool)
    requires Valid(net, s) && id in net.pipes
    ensures FlagsKept(s, BroadcastLoop(net, s, id, c, gates, read).0)
    decreases |gates|
  {
    if gates != [] {
      if Broadcasts(gates[0], c) {
        var s1 := ReceiveAt(net, s, id, MaxSignal, c).0;
        ReceiveAtKeepsFlags(net, s, id, MaxSignal, c);
        BroadcastLoopKeepsFlags(net, s1, id, c, gates[1..], false);
        FlagsKeptTrans(s, s1, BroadcastLoop(net, s1, id, c, gates[1..], false).0);
      } else {
        BroadcastLoopKeepsFlags(net, s, id, c, gates[1..], read);
      }
    }
  }

  /** No colour update clears a scheduled flag. */
  lemma UpdateForColorKeepsFlags(net: Network, s: Signals, id: NodeId, c: PipeWire)
    requires Valid(net, s) && id in net.pipes
    ensures FlagsKept(s, UpdateSignalStateForColor(net, s, id, c))
  {
    if Wired(net.pipes[id], c) {
      var gates := net.pipes[id].gates;
      BroadcastLoopKeepsFlags(net, s, id, c, gates, true);
      var b := BroadcastLoop(net, s, id, c, gates, true);
      var s2 := if b.1 then ReadNearbyPipesSignal(net, b.0, id, c) else b.0;
      if b.1 {
        ReadNearbyKeepsFlags(net, b.0, id, c);
      }
      FlagsKeptTrans(s, b.0, s2);
      TransmitSignalKeepsFlags(net, s2, id, c);
      FlagsKeptTrans(s, s2, TransmitSignal(net, s2, id, c));
    }
  }

  /** Nor does the colour loop. */
  lemma {:induction false} UpdateWiresKeepsFlags(net: Network, s: Signals, id: NodeId, wires: seq<PipeWire>)
    requires Valid(net, s) && id in net.pipes
    ensures FlagsKept(s, UpdateWires(net, s, id, wires))
    decreases |wires|
  {
    if wires != [] {
      var s1 := UpdateSignalStateForColor(net, s, id, wires[0]);
      UpdateForColorKeepsFlags(net, s, id, wires[0]);
      UpdateWiresKeepsFlags(net, s1, id, wires[1..]);
      FlagsKeptTrans(s, s1, UpdateWires(net, s1, id, wires[1..]));
    }
  }

  // ---------------------------------------------------------------------
  // Flags set by one colour, inside the colour loop

  /** Whether a neighbour's offer would be taken depends on colour `c` alone. */
  lemma AcceptedAgrees(net: Network, s: Signals, s': Signals, id: NodeId, c: PipeWire, dirs: seq<Direction>)
    requires Valid(net, s) && Valid(net, s') && id in net.pipes && SameColour(s, s', c)
    ensures AnyAccepted(net, s, id, c, dirs) <==> AnyAccepted(net, s', id, c, dirs)
  {
    assert forall d :: Offer(net, s, id, c, d) == Offer(net, s', id, c, d);
    assert forall d :: Accepted(net, s, id, c, d) == Accepted(net, s', id, c, d);
  }

  /**
    When colour `c` collapses, the colour loop leaves every fully defined
    neighbour scheduled: the colours before `c` do not change what `c` sees,
    and the colours after it clear no flag.
   */
  lemma {:induction false} UpdateWiresCollapseSchedules(net: Network, s: Signals, id: NodeId, wires: seq<PipeWire>, c: PipeWire)
    requires Valid(net, s) && id in net.pipes && NoSelfLoop(net, id) && c in wires
    requires Wired(net.pipes[id], c) && !AnyBroadcasts(net.pipes[id].gates, c)
    requires !AnyAccepted(net, s, id, c, ValidDirections) && Strength(s[id], c) > 0
    ensures forall n :: n in DefinedNeighbours(net, id, ValidDirections) ==> UpdateWires(net, s, id, wires)[n].updateScheduled
    decreases |wires|
  {
    var s1 := UpdateSignalStateForColor(net, s, id, wires[0]);
    if wires[0] == c {
      UpdateCollapses(net, s, id, c);
      UpdateWiresKeepsFlags(net, s1, id, wires[1..]);
    } else {
      assert c in wires[1..] by {
        var k :| 0 <= k < |wires| && wires[k] == c;
        assert wires[1..][k - 1] == c;
      }
      assert SameColour(s, s1, c);
      AcceptedAgrees(net, s, s1, id, c, ValidDirections);
      UpdateWiresCollapseSchedules(net, s1, id, wires[1..], c);
    }
  }

  /**
    When a gate broadcasts `c`, the colour loop leaves the relay target on
    side `d` scheduled, provided it was below 255 and so takes the offer of 254.
   */
  lemma {:induction false} UpdateWiresRelaySchedules(net: Network, s: Signals, id: NodeId, wires: seq<PipeWire>, c: PipeWire, d: Direction)
    requires Valid(net, s) && id in net.pipes && NoSelfLoop(net, id) && net.hasWorld && c in wires
    requires Wired(net.pipes[id], c) && AnyBroadcasts(net.pipes[id].gates, c)
    requires Strength(s[id], c) <= MaxSignal && RelayTarget(net, id, c, d).Some?
    requires Strength(s[RelayTarget(net, id, c, d).value], c) < MaxSignal
    ensures UpdateWires(net, s, id, wires)[RelayTarget(net, id, c, d).value].updateScheduled
    decreases |wires|
  {
    var n := RelayTarget(net, id, c, d).value;
    var s1 := UpdateSignalStateForColor(net, s, id, wires[0]);
    if wires[0] == c {
      BroadcastForcesMax(net, s, id, c);
      var r := ReceiveAt(net, s, id, MaxSignal, c).0;
      assert r[n] == s[n];
      TransmitReaches(net, r, id, c, d);
      UpdateWiresKeepsFlags(net, s1, id, wires[1..]);
    } else {
      assert c in wires[1..] by {
        var k :| 0 <= k < |wires| && wires[k] == c;
        assert wires[1..][k - 1] == c;
      }
      assert SameColour(s, s1, c);
      UpdateWiresRelaySchedules(net, s1, id, wires[1..], c, d);
    }
  }

  // ---------------------------------------------------------------------
  // The scheduled-update step

  /** A scheduled pipe's step leaves every strength of colour `c` where
      `c`'s own update would. */
  lemma ScheduledStepPerColour(net: Network, s: Signals, id: NodeId, c: PipeWire)
    requires Valid(net, s) && id in net.pipes && s[id].updateScheduled
    ensures forall n :: n in s ==>
      Strength(ScheduledUpdate(net, s, id)[n], c) == Strength(UpdateSignalStateForColor(net, s, id, c)[n], c)
  {
    UpdateSignalStatePerColour(net, s, id, c);
  }

  /** The scheduled step leaves a colour the pipe does not carry unchanged everywhere. */
  lemma ScheduledStepSkipsBareColour(net: Network, s: Signals, id: NodeId, c: PipeWire)
    requires Valid(net, s) && id in net.pipes && !Wired(net.pipes[id], c)
    ensures forall n :: n in s ==> Strength(ScheduledUpdate(net, s, id)[n], c) == Strength(s[n], c)
  {
    if s[id].updateScheduled {
      ScheduledStepPerColour(net, s, id, c);
    }
  }

  /** A scheduled pipe with a gate broadcasting `c` ends the step at 255. */
  lemma ScheduledBroadcastForcesMax(net: Network, s: Signals, id: NodeId, c: PipeWire)
    requires Valid(net, s) && id in net.pipes && NoSelfLoop(net, id) && net.hasWorld
    requires s[id].updateScheduled && Wired(net.pipes[id], c) && AnyBroadcasts(net.pipes[id].gates, c)
    requires Strength(s[id], c) <= MaxSignal
    ensures Strength(ScheduledUpdate(net, s, id)[id], c) == MaxSignal
  {
    ScheduledStepPerColour(net, s, id, c);
    BroadcastForcesMax(net, s, id, c);
  }

  /** A scheduled pipe whose neighbours no longer sustain `c` ends the step
      at 0, and every fully defined neighbour ends it scheduled. */
  lemma ScheduledCollapses(net: Network, s: Signals, id: NodeId, c: PipeWire)
    requires Valid(net, s) && id in net.pipes && NoSelfLoop(net, id)
    requires s[id].updateScheduled && Wired(net.pipes[id], c) && !AnyBroadcasts(net.pipes[id].gates, c)
    requires !AnyAccepted(net, s, id, c, ValidDirections) && Strength(s[id], c) > 0
    ensures Strength(ScheduledUpdate(net, s, id)[id], c) == 0
    ensures forall n :: n in DefinedNeighbours(net, id, ValidDirections) ==> ScheduledUpdate(net, s, id)[n].updateScheduled
  {
    ScheduledStepPerColour(net, s, id, c);
    UpdateCollapses(net, s, id, c);
    assert Wires[WireOrdinal(c)] == c;
    UpdateWiresCollapseSchedules(net, s, id, Wires, c);
    assert id !in DefinedNeighbours(net, id, ValidDirections);
  }

  /** A scheduled pipe whose neighbours sustain `c` ends the step at the best
      offer, never below where it was. */
  lemma ScheduledRaises(net: Network, s: Signals, id: NodeId, c: PipeWire)
    requires Valid(net, s) && id in net.pipes && NoSelfLoop(net, id)
    requires s[id].updateScheduled && Wired(net.pipes[id], c) && !AnyBroadcasts(net.pipes[id].gates, c)
    requires AnyAccepted(net, s, id, c, ValidDirections) && Strength(s[id], c) >= 0
    ensures var r := ScheduledUpdate(net, s, id);
      && IsBestOffer(net, s, id, c, ValidDirections, Strength(r[id], c))
      && Strength(r[id], c) >= Strength(s[id], c)
  {
    ScheduledStepPerColour(net, s, id, c);
    UpdateRaises(net, s, id, c);
  }

  /** A scheduled pipe with a gate broadcasting `c` offers the relay target on
      side `d` 254 during the step, so that target ends at 254 or more, and
      it ends scheduled when it was below 255. */
  lemma ScheduledBroadcastReachesNeighbour(net: Network, s: Signals, id: NodeId, c: PipeWire, d: Direction)
    requires Valid(net, s) && id in net.pipes && NoSelfLoop(net, id) && net.hasWorld
    requires s[id].updateScheduled && Wired(net.pipes[id], c) && AnyBroadcasts(net.pipes[id].gates, c)
    requires 0 <= Strength(s[id], c) <= MaxSignal && RelayTarget(net, id, c, d).Some?
    ensures var n := RelayTarget(net, id, c, d).value;
      Strength(ScheduledUpdate(net, s, id)[n], c) >= MaxSignal - 1
    ensures var n := RelayTarget(net, id, c, d).value;
      Strength(s[n], c) < MaxSignal ==> ScheduledUpdate(net, s, id)[n].updateScheduled
  {
    var n := RelayTarget(net, id, c, d).value;
    ScheduledStepPerColour(net, s, id, c);
    BroadcastForcesMax(net, s, id, c);
    var s1 := ReceiveAt(net, s, id, MaxSignal, c).0;
    TransmitReaches(net, s1, id, c, d);
    if Strength(s[n], c) < MaxSignal {
      assert Wires[WireOrdinal(c)] == c;
      UpdateWiresRelaySchedules(net, s, id, Wires, c, d);
    }
  }

}
