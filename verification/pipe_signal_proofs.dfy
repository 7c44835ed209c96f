/**
  Properties of the wire-signal propagation of module `Pipe`: what one
  `updateSignalStateForColor` does to the pipe itself and to its neighbours,
  what it leaves alone, and the strength invariant it keeps.
 */
module PipeSignalProofs {

  import opened Options
  import opened Directions
  import opened Pipe

  /** No side of `id` leads back to `id` itself (a block is never its own neighbour). */
  predicate NoSelfLoop(net: Network, id: NodeId)
  {
    forall d :: PipeAt(net, id, d) != Some(id)
  }

  /** The strength invariant: every strength lies in [0, 255], and only an
      installed colour carries a non-zero strength. */
  predicate Consistent(net: Network, s: Signals)
  {
    && Valid(net, s)
    && forall n, c :: n in s ==>
      && 0 <= Strength(s[n], c) <= MaxSignal
      && (Strength(s[n], c) > 0 ==> Wired(net.pipes[n], c))
  }

  /** The offer on side `d` would be taken by `receiveSignal` of `id`, the
      world being present. */
  predicate Accepted(net: Network, s: Signals, id: NodeId, c: PipeWire, d: Direction)
    requires Valid(net, s) && id in net.pipes
  {
    var o := Offer(net, s, id, c, d);
    o.Some? && o.value >= Strength(s[id], c) && o.value != 0
  }

  /** Some neighbour along `dirs` offers `id` at least its current strength,
      and there is a world to take it in. */
  predicate AnyAccepted(net: Network, s: Signals, id: NodeId, c: PipeWire, dirs: seq<Direction>)
    requires Valid(net, s) && id in net.pipes
  {
    net.hasWorld && exists i :: 0 <= i < |dirs| && Accepted(net, s, id, c, dirs[i])
  }

  /** `v` is the largest offer made along `dirs`. */
  predicate IsBestOffer(net: Network, s: Signals, id: NodeId, c: PipeWire, dirs: seq<Direction>, v: int)
    requires Valid(net, s) && id in net.pipes
  {
    && (exists i :: 0 <= i < |dirs| && Offer(net, s, id, c, dirs[i]) == Some(v))
    && (forall i :: 0 <= i < |dirs| && Offer(net, s, id, c, dirs[i]).Some? ==> Offer(net, s, id, c, dirs[i]).value <= v)
  }

  /** The pipes that step 2 transmits to along `dirs`. */
  function RelayTargets(net: Network, id: NodeId, c: PipeWire, dirs: seq<Direction>): (r: set<NodeId>)
    requires id in net.pipes
    ensures forall n :: n in r ==> n in net.pipes && Adjacent(net, id, n) && Wired(net.pipes[n], c)
    decreases |dirs|
  {
    if dirs == [] then
      {}
    else
      var t := RelayTarget(net, id, c, dirs[0]);
      (if t.Some? then {t.value} else {}) + RelayTargets(net, id, c, dirs[1..])
  }

  /** A relay target on one of the sides `dirs` is among the relay targets. */
  lemma {:induction false} RelayTargetIn(net: Network, id: NodeId, c: PipeWire, dirs: seq<Direction>, d: Direction)
    requires id in net.pipes && d in dirs && RelayTarget(net, id, c, d).Some?
    ensures RelayTarget(net, id, c, d).value in RelayTargets(net, id, c, dirs)
    decreases |dirs|
  {
    if dirs[0] != d {
      RelayTargetIn(net, id, c, dirs[1..], d);
    }
  }

  /** Only `id` and the pipes next to it may differ. */
  predicate Untouched(net: Network, s: Signals, s': Signals, id: NodeId)
    requires s.Keys <= s'.Keys
  {
    forall n :: n in s && n != id && !Adjacent(net, id, n) ==> s'[n] == s[n]
  }

  /** No strength of a colour other than `c` differs. */
  predicate OtherWiresUnchanged(s: Signals, s': Signals, c: PipeWire)
    requires s.Keys <= s'.Keys
  {
    forall n, c' :: n in s && c' != c ==> Strength(s'[n], c') == Strength(s[n], c')
  }

  /**
    Wire connection only looks at the far side's wires, but between two fully
    defined pipes that both carry colour `c` and whose connection check agrees
    both ways, it is symmetric.
   */
  lemma WireConnectionSymmetric(net: Network, a: NodeId, b: NodeId, c: PipeWire)
    requires a in net.pipes && b in net.pipes
    requires net.pipes[a].fullyDefined && net.pipes[b].fullyDefined
    requires Wired(net.pipes[a], c) && Wired(net.pipes[b], c)
    requires (a, b) in net.linked <==> (b, a) in net.linked
    ensures IsWireConnectedTo(net, a, Some(b), c) == IsWireConnectedTo(net, b, Some(a), c)
  {
    if IsWireConnectedTo(net, a, Some(b), c) {
      assert net.pipes[b].structureTransport || net.pipes[a].structureTransport || (a, b) in net.linked;
    }
  }

  /** Two equal offers in a row are as good as one. */
  lemma ReceiveIdempotent(p: Signal, v: int, c: PipeWire, hasWorld: bool)
    ensures ReceiveSignal(ReceiveSignal(p, v, c, hasWorld).0, v, c, hasWorld).0 == ReceiveSignal(p, v, c, hasWorld).0
  {
    var q := ReceiveSignal(p, v, c, hasWorld).0;
    if ReceiveSignal(p, v, c, hasWorld).1 {
      assert Raised(q, c, v).signalStrength == q.signalStrength;
    }
  }

  // ---------------------------------------------------------------------
  // readNearbyPipesSignal

  /** Changing only `id` itself leaves every offer made to `id` as it was. */
  lemma OffersKept(net: Network, s: Signals, s': Signals, id: NodeId, c: PipeWire)
    requires Valid(net, s) && Valid(net, s') && id in net.pipes && NoSelfLoop(net, id)
    requires forall n :: n in s && n != id ==> s'[n] == s[n]
    ensures forall d :: Offer(net, s', id, c, d) == Offer(net, s, id, c, d)
  {
  }

  /**
    The scan of `readNearbyPipesSignal` takes an offer exactly when some
    neighbour offers at least the current strength; it then leaves the
    strength at the best offer of all and schedules the pipe, and otherwise it
    changes nothing.
   */
  lemma {:induction false} ReadLoopSpec(net: Network, s: Signals, id: NodeId, c: PipeWire, dirs: seq<Direction>, found: bool)
    requires Valid(net, s) && id in net.pipes && NoSelfLoop(net, id) && Strength(s[id], c) >= 0
    ensures ReadLoop(net, s, id, c, dirs, found).1 <==> found || AnyAccepted(net, s, id, c, dirs)
    ensures !AnyAccepted(net, s, id, c, dirs) ==> ReadLoop(net, s, id, c, dirs, found).0 == s
    ensures AnyAccepted(net, s, id, c, dirs) ==>
      var v := Strength(ReadLoop(net, s, id, c, dirs, found).0[id], c);
      && IsBestOffer(net, s, id, c, dirs, v)
      && ReadLoop(net, s, id, c, dirs, found).0[id] == Raised(s[id], c, v)
    decreases |dirs|, 1
  {
    if dirs == [] {
      return;
    }
    var o := Offer(net, s, id, c, dirs[0]);
    if o.None? || !ReceiveAt(net, s, id, o.value, c).1 {
      ReadLoopSkip(net, s, id, c, dirs, found);
    } else {
      ReadLoopTake(net, s, id, c, dirs, found);
    }
  }

  /** The inductive step of `ReadLoopSpec` when the first offer is not taken. */
  lemma {:induction false} ReadLoopSkip(net: Network, s: Signals, id: NodeId, c: PipeWire, dirs: seq<Direction>, found: bool)
    requires Valid(net, s) && id in net.pipes && NoSelfLoop(net, id) && Strength(s[id], c) >= 0 && |dirs| > 0
    requires Offer(net, s, id, c, dirs[0]).None? || !ReceiveAt(net, s, id, Offer(net, s, id, c, dirs[0]).value, c).1
    ensures ReadLoop(net, s, id, c, dirs, found).1 <==> found || AnyAccepted(net, s, id, c, dirs)
    ensures !AnyAccepted(net, s, id, c, dirs) ==> ReadLoop(net, s, id, c, dirs, found).0 == s
    ensures AnyAccepted(net, s, id, c, dirs) ==>
      var v := Strength(ReadLoop(net, s, id, c, dirs, found).0[id], c);
      && IsBestOffer(net, s, id, c, dirs, v)
      && ReadLoop(net, s, id, c, dirs, found).0[id] == Raised(s[id], c, v)
    decreases |dirs|, 0
  {
    var rest := dirs[1..];
    assert s[id := s[id]] == s;
    assert ReadLoop(net, s, id, c, dirs, found) == ReadLoop(net, s, id, c, rest, found);
    ReadLoopSpec(net, s, id, c, rest, found);
    RejectedHead(net, s, id, c, dirs);
    if AnyAccepted(net, s, id, c, rest) {
      var v := Strength(ReadLoop(net, s, id, c, rest, found).0[id], c);
      var i :| 0 <= i < |rest| && Accepted(net, s, id, c, rest[i]);
      assert v >= Offer(net, s, id, c, rest[i]).value >= 1;
      BestOfferExtends(net, s, id, c, dirs, v);
    }
  }

  /** The inductive step of `ReadLoopSpec` when the first offer is taken. */
  lemma {:induction false} ReadLoopTake(net: Network, s: Signals, id: NodeId, c: PipeWire, dirs: seq<Direction>, found: bool)
    requires Valid(net, s) && id in net.pipes && NoSelfLoop(net, id) && Strength(s[id], c) >= 0 && |dirs| > 0
    requires Offer(net, s, id, c, dirs[0]).Some? && ReceiveAt(net, s, id, Offer(net, s, id, c, dirs[0]).value, c).1
    ensures ReadLoop(net, s, id, c, dirs, found).1
    ensures AnyAccepted(net, s, id, c, dirs)
    ensures
      var v := Strength(ReadLoop(net, s, id, c, dirs, found).0[id], c);
      && IsBestOffer(net, s, id, c, dirs, v)
      && ReadLoop(net, s, id, c, dirs, found).0[id] == Raised(s[id], c, v)
    decreases |dirs|, 0
  {
    var rest := dirs[1..];
    var s1 := ReceiveAt(net, s, id, Offer(net, s, id, c, dirs[0]).value, c).0;
    assert ReadLoop(net, s, id, c, dirs, found) == ReadLoop(net, s1, id, c, rest, true);
    OffersKept(net, s, s1, id, c);
    ReadLoopSpec(net, s1, id, c, rest, true);
    AcceptedHead(net, s, s1, id, c, dirs, ReadLoop(net, s1, id, c, rest, true).0);
  }

  /** When the first offer is not taken, the scan of the rest decides. */
  lemma RejectedHead(net: Network, s: Signals, id: NodeId, c: PipeWire, dirs: seq<Direction>)
    requires Valid(net, s) && id in net.pipes && |dirs| > 0
    requires Offer(net, s, id, c, dirs[0]).None? || !ReceiveAt(net, s, id, Offer(net, s, id, c, dirs[0]).value, c).1
    ensures AnyAccepted(net, s, id, c, dirs) <==> AnyAccepted(net, s, id, c, dirs[1..])
  {
    var rest := dirs[1..];
    if AnyAccepted(net, s, id, c, dirs) {
      var i :| 0 <= i < |dirs| && Accepted(net, s, id, c, dirs[i]);
      assert i != 0;
      assert Accepted(net, s, id, c, rest[i - 1]);
    }
    if AnyAccepted(net, s, id, c, rest) {
      var i :| 0 <= i < |rest| && Accepted(net, s, id, c, rest[i]);
      assert Accepted(net, s, id, c, dirs[i + 1]);
    }
  }

  /** When the first offer is taken, the strength ends at the best offer,
      whether or not a later one is taken too. */
  lemma AcceptedHead(net: Network, s: Signals, s1: Signals, id: NodeId, c: PipeWire, dirs: seq<Direction>, r: Signals)
    requires Valid(net, s) && id in net.pipes && |dirs| > 0 && Strength(s[id], c) >= 0
    requires Offer(net, s, id, c, dirs[0]).Some?
    requires (s1, true) == ReceiveAt(net, s, id, Offer(net, s, id, c, dirs[0]).value, c)
    requires forall d :: Offer(net, s1, id, c, d) == Offer(net, s, id, c, d)
    requires id in r
    requires !AnyAccepted(net, s1, id, c, dirs[1..]) ==> r == s1
    requires AnyAccepted(net, s1, id, c, dirs[1..]) ==>
      && IsBestOffer(net, s1, id, c, dirs[1..], Strength(r[id], c))
      && r[id] == Raised(s1[id], c, Strength(r[id], c))
    ensures AnyAccepted(net, s, id, c, dirs)
    ensures IsBestOffer(net, s, id, c, dirs, Strength(r[id], c))
    ensures r[id] == Raised(s[id], c, Strength(r[id], c))
  {
    var rest := dirs[1..];
    var o := Offer(net, s, id, c, dirs[0]).value;
    assert s1[id] == Raised(s[id], c, o);
    assert Accepted(net, s, id, c, dirs[0]);
    var v := Strength(r[id], c);
    if AnyAccepted(net, s1, id, c, rest) {
      var i :| 0 <= i < |rest| && Accepted(net, s1, id, c, rest[i]);
      assert v >= o;
      BestOfferExtends(net, s, id, c, dirs, v);
      assert Raised(Raised(s[id], c, o), c, v).signalStrength == Raised(s[id], c, v).signalStrength;
    } else {
      forall j | 0 <= j < |dirs| && Offer(net, s, id, c, dirs[j]).Some?
        ensures Offer(net, s, id, c, dirs[j]).value <= o
      {
        if j > 0 {
          assert dirs[j] == rest[j - 1];
          assert !Accepted(net, s1, id, c, rest[j - 1]);
        }
      }
    }
  }

  /** The best offer of the tail is the best offer overall when the head
      offers no more. */
  lemma BestOfferExtends(net: Network, s: Signals, id: NodeId, c: PipeWire, dirs: seq<Direction>, v: int)
    requires Valid(net, s) && id in net.pipes && |dirs| > 0
    requires IsBestOffer(net, s, id, c, dirs[1..], v)
    requires Offer(net, s, id, c, dirs[0]).Some? ==> Offer(net, s, id, c, dirs[0]).value <= v
    ensures IsBestOffer(net, s, id, c, dirs, v)
  {
    var rest := dirs[1..];
    var i :| 0 <= i < |rest| && Offer(net, s, id, c, rest[i]) == Some(v);
    assert Offer(net, s, id, c, dirs[i + 1]) == Some(v);
    forall j | 0 <= j < |dirs| && Offer(net, s, id, c, dirs[j]).Some?
      ensures Offer(net, s, id, c, dirs[j]).value <= v
    {
      if j > 0 {
        assert dirs[j] == rest[j - 1];
      }
    }
  }

  // ---------------------------------------------------------------------
  // Scheduling, transmission and broadcasting loops

  /** Some gate among `gates` broadcasts colour `c`. */
  predicate AnyBroadcasts(gates: seq<Option<Gate>>, c: PipeWire)
  {
    exists i :: 0 <= i < |gates| && Broadcasts(gates[i], c)
  }

  /** The collapse schedules exactly the fully defined neighbours and touches
      nothing else. */
  lemma {:induction false} ScheduleNeighboursSpec(net: Network, s: Signals, id: NodeId, dirs: seq<Direction>)
    requires Valid(net, s)
    ensures forall n :: n in s ==>
      ScheduleNeighbours(net, s, id, dirs)[n] ==
        if n in DefinedNeighbours(net, id, dirs) then s[n].(updateScheduled := true) else s[n]
    decreases |dirs|
  {
    if dirs != [] {
      var t := PipeAt(net, id, dirs[0]);
      var s' := if t.Some? && net.pipes[t.value].fullyDefined then s[t.value := s[t.value].(updateScheduled := true)] else s;
      ScheduleNeighboursSpec(net, s', id, dirs[1..]);
    }
  }

  /**
    Step 2's loop offers `strength - 1` to each relay target (a fully defined,
    wire-connected neighbour with colour `c` installed) and leaves every other
    pipe as it was.
   */
  lemma {:induction false} TransmitLoopSpec(net: Network, s: Signals, id: NodeId, c: PipeWire, dirs: seq<Direction>)
    requires Valid(net, s) && id in net.pipes && NoSelfLoop(net, id)
    ensures forall n :: n in s ==>
      TransmitLoop(net, s, id, c, dirs)[n] ==
        if n in RelayTargets(net, id, c, dirs) then ReceiveSignal(s[n], Strength(s[id], c) - 1, c, net.hasWorld).0 else s[n]
    decreases |dirs|
  {
    if dirs != [] {
      var v := Strength(s[id], c) - 1;
      var t := RelayTarget(net, id, c, dirs[0]);
      var s' := if t.Some? then ReceiveAt(net, s, t.value, v, c).0 else s;
      assert Strength(s'[id], c) == Strength(s[id], c);
      TransmitLoopSpec(net, s', id, c, dirs[1..]);
      if t.Some? {
        ReceiveIdempotent(s[t.value], v, c, net.hasWorld);
      }
    }
  }

  /** Every broadcasting gate offers 255 and the repeated offers add nothing:
      the gate loop is one offer of 255 when some gate broadcasts `c`, and
      nothing otherwise. */
  lemma {:induction false} BroadcastLoopSpec(net: Network, s: Signals, id: NodeId, c: PipeWire, gates: seq<Option<Gate>>, read: bool)
    requires Valid(net, s) && id in net.pipes
    ensures BroadcastLoop(net, s, id, c, gates, read) ==
      if AnyBroadcasts(gates, c) then (ReceiveAt(net, s, id, MaxSignal, c).0, false) else (s, read)
    decreases |gates|
  {
    if gates != [] {
      var rest := gates[1..];
      assert AnyBroadcasts(gates, c) <==> Broadcasts(gates[0], c) || AnyBroadcasts(rest, c) by {
        if AnyBroadcasts(gates, c) && !Broadcasts(gates[0], c) {
          var i :| 0 <= i < |gates| && Broadcasts(gates[i], c);
          assert Broadcasts(rest[i - 1], c);
        }
        if AnyBroadcasts(rest, c) {
          var i :| 0 <= i < |rest| && Broadcasts(rest[i], c);
          assert Broadcasts(gates[i + 1], c);
        }
      }
      if Broadcasts(gates[0], c) {
        var s1 := ReceiveAt(net, s, id, MaxSignal, c).0;
        BroadcastLoopSpec(net, s1, id, c, rest, false);
        ReceiveIdempotent(s[id], MaxSignal, c, net.hasWorld);
        assert ReceiveAt(net, s1, id, MaxSignal, c).0 == s1;
      } else {
        BroadcastLoopSpec(net, s, id, c, rest, read);
      }
    }
  }

  // ---------------------------------------------------------------------
  // readNearbyPipesSignal as a whole

  /** When some neighbour offers at least the current strength, the strength
      rises to the best offer and nothing else but the scheduled flag changes. */
  lemma ReadNearbyRaises(net: Network, s: Signals, id: NodeId, c: PipeWire)
    requires Valid(net, s) && id in net.pipes && NoSelfLoop(net, id) && Strength(s[id], c) >= 0
    requires AnyAccepted(net, s, id, c, ValidDirections)
    ensures var r := ReadNearbyPipesSignal(net, s, id, c);
      && IsBestOffer(net, s, id, c, ValidDirections, Strength(r[id], c))
      && Strength(r[id], c) >= Strength(s[id], c)
      && r[id] == Raised(s[id], c, Strength(r[id], c))
      && forall n :: n in s && n != id ==> r[n] == s[n]
  {
    ReadLoopSpec(net, s, id, c, ValidDirections, false);
  }

  lemma {:induction false} ReadNearbyAlongIsCollapse(net: Network, s: Signals, id: NodeId, c: PipeWire, dirs: seq<Direction>)
    requires Valid(net, s) && id in net.pipes && NoSelfLoop(net, id) && Strength(s[id], c) >= 0
    requires !AnyAccepted(net, s, id, c, dirs) && Strength(s[id], c) != 0
    ensures ReadNearbyAlong(net, s, id, c, dirs) == ScheduleNeighbours(net, Zeroed(s, id, c), id, dirs)
  {
    ReadLoopNothingTaken(net, s, id, c, dirs);
  }

  lemma ReadLoopNothingTaken(net: Network, s: Signals, id: NodeId, c: PipeWire, dirs: seq<Direction>)
    requires Valid(net, s) && id in net.pipes && NoSelfLoop(net, id) && Strength(s[id], c) >= 0
    requires !AnyAccepted(net, s, id, c, dirs)
    ensures ReadLoop(net, s, id, c, dirs, false) == (s, false)
  {
    ReadLoopSpec(net, s, id, c, dirs, false);
  }

  /**
    When no neighbour offers at least a non-zero current strength, the
    strength collapses to exactly 0 (not to the best lower offer) and every
    fully defined neighbouring pipe is scheduled; nothing else changes.
   */
  lemma ReadNearbyCollapses(net: Network, s: Signals, id: NodeId, c: PipeWire)
    requires Valid(net, s) && id in net.pipes && NoSelfLoop(net, id) && Strength(s[id], c) >= 0
    requires !AnyAccepted(net, s, id, c, ValidDirections) && Strength(s[id], c) != 0
    ensures var r := ReadNearbyPipesSignal(net, s, id, c);
      && Strength(r[id], c) == 0
      && (forall c' :: c' != c ==> Strength(r[id], c') == Strength(s[id], c'))
      && r[id].updateScheduled == s[id].updateScheduled
      && forall n :: n in s && n != id ==>
        r[n] == if n in DefinedNeighbours(net, id, ValidDirections) then s[n].(updateScheduled := true) else s[n]
  {
    ReadNearbyAlongCollapses(net, s, id, c, ValidDirections);
  }

  lemma ReadNearbyAlongCollapses(net: Network, s: Signals, id: NodeId, c: PipeWire, dirs: seq<Direction>)
    requires Valid(net, s) && id in net.pipes && NoSelfLoop(net, id) && Strength(s[id], c) >= 0
    requires !AnyAccepted(net, s, id, c, dirs) && Strength(s[id], c) != 0
    ensures var r := ReadNearbyAlong(net, s, id, c, dirs);
      && Strength(r[id], c) == 0
      && (forall c' :: c' != c ==> Strength(r[id], c') == Strength(s[id], c'))
      && r[id].updateScheduled == s[id].updateScheduled
      && forall n :: n in s && n != id ==>
        r[n] == if n in DefinedNeighbours(net, id, dirs) then s[n].(updateScheduled := true) else s[n]
  {
    ReadNearbyAlongIsCollapse(net, s, id, c, dirs);
    var z := Zeroed(s, id, c);
    ScheduleNeighboursSpec(net, z, id, dirs);
    assert id !in DefinedNeighbours(net, id, dirs);
  }

  /** With no offer taken and a zero strength, reading changes nothing. */
  lemma ReadNearbyQuiet(net: Network, s: Signals, id: NodeId, c: PipeWire)
    requires Valid(net, s) && id in net.pipes && NoSelfLoop(net, id)
    requires !AnyAccepted(net, s, id, c, ValidDirections) && Strength(s[id], c) == 0
    ensures ReadNearbyPipesSignal(net, s, id, c) == s
  {
    ReadLoopSpec(net, s, id, c, ValidDirections, false);
  }

  // ---------------------------------------------------------------------
  // updateSignalStateForColor

  /**
    A gate broadcasting `c` forces the strength to 255 and the neighbour read,
    decay included, is skipped: the update is one offer of 255 followed by
    transmission.
   */
  lemma BroadcastForcesMax(net: Network, s: Signals, id: NodeId, c: PipeWire)
    requires Valid(net, s) && id in net.pipes && Wired(net.pipes[id], c)
    requires AnyBroadcasts(net.pipes[id].gates, c)
    ensures UpdateSignalStateForColor(net, s, id, c) == TransmitSignal(net, ReceiveAt(net, s, id, MaxSignal, c).0, id, c)
    ensures net.hasWorld && NoSelfLoop(net, id) && Strength(s[id], c) <= MaxSignal ==>
      Strength(UpdateSignalStateForColor(net, s, id, c)[id], c) == MaxSignal
  {
    BroadcastLoopSpec(net, s, id, c, net.pipes[id].gates, true);
    if net.hasWorld && NoSelfLoop(net, id) && Strength(s[id], c) <= MaxSignal {
      var s1 := ReceiveAt(net, s, id, MaxSignal, c).0;
      TransmitLoopSpec(net, s1, id, c, ValidDirections);
      assert id !in RelayTargets(net, id, c, ValidDirections);
    }
  }

  /** Without a broadcasting gate the update is the neighbour read followed
      by transmission. */
  lemma NoBroadcastReadsNeighbours(net: Network, s: Signals, id: NodeId, c: PipeWire)
    requires Valid(net, s) && id in net.pipes && Wired(net.pipes[id], c)
    requires !AnyBroadcasts(net.pipes[id].gates, c)
    ensures UpdateSignalStateForColor(net, s, id, c) == TransmitSignal(net, ReadNearbyPipesSignal(net, s, id, c), id, c)
  {
    BroadcastLoopSpec(net, s, id, c, net.pipes[id].gates, true);
  }

  /**
    Transmission happens only above strength 1; it offers `strength - 1` to
    every relay target and leaves every other pipe as it was.
   */
  lemma TransmitSpec(net: Network, s: Signals, id: NodeId, c: PipeWire)
    requires Valid(net, s) && id in net.pipes && NoSelfLoop(net, id)
    ensures Strength(s[id], c) <= 1 ==> TransmitSignal(net, s, id, c) == s
    ensures Strength(s[id], c) > 1 ==> forall n :: n in s ==>
      TransmitSignal(net, s, id, c)[n] ==
        if n in RelayTargets(net, id, c, ValidDirections) then ReceiveSignal(s[n], Strength(s[id], c) - 1, c, net.hasWorld).0 else s[n]
  {
    TransmitLoopSpec(net, s, id, c, ValidDirections);
  }

  /** The relay target on side `d` is offered `strength - 1`. */
  lemma TransmitReaches(net: Network, s: Signals, id: NodeId, c: PipeWire, d: Direction)
    requires Valid(net, s) && id in net.pipes && NoSelfLoop(net, id)
    requires Strength(s[id], c) > 1 && RelayTarget(net, id, c, d).Some?
    ensures var n := RelayTarget(net, id, c, d).value;
      TransmitSignal(net, s, id, c)[n] == ReceiveSignal(s[n], Strength(s[id], c) - 1, c, net.hasWorld).0
  {
    TransmitSpec(net, s, id, c);
    assert ValidDirections[Ordinal(d)] == d;
    RelayTargetIn(net, id, c, ValidDirections, d);
  }

  /** A pipe that is not next to `id` is not offered anything. */
  lemma TransmitMisses(net: Network, s: Signals, id: NodeId, c: PipeWire, n: NodeId)
    requires Valid(net, s) && id in net.pipes && NoSelfLoop(net, id)
    requires n in s && !Adjacent(net, id, n)
    ensures TransmitSignal(net, s, id, c)[n] == s[n]
  {
    TransmitSpec(net, s, id, c);
  }

  /** A whole update in which the neighbours no longer sustain the signal:
      the strength is 0 afterwards, nothing is transmitted, and the fully
      defined neighbours are scheduled. */
  lemma UpdateCollapses(net: Network, s: Signals, id: NodeId, c: PipeWire)
    requires Valid(net, s) && id in net.pipes && NoSelfLoop(net, id) && Wired(net.pipes[id], c)
    requires !AnyBroadcasts(net.pipes[id].gates, c)
    requires !AnyAccepted(net, s, id, c, ValidDirections) && Strength(s[id], c) > 0
    ensures var r := UpdateSignalStateForColor(net, s, id, c);
      && r == ReadNearbyPipesSignal(net, s, id, c)
      && Strength(r[id], c) == 0
      && forall n :: n in DefinedNeighbours(net, id, ValidDirections) ==> r[n].updateScheduled
  {
    NoBroadcastReadsNeighbours(net, s, id, c);
    ReadNearbyCollapses(net, s, id, c);
    assert id !in DefinedNeighbours(net, id, ValidDirections);
  }

  /** A whole update in which some neighbour sustains the signal: the
      strength ends at the best offer, never below where it was. */
  lemma UpdateRaises(net: Network, s: Signals, id: NodeId, c: PipeWire)
    requires Valid(net, s) && id in net.pipes && NoSelfLoop(net, id) && Wired(net.pipes[id], c)
    requires !AnyBroadcasts(net.pipes[id].gates, c)
    requires AnyAccepted(net, s, id, c, ValidDirections) && Strength(s[id], c) >= 0
    ensures var r := UpdateSignalStateForColor(net, s, id, c);
      && IsBestOffer(net, s, id, c, ValidDirections, Strength(r[id], c))
      && Strength(r[id], c) >= Strength(s[id], c)
  {
    NoBroadcastReadsNeighbours(net, s, id, c);
    ReadNearbyRaises(net, s, id, c);
    var s2 := ReadNearbyPipesSignal(net, s, id, c);
    TransmitLoopSpec(net, s2, id, c, ValidDirections);
    assert id !in RelayTargets(net, id, c, ValidDirections);
  }

  // ---------------------------------------------------------------------
  // What an update leaves alone

  /** `s'` differs from `s` only at `id` and its neighbours, and only in colour `c`. */
  predicate Confined(net: Network, s: Signals, s': Signals, id: NodeId, c: PipeWire)
  {
    s'.Keys == s.Keys && Untouched(net, s, s', id) && OtherWiresUnchanged(s, s', c)
  }

  lemma ConfinedTrans(net: Network, s: Signals, s1: Signals, s2: Signals, id: NodeId, c: PipeWire)
    requires Confined(net, s, s1, id, c) && Confined(net, s1, s2, id, c)
    ensures Confined(net, s, s2, id, c)
  {
  }

  lemma TransmitConfined(net: Network, s: Signals, id: NodeId, c: PipeWire)
    requires Valid(net, s) && id in net.pipes && NoSelfLoop(net, id)
    ensures Confined(net, s, TransmitSignal(net, s, id, c), id, c)
  {
    TransmitSpec(net, s, id, c);
  }

  lemma ReadNearbyConfined(net: Network, s: Signals, id: NodeId, c: PipeWire)
    requires Valid(net, s) && id in net.pipes && NoSelfLoop(net, id) && Strength(s[id], c) >= 0
    ensures Confined(net, s, ReadNearbyPipesSignal(net, s, id, c), id, c)
  {
    if AnyAccepted(net, s, id, c, ValidDirections) {
      RaiseConfined(net, s, id, c);
    } else if Strength(s[id], c) != 0 {
      CollapseConfined(net, s, id, c);
    } else {
      ReadNearbyQuiet(net, s, id, c);
    }
  }

  lemma RaiseConfined(net: Network, s: Signals, id: NodeId, c: PipeWire)
    requires Valid(net, s) && id in net.pipes && NoSelfLoop(net, id) && Strength(s[id], c) >= 0
    requires AnyAccepted(net, s, id, c, ValidDirections)
    ensures Confined(net, s, ReadNearbyPipesSignal(net, s, id, c), id, c)
  {
    ReadNearbyRaises(net, s, id, c);
    var r := ReadNearbyPipesSignal(net, s, id, c);
    assert forall c' :: c' != c ==> Strength(r[id], c') == Strength(s[id], c');
  }

  lemma CollapseConfined(net: Network, s: Signals, id: NodeId, c: PipeWire)
    requires Valid(net, s) && id in net.pipes && NoSelfLoop(net, id) && Strength(s[id], c) >= 0
    requires !AnyAccepted(net, s, id, c, ValidDirections) && Strength(s[id], c) != 0
    ensures Confined(net, s, ReadNearbyPipesSignal(net, s, id, c), id, c)
  {
    ReadNearbyCollapses(net, s, id, c);
    var r := ReadNearbyPipesSignal(net, s, id, c);
    forall n, c' | n in s && c' != c
      ensures Strength(r[n], c') == Strength(s[n], c')
    {
    }
  }

  /**
    One `updateSignalStateForColor` changes only the pipe itself and the
    pipes next to it, and only their strength of colour `c` (the scheduled
    flags aside).
   */
  lemma UpdateForColorConfined(net: Network, s: Signals, id: NodeId, c: PipeWire)
    requires Valid(net, s) && id in net.pipes && NoSelfLoop(net, id) && Strength(s[id], c) >= 0
    ensures Confined(net, s, UpdateSignalStateForColor(net, s, id, c), id, c)
  {
    if Wired(net.pipes[id], c) {
      var gates := net.pipes[id].gates;
      BroadcastLoopSpec(net, s, id, c, gates, true);
      if AnyBroadcasts(gates, c) {
        var s1 := ReceiveAt(net, s, id, MaxSignal, c).0;
        TransmitConfined(net, s1, id, c);
        ConfinedTrans(net, s, s1, TransmitSignal(net, s1, id, c), id, c);
      } else {
        var s2 := ReadNearbyPipesSignal(net, s, id, c);
        ReadNearbyConfined(net, s, id, c);
        TransmitConfined(net, s2, id, c);
        ConfinedTrans(net, s, s2, TransmitSignal(net, s2, id, c), id, c);
      }
    }
  }

  lemma {:induction false} UpdateWiresUntouched(net: Network, s: Signals, id: NodeId, wires: seq<PipeWire>)
    requires Consistent(net, s) && id in net.pipes && NoSelfLoop(net, id)
    ensures Untouched(net, s, UpdateWires(net, s, id, wires), id)
    decreases |wires|
  {
    if wires != [] {
      var s1 := UpdateSignalStateForColor(net, s, id, wires[0]);
      UpdateForColorConfined(net, s, id, wires[0]);
      UpdateForColorConsistent(net, s, id, wires[0]);
      UpdateWiresUntouched(net, s1, id, wires[1..]);
    }
  }

  /** A whole `updateSignalState` changes only the pipe itself and its neighbours. */
  lemma UpdateSignalStateUntouched(net: Network, s: Signals, id: NodeId)
    requires Consistent(net, s) && id in net.pipes && NoSelfLoop(net, id)
    ensures Untouched(net, s, UpdateSignalState(net, s, id), id)
  {
    UpdateWiresUntouched(net, s, id, Wires);
  }

  // ---------------------------------------------------------------------
  // The strength invariant

  lemma ReceiveAtConsistent(net: Network, s: Signals, n: NodeId, v: int, c: PipeWire)
    requires Consistent(net, s) && n in s && v <= MaxSignal && Wired(net.pipes[n], c)
    ensures Consistent(net, ReceiveAt(net, s, n, v, c).0)
  {
  }

  lemma {:induction false} ReadLoopConsistent(net: Network, s: Signals, id: NodeId, c: PipeWire, dirs: seq<Direction>, found: bool)
    requires Consistent(net, s) && id in net.pipes && Wired(net.pipes[id], c)
    ensures Consistent(net, ReadLoop(net, s, id, c, dirs, found).0)
    decreases |dirs|
  {
    if dirs != [] {
      match Offer(net, s, id, c, dirs[0])
      case None =>
        ReadLoopConsistent(net, s, id, c, dirs[1..], found);
      case Some(o) =>
        var (s', ok) := ReceiveAt(net, s, id, o, c);
        ReceiveAtConsistent(net, s, id, o, c);
        ReadLoopConsistent(net, s', id, c, dirs[1..], found || ok);
    }
  }

  lemma {:induction false} ScheduleNeighboursConsistent(net: Network, s: Signals, id: NodeId, dirs: seq<Direction>)
    requires Consistent(net, s)
    ensures Consistent(net, ScheduleNeighbours(net, s, id, dirs))
  {
    var r := ScheduleNeighbours(net, s, id, dirs);
    forall n, c | n in r
      ensures 0 <= Strength(r[n], c) <= MaxSignal && (Strength(r[n], c) > 0 ==> Wired(net.pipes[n], c))
    {
      assert Strength(r[n], c) == Strength(s[n], c);
    }
  }

  lemma ReadNearbyConsistent(net: Network, s: Signals, id: NodeId, c: PipeWire)
    requires Consistent(net, s) && id in net.pipes && Wired(net.pipes[id], c)
    ensures Consistent(net, ReadNearbyPipesSignal(net, s, id, c))
  {
    var read := ReadLoop(net, s, id, c, ValidDirections, false);
    ReadLoopConsistent(net, s, id, c, ValidDirections, false);
    if !read.1 && Strength(read.0[id], c) != 0 {
      ScheduleNeighboursConsistent(net, Zeroed(read.0, id, c), id, ValidDirections);
    }
  }

  lemma {:induction false} TransmitLoopConsistent(net: Network, s: Signals, id: NodeId, c: PipeWire, dirs: seq<Direction>)
    requires Consistent(net, s) && id in net.pipes
    ensures Consistent(net, TransmitLoop(net, s, id, c, dirs))
    decreases |dirs|
  {
    if dirs != [] {
      match RelayTarget(net, id, c, dirs[0])
      case None =>
        TransmitLoopConsistent(net, s, id, c, dirs[1..]);
      case Some(n) =>
        var s' := ReceiveAt(net, s, n, Strength(s[id], c) - 1, c).0;
        ReceiveAtConsistent(net, s, n, Strength(s[id], c) - 1, c);
        TransmitLoopConsistent(net, s', id, c, dirs[1..]);
    }
  }

  lemma TransmitSignalConsistent(net: Network, s: Signals, id: NodeId, c: PipeWire)
    requires Consistent(net, s) && id in net.pipes
    ensures Consistent(net, TransmitSignal(net, s, id, c))
  {
    if Strength(s[id], c) > 1 {
      TransmitLoopConsistent(net, s, id, c, ValidDirections);
    }
  }

  /** `updateSignalStateForColor` keeps every strength in [0, 255] and
      non-zero only on installed colours. */
  lemma UpdateForColorConsistent(net: Network, s: Signals, id: NodeId, c: PipeWire)
    requires Consistent(net, s) && id in net.pipes
    ensures Consistent(net, UpdateSignalStateForColor(net, s, id, c))
  {
    if Wired(net.pipes[id], c) {
      var gates := net.pipes[id].gates;
      BroadcastLoopSpec(net, s, id, c, gates, true);
      var b := BroadcastLoop(net, s, id, c, gates, true);
      if AnyBroadcasts(gates, c) {
        ReceiveAtConsistent(net, s, id, MaxSignal, c);
      }
      var s2 := if b.1 then ReadNearbyPipesSignal(net, b.0, id, c) else b.0;
      if b.1 {
        ReadNearbyConsistent(net, b.0, id, c);
      }
      TransmitSignalConsistent(net, s2, id, c);
    }
  }

  lemma {:induction false} UpdateWiresConsistent(net: Network, s: Signals, id: NodeId, wires: seq<PipeWire>)
    requires Consistent(net, s) && id in net.pipes
    ensures Consistent(net, UpdateWires(net, s, id, wires))
    decreases |wires|
  {
    if wires != [] {
      UpdateForColorConsistent(net, s, id, wires[0]);
      UpdateWiresConsistent(net, UpdateSignalStateForColor(net, s, id, wires[0]), id, wires[1..]);
    }
  }

  /** The scheduled-update step of `updateEntity` keeps the strength invariant. */
  lemma ScheduledUpdateConsistent(net: Network, s: Signals, id: NodeId)
    requires Consistent(net, s) && id in net.pipes
    ensures Consistent(net, ScheduledUpdate(net, s, id))
  {
    UpdateWiresConsistent(net, s, id, Wires);
  }

}
