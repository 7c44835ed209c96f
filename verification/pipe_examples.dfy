/**
  A worked example: three pipes in a row, A–B–C, all carrying red wire, with
  a gate at A broadcasting red. A's update drives A to 255 and offers 254 to
  B; B's update then keeps 254 and offers 253 to C.
 */
module PipeExamples {

  import opened Options
  import opened Directions
  import opened Pipe
  import opened PipeSignalProofs

  /** Red-wired, fully defined pipes `a`, `b`, `c` in a row, `a` west of `b`
      and `c` east of it, wire-connected both ways, with nothing else next to
      them; a gate of `a` broadcasts red and none of `b` does. */
  predicate RedLine(net: Network, a: NodeId, b: NodeId, c: NodeId)
  {
    && a != b && b != c && a != c
    && a in net.pipes && b in net.pipes && c in net.pipes
    && net.hasWorld
    && net.pipes[a].fullyDefined && net.pipes[b].fullyDefined && net.pipes[c].fullyDefined
    && Wired(net.pipes[a], Red) && Wired(net.pipes[b], Red) && Wired(net.pipes[c], Red)
    && (forall d :: PipeAt(net, a, d) == if d == East then Some(b) else None)
    && (forall d :: PipeAt(net, b, d) == if d == West then Some(a) else if d == East then Some(c) else None)
    && IsWireConnectedTo(net, a, Some(b), Red)
    && IsWireConnectedTo(net, b, Some(a), Red)
    && IsWireConnectedTo(net, b, Some(c), Red)
    && AnyBroadcasts(net.pipes[a].gates, Red)
    && !AnyBroadcasts(net.pipes[b].gates, Red)
  }

  /** Who transmits to whom along the line. */
  lemma LineLinks(net: Network, a: NodeId, b: NodeId, c: NodeId)
    requires RedLine(net, a, b, c)
    ensures NoSelfLoop(net, a) && NoSelfLoop(net, b) && !Adjacent(net, a, c)
    ensures RelayTarget(net, a, Red, East) == Some(b)
    ensures RelayTarget(net, b, Red, East) == Some(c) && RelayTarget(net, b, Red, West) == Some(a)
  {
    assert PipeAt(net, a, East) == Some(b);
    assert PipeAt(net, b, East) == Some(c) && PipeAt(net, b, West) == Some(a);
  }

  /** A's update drives A to 255. */
  lemma FirstStepAtA(net: Network, s: Signals, a: NodeId, b: NodeId, c: NodeId)
    requires RedLine(net, a, b, c) && Valid(net, s) && Strength(s[a], Red) == 0
    ensures Strength(UpdateSignalStateForColor(net, s, a, Red)[a], Red) == 255
  {
    assert NoSelfLoop(net, a);
    BroadcastForcesMax(net, s, a, Red);
  }

  /** A's update offers 254 to B, which takes it, and leaves C untouched. */
  lemma FirstStepAround(net: Network, s: Signals, a: NodeId, b: NodeId, c: NodeId)
    requires RedLine(net, a, b, c) && Valid(net, s)
    requires Strength(s[a], Red) == 0 && Strength(s[b], Red) == 0
    ensures var s1 := UpdateSignalStateForColor(net, s, a, Red);
      Strength(s1[b], Red) == 254 && s1[b].updateScheduled && s1[c] == s[c]
  {
    LineLinks(net, a, b, c);
    BroadcastForcesMax(net, s, a, Red);
    var sA := ReceiveAt(net, s, a, MaxSignal, Red).0;
    TransmitReaches(net, sA, a, Red, East);
    TransmitMisses(net, sA, a, Red, c);
  }

  /** B hears 254 from A and -1 from C, and nothing on its other sides. */
  lemma OffersToB(net: Network, s1: Signals, a: NodeId, b: NodeId, c: NodeId)
    requires RedLine(net, a, b, c) && Valid(net, s1)
    requires Strength(s1[a], Red) == 255 && Strength(s1[c], Red) == 0
    ensures Offer(net, s1, b, Red, West) == Some(254)
    ensures forall d :: Offer(net, s1, b, Red, d).Some? ==> Offer(net, s1, b, Red, d).value <= 254
  {
  }

  /** B's neighbour read keeps 254 and changes no other pipe. */
  lemma SecondStepRead(net: Network, s1: Signals, a: NodeId, b: NodeId, c: NodeId)
    requires RedLine(net, a, b, c) && Valid(net, s1)
    requires Strength(s1[a], Red) == 255 && Strength(s1[b], Red) == 254 && Strength(s1[c], Red) == 0
    ensures var sB := ReadNearbyPipesSignal(net, s1, b, Red);
      Strength(sB[b], Red) == 254 && sB[a] == s1[a] && sB[c] == s1[c]
  {
    assert NoSelfLoop(net, b);
    OffersToB(net, s1, a, b, c);
    assert Accepted(net, s1, b, Red, ValidDirections[4]);
    ReadNearbyRaises(net, s1, b, Red);
  }

  /** B's update after A's: B keeps 254 and offers 253 to C, and A keeps 255. */
  lemma SecondStep(net: Network, s1: Signals, a: NodeId, b: NodeId, c: NodeId)
    requires RedLine(net, a, b, c) && Valid(net, s1)
    requires Strength(s1[a], Red) == 255 && Strength(s1[b], Red) == 254 && Strength(s1[c], Red) == 0
    ensures var s2 := UpdateSignalStateForColor(net, s1, b, Red);
      Strength(s2[a], Red) == 255 && Strength(s2[b], Red) == 254 && Strength(s2[c], Red) == 253
  {
    LineLinks(net, a, b, c);
    NoBroadcastReadsNeighbours(net, s1, b, Red);
    SecondStepRead(net, s1, a, b, c);
    var sB := ReadNearbyPipesSignal(net, s1, b, Red);
    TransmitReaches(net, sB, b, Red, East);
    TransmitReaches(net, sB, b, Red, West);
    TransmitMisses(net, sB, b, Red, b);
  }

  /** Two updates, A's then B's, starting from silence: 255, 254, 253. */
  lemma LineSettles(net: Network, s: Signals, a: NodeId, b: NodeId, c: NodeId)
    requires RedLine(net, a, b, c) && Valid(net, s)
    requires Strength(s[a], Red) == 0 && Strength(s[b], Red) == 0 && Strength(s[c], Red) == 0
    ensures var s1 := UpdateSignalStateForColor(net, s, a, Red);
      var s2 := UpdateSignalStateForColor(net, s1, b, Red);
      Strength(s2[a], Red) == 255 && Strength(s2[b], Red) == 254 && Strength(s2[c], Red) == 253
  {
    FirstStepAtA(net, s, a, b, c);
    FirstStepAround(net, s, a, b, c);
    SecondStep(net, UpdateSignalStateForColor(net, s, a, Red), a, b, c);
  }

}
