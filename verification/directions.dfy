/**
  The six valid sides of a block (the host's `ForgeDirection.VALID_DIRECTIONS`)
  and the four wire colours (`PipeWire`), in their declaration order.
 */
module Directions {

  datatype Direction = Down | Up | North | South | West | East

  /** The iteration order of `VALID_DIRECTIONS`. */
  const ValidDirections: seq<Direction> := [Down, Up, North, South, West, East]

  function Ordinal(d: Direction): (n: nat)
    ensures n < 6 && ValidDirections[n] == d
  {
    match d
    case Down => 0
    case Up => 1
    case North => 2
    case South => 3
    case West => 4
    case East => 5
  }

  function Opposite(d: Direction): (r: Direction)
    ensures r != d
  {
    match d
    case Down => Up
    case Up => Down
    case North => South
    case South => North
    case West => East
    case East => West
  }

  lemma OppositeIsInvolution(d: Direction)
    ensures Opposite(Opposite(d)) == d
  {
  }

  datatype PipeWire = Red | Blue | Green | Yellow

  /** The iteration order of `PipeWire.values()`. */
  const Wires: seq<PipeWire> := [Red, Blue, Green, Yellow]

  function WireOrdinal(c: PipeWire): (n: nat)
    ensures n < 4 && Wires[n] == c
  {
    match c
    case Red => 0
    case Blue => 1
    case Green => 2
    case Yellow => 3
  }

}
