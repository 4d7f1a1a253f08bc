/**
 * Axial hex coordinates and the six-neighbour relation on which region
 * adjacency, opponent detection and patch growth are all built.
 * The game's `hex` module is not part of this model; the neighbour
 * directions are the six axial unit steps.
 */
module HexGrid {

  datatype Hex = Hex(q: int, r: int)

  function Abs(x: int): nat { if x < 0 then -x else x }

  /** Axial (hex) distance: the independent reference for adjacency. */
  function Distance(a: Hex, b: Hex): nat
  {
    var dq, dr := b.q - a.q, b.r - a.r;
    (Abs(dq) + Abs(dr) + Abs(dq + dr)) / 2
  }

  /** The six axial neighbours: (+1,0), (+1,-1), (0,-1), (-1,0), (-1,+1), (0,+1). */
  function Neighbors(h: Hex): (ns: seq<Hex>)
    ensures |ns| == 6
    ensures h !in ns
    ensures forall i, j :: 0 <= i < j < |ns| ==> ns[i] != ns[j]
  {
    [Hex(h.q + 1, h.r), Hex(h.q + 1, h.r - 1), Hex(h.q, h.r - 1),
     Hex(h.q - 1, h.r), Hex(h.q - 1, h.r + 1), Hex(h.q, h.r + 1)]
  }

  /** The neighbours are exactly the hexes at axial distance one. */
  lemma NeighborsAtDistanceOne(h: Hex, n: Hex)
    ensures n in Neighbors(h) <==> Distance(h, n) == 1
  {
    if Distance(h, n) == 1 {
      var dq, dr := n.q - h.q, n.r - h.r;
      assert n == Hex(h.q + dq, h.r + dr);
    }
  }

  /** The neighbour relation is closed under reversal. */
  lemma NeighborSymmetric(a: Hex, b: Hex)
    ensures b in Neighbors(a) <==> a in Neighbors(b)
  {
    NeighborsAtDistanceOne(a, b);
    NeighborsAtDistanceOne(b, a);
  }
}
