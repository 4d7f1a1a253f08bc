/**
 * Regions, the board, and the legal-attack relation between regions
 * (src/game.rs: `Board`, `Region`, `Region::is_opponent`).
 */
module Game {
  import opened HexGrid

  /** One territory: its footprint, owner (0-based player), dice count and id. */
  datatype Region = Region(hexes: seq<Hex>, owner: nat, numDice: nat, id: nat)

  /** The hex-to-owner map and the regions in creation order. */
  datatype Board = Board(hexes: map<Hex, nat>, regions: seq<Region>)

  /** Some axial neighbour of `h` is one of `s`. */
  predicate AdjacentToAny(h: Hex, s: seq<Hex>)
  {
    exists n :: n in Neighbors(h) && n in s
  }

  /** The legal-attack relation: different owners and touching footprints. */
  predicate AreOpponents(a: Region, b: Region)
  {
    a.owner != b.owner && exists h :: h in a.hexes && AdjacentToAny(h, b.hexes)
  }

  /** `Region::is_opponent`: the owner test, then a scan of every hex's neighbours. */
  method IsOpponent(self: Region, other: Region) returns (b: bool)
    ensures b <==> AreOpponents(self, other)
  {
    if self.owner == other.owner {
      return false;
    }
    for i := 0 to |self.hexes|
      invariant forall k :: 0 <= k < i ==> !AdjacentToAny(self.hexes[k], other.hexes)
    {
      var hex := self.hexes[i];
      var neighbours := Neighbors(hex);
      for j := 0 to |neighbours|
        invariant forall m :: 0 <= m < j ==> neighbours[m] !in other.hexes
      {
        if neighbours[j] in other.hexes {
          assert AdjacentToAny(hex, other.hexes);
          return true;
        }
      }
    }
    return false;
  }

  /** Opponency is symmetric because the neighbour relation is. */
  lemma OpponentSymmetric(a: Region, b: Region)
    ensures AreOpponents(a, b) <==> AreOpponents(b, a)
  {
    if AreOpponents(a, b) {
      var h :| h in a.hexes && AdjacentToAny(h, b.hexes);
      var n :| n in Neighbors(h) && n in b.hexes;
      NeighborSymmetric(h, n);
      assert AdjacentToAny(n, a.hexes);
    }
    if AreOpponents(b, a) {
      var h :| h in b.hexes && AdjacentToAny(h, a.hexes);
      var n :| n in Neighbors(h) && n in a.hexes;
      NeighborSymmetric(h, n);
      assert AdjacentToAny(n, b.hexes);
    }
  }

  ghost function Elems(s: seq<Hex>): set<Hex>
  {
    set i | 0 <= i < |s| :: s[i]
  }

  /** Every hex of every region, as a set. */
  ghost function Footprint(rs: seq<Region>): set<Hex>
  {
    if |rs| == 0 then {} else Footprint(rs[..|rs| - 1]) + Elems(rs[|rs| - 1].hexes)
  }

  /** A hex is in the footprint exactly when some region lists it. */
  lemma {:induction false} FootprintMember(rs: seq<Region>, h: Hex)
    ensures h in Footprint(rs) <==> exists i :: 0 <= i < |rs| && h in rs[i].hexes
  {
    if |rs| > 0 {
      var init := rs[..|rs| - 1];
      FootprintMember(init, h);
      if h in Footprint(init) {
        var i :| 0 <= i < |init| && h in init[i].hexes;
        assert rs[i] == init[i];
      }
      if i :| 0 <= i < |rs| && h in rs[i].hexes {
        if i < |rs| - 1 {
          assert init[i] == rs[i];
        }
      }
    }
  }

  /** The footprint depends only on the regions' hexes. */
  lemma {:induction false} FootprintSameHexes(rs: seq<Region>, ts: seq<Region>)
    requires |rs| == |ts|
    requires forall i :: 0 <= i < |rs| ==> rs[i].hexes == ts[i].hexes
    ensures Footprint(rs) == Footprint(ts)
  {
    if |rs| > 0 {
      FootprintSameHexes(rs[..|rs| - 1], ts[..|ts| - 1]);
    }
  }

  ghost predicate Disjoint(a: seq<Hex>, b: seq<Hex>)
  {
    forall h :: h in a ==> h !in b
  }

  /** Region ids equal their index in the region list. */
  ghost predicate IdsMatch(rs: seq<Region>)
  {
    forall i :: 0 <= i < |rs| ==> rs[i].id == i
  }

  /**
   * The footprint part of the board invariant: the map's keys are exactly
   * the hexes of the regions, and no hex is in two regions.
   */
  ghost predicate Partition(b: Board)
  {
    && b.hexes.Keys == Footprint(b.regions)
    && forall i, j :: 0 <= i < j < |b.regions| ==> Disjoint(b.regions[i].hexes, b.regions[j].hexes)
  }

  /** Every region hex maps to that region's owner. */
  ghost predicate OwnersAgree(b: Board)
  {
    forall i, h :: 0 <= i < |b.regions| && h in b.regions[i].hexes ==>
      h in b.hexes && b.hexes[h] == b.regions[i].owner
  }

  /** Number of regions owned by `p`. */
  function CountOwned(rs: seq<Region>, p: nat): nat
  {
    if |rs| == 0 then 0
    else CountOwned(rs[..|rs| - 1], p) + (if rs[|rs| - 1].owner == p then 1 else 0)
  }

  /** Total dice on the regions owned by `p`. */
  function SumDice(rs: seq<Region>, p: nat): nat
  {
    if |rs| == 0 then 0
    else SumDice(rs[..|rs| - 1], p) + (if rs[|rs| - 1].owner == p then rs[|rs| - 1].numDice else 0)
  }

  /** An owner holds every region exactly when its count is the region total. */
  lemma {:induction false} CountOwnedAll(rs: seq<Region>, p: nat)
    ensures CountOwned(rs, p) <= |rs|
    ensures CountOwned(rs, p) == |rs| <==> forall i :: 0 <= i < |rs| ==> rs[i].owner == p
  {
    if |rs| > 0 {
      var init := rs[..|rs| - 1];
      CountOwnedAll(init, p);
      if CountOwned(rs, p) == |rs| {
        forall i | 0 <= i < |rs| ensures rs[i].owner == p {
          if i < |rs| - 1 { assert rs[i] == init[i]; }
        }
      }
      if forall i :: 0 <= i < |rs| ==> rs[i].owner == p {
        assert forall i :: 0 <= i < |init| ==> init[i] == rs[i];
      }
    }
  }

  /** Counting over a longer prefix never gives less. */
  lemma {:induction false} CountOwnedPrefix(rs: seq<Region>, i: nat, p: nat)
    requires i <= |rs|
    ensures CountOwned(rs[..i], p) <= CountOwned(rs, p)
    decreases |rs| - i
  {
    if i < |rs| {
      CountOwnedPrefix(rs, i + 1, p);
      assert rs[..i + 1][..i] == rs[..i];
    } else {
      assert rs[..i] == rs;
    }
  }

  /** A player's dice never exceed `cap` per owned region when every region has at most `cap`. */
  lemma {:induction false} SumDiceBound(rs: seq<Region>, p: nat, cap: nat)
    requires forall i :: 0 <= i < |rs| ==> rs[i].numDice <= cap
    ensures SumDice(rs, p) <= cap * CountOwned(rs, p)
  {
    if |rs| > 0 {
      SumDiceBound(rs[..|rs| - 1], p, cap);
    }
  }
}
