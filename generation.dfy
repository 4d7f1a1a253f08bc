/**
 * Procedural territory generation (src/game.rs `generate_board`).
 *
 * Randomness is a caller-supplied stream `draws: nat -> nat` read at a
 * running position `t`; every `gen_range(lo..hi)` takes the next draw
 * folded into `[lo, hi)`, so every property proved here holds for every
 * possible sequence of random choices. The unbounded retry loop of
 * `generate_board` is capped at `maxAttempts` tries per (patch, player) slot.
 */
module Generation {
  import opened Wrappers
  import opened HexGrid
  import opened Game

  const BOARD_SIZE: int := 20
  const NUMBER_OF_PATCHES: nat := 16
  const HALF_BOARD_SIZE: int := BOARD_SIZE / 2 - 1
  /** Each player's initial dice budget. */
  const DICE_BUDGET: nat := NUMBER_OF_PATCHES * 4

  datatype GenError = InvalidPlayerCount | GenerationFailed

  /**
   * Roughly half of the board is covered by patches: the largest patch size
   * whose `NUMBER_OF_PATCHES` patches per player fit in half the board.
   */
  function PatchSize(numberOfPlayers: nat): (size: nat)
    requires numberOfPlayers >= 1
    ensures 2 * (NUMBER_OF_PATCHES * numberOfPlayers * size) <= BOARD_SIZE * BOARD_SIZE
    ensures BOARD_SIZE * BOARD_SIZE < 2 * (NUMBER_OF_PATCHES * numberOfPlayers * (size + 1))
  {
    (BOARD_SIZE * BOARD_SIZE) / (NUMBER_OF_PATCHES * numberOfPlayers * 2)
  }

  /** `rng.gen_range(lo..hi)`: the draw at position `t`, folded into `[lo, hi)`. */
  function GenRange(draws: nat -> nat, t: nat, lo: int, hi: int): (x: int)
    requires lo < hi
    ensures lo <= x < hi
  {
    lo + draws(t) % (hi - lo)
  }

  /** Every value of the range is the outcome of some draw stream. */
  lemma GenRangeCovers(t: nat, lo: int, hi: int, x: int)
    requires lo <= x < hi
    ensures GenRange(_ => (x - lo) as nat, t, lo, hi) == x
  {
  }

  /** A seed hex lies in the square sampling window. */
  ghost predicate InWindow(h: Hex)
  {
    -HALF_BOARD_SIZE <= h.q < HALF_BOARD_SIZE && -HALF_BOARD_SIZE <= h.r < HALF_BOARD_SIZE
  }

  ghost predicate Distinct(s: seq<Hex>)
  {
    forall i, j :: 0 <= i < j < |s| ==> s[i] != s[j]
  }

  /** The hex at position `i` neighbours a hex placed before it. */
  ghost predicate GrownFromEarlier(s: seq<Hex>, i: int)
    requires 0 <= i < |s|
  {
    exists j :: 0 <= j < i && s[i] in Neighbors(s[j])
  }

  /** Growth order: every hex after the seed neighbours an earlier hex. */
  ghost predicate GrownConnected(s: seq<Hex>)
  {
    forall i :: 0 < i < |s| ==> GrownFromEarlier(s, i)
  }

  /** A walk through `s` along neighbour steps. */
  ghost predicate IsWalk(s: seq<Hex>, w: seq<Hex>)
  {
    && |w| >= 1
    && (forall k :: 0 <= k < |w| ==> w[k] in s)
    && (forall k :: 0 < k < |w| ==> w[k] in Neighbors(w[k - 1]))
  }

  /** Some hex of `h`'s neighbours is not yet taken. */
  predicate HasFreeNeighbour(h: Hex, taken: map<Hex, nat>)
  {
    exists n :: n in Neighbors(h) && n !in taken
  }

  /** Some neighbour of `h` is in `placed`. */
  ghost predicate AdjacentToAnySet(h: Hex, placed: set<Hex>)
  {
    exists n :: n in Neighbors(h) && n in placed
  }

  /** Some hex of `patch` neighbours a hex of `placed`. */
  ghost predicate Touches(patch: seq<Hex>, placed: set<Hex>)
  {
    exists h :: h in patch && AdjacentToAnySet(h, placed)
  }

  /** The working snapshot: the board's map plus the patch, stamped with the player. */
  ghost predicate SnapshotOf(base: map<Hex, nat>, patch: seq<Hex>, player: nat, snapshot: map<Hex, nat>)
  {
    && snapshot.Keys == base.Keys + Elems(patch)
    && (forall h :: h in base ==> snapshot[h] == base[h])
    && (forall k :: 0 <= k < |patch| ==> snapshot[patch[k]] == player)
  }

  /** The shape of an accepted patch. */
  ghost predicate GrownPatch(s: seq<Hex>, patchSize: nat)
  {
    && 2 <= |s| <= patchSize + 1
    && Distinct(s) && GrownConnected(s) && InWindow(s[0])
  }

  /** Every region after the first touched the land placed before it. */
  ghost predicate Landmass(rs: seq<Region>)
  {
    forall i :: 0 < i < |rs| ==> Touches(rs[i].hexes, Footprint(rs[..i]))
  }

  /** The board invariant maintained while patches are placed. */
  ghost predicate Layout(b: Board, n: nat, patchSize: nat)
  {
    && IdsMatch(b.regions)
    && (forall i :: 0 <= i < |b.regions| ==>
          b.regions[i].owner < n && b.regions[i].numDice == 0 && GrownPatch(b.regions[i].hexes, patchSize))
    && Partition(b) && OwnersAgree(b) && Landmass(b.regions)
  }

  /** `b'` is `b` with one accepted patch appended as a new region of `player`. */
  ghost predicate Accepted(b: Board, b': Board, player: nat, patchSize: nat, exempt: bool)
  {
    && |b'.regions| == |b.regions| + 1
    && b'.regions[..|b.regions|] == b.regions
    && var r := b'.regions[|b.regions|];
       && r.owner == player && r.numDice == 0 && r.id == |b.regions|
       && GrownPatch(r.hexes, patchSize)
       && (forall k :: 0 <= k < |r.hexes| ==> r.hexes[k] !in b.hexes)
       && (exempt || Touches(r.hexes, b.hexes.Keys))
       && SnapshotOf(b.hexes, r.hexes, player, b'.hexes)
  }

  /** The first region is player 0's: only the very first slot may skip the touch test. */
  ghost predicate FirstOwnedByZero(rs: seq<Region>)
  {
    |rs| > 0 ==> rs[0].owner == 0
  }

  /** The finished board: layout, dice bounds and per-player limits. */
  ghost predicate GeneratedBoard(b: Board, n: nat)
    requires n >= 1
  {
    && IdsMatch(b.regions)
    && Partition(b) && OwnersAgree(b) && Landmass(b.regions)
    && FirstOwnedByZero(b.regions)
    && |b.regions| <= NUMBER_OF_PATCHES * n
    && (forall i :: 0 <= i < |b.regions| ==>
          && b.regions[i].owner < n
          && GrownPatch(b.regions[i].hexes, PatchSize(n))
          && 1 <= b.regions[i].numDice <= 3)
    && (forall p :: 0 <= p < n ==>
          CountOwned(b.regions, p) <= NUMBER_OF_PATCHES && SumDice(b.regions, p) <= DICE_BUDGET)
  }

  /** The patch visited as a rotation starting at offset `start`. */
  function VisitOrder(patch: seq<Hex>, start: nat): (order: seq<Hex>)
    requires start <= |patch|
    ensures |order| == |patch|
    ensures forall k :: 0 <= k < |patch| ==> patch[k] in order
    ensures forall m :: 0 <= m < |order| ==> order[m] in patch
  {
    patch[start..] + patch[..start]
  }

  /**
   * The scan for a border hex: the first hex with a free neighbour is
   * returned. `generate_board` scans the patch in order; the model starts the
   * scan at a drawn offset `start`, which includes the in-order scan (start 0).
   */
  method FindBorderHex(patch: seq<Hex>, snapshot: map<Hex, nat>, start: nat) returns (found: Option<Hex>)
    requires start < |patch|
    ensures found.Some? ==> found.value in patch && HasFreeNeighbour(found.value, snapshot)
    ensures found.Some? ==> exists m ::
              && 0 <= m < |patch| && found.value == VisitOrder(patch, start)[m]
              && forall m' :: 0 <= m' < m ==> !HasFreeNeighbour(VisitOrder(patch, start)[m'], snapshot)
    ensures found.None? ==> forall k :: 0 <= k < |patch| ==> !HasFreeNeighbour(patch[k], snapshot)
    ensures HasFreeNeighbour(patch[start], snapshot) ==> found == Some(patch[start])
  {
    var n := |patch|;
    var order := VisitOrder(patch, start);
    for i := 0 to n
      invariant forall m :: 0 <= m < i ==> !HasFreeNeighbour(order[m], snapshot)
    {
      var hex := order[i];
      var neighbours := Neighbors(hex);
      for j := 0 to |neighbours|
        invariant forall m :: 0 <= m < j ==> neighbours[m] in snapshot
      {
        if neighbours[j] !in snapshot {
          assert order[0] == patch[start];
          assert hex == order[i];
          return Some(hex);
        }
      }
      assert !HasFreeNeighbour(hex, snapshot);
    }
    forall k | 0 <= k < n ensures !HasFreeNeighbour(patch[k], snapshot) {
      if k >= start {
        assert order[k - start] == patch[k];
      } else {
        assert order[n - start + k] == patch[k];
      }
    }
    return None;
  }

  /** The neighbours of `hex` that are not yet taken, in neighbour order. */
  method FreeNeighbours(hex: Hex, snapshot: map<Hex, nat>) returns (candidates: seq<Hex>)
    ensures forall c :: c in candidates <==> c in Neighbors(hex) && c !in snapshot
    ensures HasFreeNeighbour(hex, snapshot) <==> |candidates| > 0
  {
    candidates := [];
    var neighbours := Neighbors(hex);
    for j := 0 to |neighbours|
      invariant forall c :: c in candidates <==> exists m :: 0 <= m < j && c == neighbours[m] && c !in snapshot
    {
      if neighbours[j] !in snapshot {
        candidates := candidates + [neighbours[j]];
      }
    }
    if HasFreeNeighbour(hex, snapshot) {
      var c :| c in Neighbors(hex) && c !in snapshot;
      assert c in candidates;
    }
    if |candidates| > 0 {
      assert candidates[0] in candidates;
    }
  }

  /**
   * Grows a patch from `seed` by up to `patchSize` hexes. Each step takes a
   * border hex of the patch and adds one of its free neighbours, chosen by
   * a draw; growth stops early when no patch hex has a free neighbour.
   */
  method GrowPatch(base: map<Hex, nat>, seed: Hex, player: nat, patchSize: nat, draws: nat -> nat, t0: nat)
    returns (patch: seq<Hex>, snapshot: map<Hex, nat>, t: nat)
    requires seed !in base
    ensures 1 <= |patch| <= patchSize + 1 && patch[0] == seed
    ensures Distinct(patch) && GrownConnected(patch)
    ensures forall k :: 0 <= k < |patch| ==> patch[k] !in base
    ensures SnapshotOf(base, patch, player, snapshot)
    ensures |patch| <= patchSize ==> forall k :: 0 <= k < |patch| ==> !HasFreeNeighbour(patch[k], snapshot)
  {
    snapshot := base[seed := player];
    patch := [seed];
    SeedSnapshot(base, seed, player);
    t := t0;
    var step := 0;
    var stuck := false;
    while step < patchSize && !stuck
      invariant 0 <= step <= patchSize
      invariant |patch| == step + 1 && patch[0] == seed
      invariant Distinct(patch) && GrownConnected(patch)
      invariant forall k :: 0 <= k < |patch| ==> patch[k] !in base
      invariant SnapshotOf(base, patch, player, snapshot)
      invariant stuck ==> forall k :: 0 <= k < |patch| ==> !HasFreeNeighbour(patch[k], snapshot)
      decreases patchSize - step, if stuck then 0 else 1
    {
      var border := FindBorderHex(patch, snapshot, draws(t) % |patch|);
      t := t + 1;
      match border {
        case None =>
          stuck := true;
        case Some(hex) =>
          var candidates := FreeNeighbours(hex, snapshot);
          var candidate := candidates[draws(t) % |candidates|];
          t := t + 1;
          assert candidate !in snapshot;
          var j :| 0 <= j < |patch| && patch[j] == hex;
          GrowStep(base, patch, player, snapshot, candidate, j);
          patch := patch + [candidate];
          snapshot := snapshot[candidate := player];
          step := step + 1;
      }
    }
  }

  /** The one-hex patch and the snapshot that holds its seed. */
  lemma SeedSnapshot(base: map<Hex, nat>, seed: Hex, player: nat)
    requires seed !in base
    ensures SnapshotOf(base, [seed], player, base[seed := player])
    ensures Distinct([seed]) && GrownConnected([seed])
  {
    assert Elems([seed]) == {seed} by {
      assert [seed][0] == seed;
    }
  }

  /** The element set of a sequence grows by exactly the appended hex. */
  lemma ElemsAppend(s: seq<Hex>, c: Hex)
    ensures Elems(s + [c]) == Elems(s) + {c}
  {
    var p := s + [c];
    forall h | h in Elems(p) ensures h in Elems(s) + {c} {
      var i :| 0 <= i < |p| && p[i] == h;
      if i < |s| { assert s[i] == h; }
    }
    forall h | h in Elems(s) ensures h in Elems(p) {
      var i :| 0 <= i < |s| && s[i] == h;
      assert p[i] == h;
    }
    assert p[|s|] == c;
  }

  /** Adding a free neighbour of `patch[j]` keeps the growth invariants. */
  lemma GrowStep(base: map<Hex, nat>, patch: seq<Hex>, player: nat, snapshot: map<Hex, nat>, c: Hex, j: nat)
    requires j < |patch| && c in Neighbors(patch[j]) && c !in snapshot
    requires Distinct(patch) && GrownConnected(patch)
    requires forall k :: 0 <= k < |patch| ==> patch[k] !in base
    requires SnapshotOf(base, patch, player, snapshot)
    ensures Distinct(patch + [c]) && GrownConnected(patch + [c])
    ensures forall k :: 0 <= k < |patch + [c]| ==> (patch + [c])[k] !in base
    ensures SnapshotOf(base, patch + [c], player, snapshot[c := player])
  {
    var p := patch + [c];
    ElemsAppend(patch, c);
    forall k | 0 <= k < |patch| ensures patch[k] != c && p[k] == patch[k] {
      assert patch[k] in Elems(patch);
    }
    assert p[|patch|] == c;
    assert Distinct(p);
    forall i | 0 < i < |p| ensures GrownFromEarlier(p, i) {
      if i == |patch| {
        assert p[i] in Neighbors(p[j]);
      } else {
        assert GrownFromEarlier(patch, i);
        var j' :| 0 <= j' < i && patch[i] in Neighbors(patch[j']);
        assert p[i] in Neighbors(p[j']);
      }
    }
  }

  /** The connectivity gate: does any hex of the patch neighbour a hex already on the board? */
  method TouchesBoard(patch: seq<Hex>, hexes: map<Hex, nat>) returns (hasNeighbours: bool)
    ensures hasNeighbours <==> Touches(patch, hexes.Keys)
  {
    hasNeighbours := false;
    for i := 0 to |patch|
      invariant hasNeighbours <==> exists k :: 0 <= k < i && AdjacentToAnySet(patch[k], hexes.Keys)
    {
      var neighbours := Neighbors(patch[i]);
      for j := 0 to |neighbours|
        invariant hasNeighbours <==>
          (exists k :: 0 <= k < i && AdjacentToAnySet(patch[k], hexes.Keys)) ||
          (exists m :: 0 <= m < j && neighbours[m] in hexes)
      {
        if neighbours[j] in hexes {
          hasNeighbours := true;
        }
      }
    }
  }

  /**
   * One (patch, player) slot: draw seeds until one is free, grow it, and
   * accept it if it touches the board (or is the very first slot). A patch
   * that never grew past its seed is dropped without creating a region.
   */
  method PlacePatch(board: Board, patchNo: nat, player: nat, patchSize: nat,
                    draws: nat -> nat, t0: nat, maxAttempts: nat)
    returns (ok: bool, board': Board, t: nat)
    ensures !ok ==> board' == board
    ensures ok ==> board' == board || Accepted(board, board', player, patchSize, patchNo == 0 && player == 0)
  {
    t := t0;
    var attempts := 0;
    while true
      invariant attempts <= maxAttempts
      decreases maxAttempts - attempts
    {
      if attempts == maxAttempts {
        return false, board, t;
      }
      attempts := attempts + 1;
      var seed := Hex(GenRange(draws, t, -HALF_BOARD_SIZE, HALF_BOARD_SIZE),
                      GenRange(draws, t + 1, -HALF_BOARD_SIZE, HALF_BOARD_SIZE));
      t := t + 2;
      if seed in board.hexes {
        continue;
      }
      var patch, snapshot, t1 := GrowPatch(board.hexes, seed, player, patchSize, draws, t);
      t := t1;
      if |patch| == 1 {
        return true, board, t;
      }
      var hasNeighbours := TouchesBoard(patch, board.hexes);
      if hasNeighbours || (player == 0 && patchNo == 0) {
        var region := Region(patch, player, 0, |board.regions|);
        board' := Board(snapshot, board.regions + [region]);
        assert board'.regions[..|board.regions|] == board.regions;
        return true, board', t;
      }
    }
  }

  /** Appending an accepted patch keeps the layout invariant. */
  lemma AcceptedKeepsLayout(b: Board, b': Board, n: nat, patchSize: nat, player: nat, exempt: bool)
    requires Layout(b, n, patchSize) && player < n
    requires exempt ==> |b.regions| == 0
    requires Accepted(b, b', player, patchSize, exempt)
    ensures Layout(b', n, patchSize)
  {
    var rs, rs' := b.regions, b'.regions;
    var r := rs'[|rs|];
    LastAppended(rs', |rs|);
    assert Partition(b') by {
      AppendFootprint(rs, r);
      AppendDisjoint(rs, r, b.hexes);
    }
    assert OwnersAgree(b') by {
      AppendOwnersAgree(b, b', player);
    }
    assert Landmass(rs') by {
      AppendLandmass(rs, r, exempt);
    }
    AppendRegion(rs, r, n, patchSize);
  }

  /** The per-region part of the layout survives appending a well-formed region. */
  lemma AppendRegion(rs: seq<Region>, r: Region, n: nat, patchSize: nat)
    requires IdsMatch(rs)
    requires forall i :: 0 <= i < |rs| ==>
      rs[i].owner < n && rs[i].numDice == 0 && GrownPatch(rs[i].hexes, patchSize)
    requires r.id == |rs| && r.owner < n && r.numDice == 0 && GrownPatch(r.hexes, patchSize)
    ensures IdsMatch(rs + [r])
    ensures forall i :: 0 <= i < |rs + [r]| ==>
      (rs + [r])[i].owner < n && (rs + [r])[i].numDice == 0 && GrownPatch((rs + [r])[i].hexes, patchSize)
  {
  }

  /** A non-empty list is its prefix followed by its last element. */
  lemma LastAppended(rs: seq<Region>, k: nat)
    requires |rs| == k + 1
    ensures rs == rs[..k] + [rs[k]]
  {
  }

  lemma AppendFootprint(rs: seq<Region>, r: Region)
    ensures Footprint(rs + [r]) == Footprint(rs) + Elems(r.hexes)
  {
    assert (rs + [r])[..|rs|] == rs;
  }

  /** A patch that avoids every placed hex is disjoint from every earlier region. */
  lemma AppendDisjoint(rs: seq<Region>, r: Region, hexes: map<Hex, nat>)
    requires hexes.Keys == Footprint(rs)
    requires forall i, j :: 0 <= i < j < |rs| ==> Disjoint(rs[i].hexes, rs[j].hexes)
    requires forall k :: 0 <= k < |r.hexes| ==> r.hexes[k] !in hexes
    ensures forall i, j :: 0 <= i < j < |rs + [r]| ==> Disjoint((rs + [r])[i].hexes, (rs + [r])[j].hexes)
  {
    var rs' := rs + [r];
    forall i, j | 0 <= i < j < |rs'| ensures Disjoint(rs'[i].hexes, rs'[j].hexes) {
      if j == |rs| {
        forall h | h in rs'[i].hexes ensures h !in r.hexes {
          assert rs'[i] == rs[i];
          FootprintMember(rs, h);
        }
      } else {
        assert rs'[i] == rs[i] && rs'[j] == rs[j];
      }
    }
  }

  lemma {:induction false} AppendOwnersAgree(b: Board, b': Board, player: nat)
    requires OwnersAgree(b)
    requires |b'.regions| == |b.regions| + 1 && b'.regions[..|b.regions|] == b.regions
    requires b'.regions[|b.regions|].owner == player
    requires SnapshotOf(b.hexes, b'.regions[|b.regions|].hexes, player, b'.hexes)
    ensures OwnersAgree(b')
  {
    var rs, rs' := b.regions, b'.regions;
    var r := rs'[|rs|];
    forall i, h | 0 <= i < |rs'| && h in rs'[i].hexes
      ensures h in b'.hexes && b'.hexes[h] == rs'[i].owner
    {
      if i < |rs| {
        assert rs'[i] == rs[i];
        assert h in b.hexes && b.hexes[h] == rs[i].owner;
      } else {
        var k :| 0 <= k < |r.hexes| && r.hexes[k] == h;
        assert h in Elems(r.hexes);
      }
    }
  }

  lemma {:induction false} AppendLandmass(rs: seq<Region>, r: Region, exempt: bool)
    requires Landmass(rs)
    requires exempt ==> |rs| == 0
    requires exempt || Touches(r.hexes, Footprint(rs))
    ensures Landmass(rs + [r])
  {
    var rs' := rs + [r];
    forall i | 0 < i < |rs'| ensures Touches(rs'[i].hexes, Footprint(rs'[..i])) {
      if i < |rs| {
        assert rs'[..i] == rs[..i];
        assert rs'[i] == rs[i];
      } else {
        assert rs'[..i] == rs;
      }
    }
  }

  /** Owners fixed, dice replaced: the per-owner count is unchanged. */
  lemma {:induction false} CountOwnedSameOwners(rs: seq<Region>, ts: seq<Region>, p: nat)
    requires |rs| == |ts|
    requires forall i :: 0 <= i < |rs| ==> rs[i].owner == ts[i].owner
    ensures CountOwned(rs, p) == CountOwned(ts, p)
  {
    if |rs| > 0 {
      CountOwnedSameOwners(rs[..|rs| - 1], ts[..|ts| - 1], p);
    }
  }

  /**
   * Dice allocation: every region gets `gen_range(1..min(4, budget))` dice
   * and its owner's budget shrinks by as many. The range is never empty
   * because no player owns more than `NUMBER_OF_PATCHES` regions.
   */
  method AllocateDice(regions: seq<Region>, n: nat, draws: nat -> nat, t0: nat)
    returns (dealt: seq<Region>, t: nat)
    requires forall i :: 0 <= i < |regions| ==> regions[i].owner < n
    requires forall p :: 0 <= p < n ==> CountOwned(regions, p) <= NUMBER_OF_PATCHES
    ensures |dealt| == |regions|
    ensures forall i :: 0 <= i < |regions| ==>
      dealt[i] == regions[i].(numDice := dealt[i].numDice) && 1 <= dealt[i].numDice <= 3
    ensures forall p :: 0 <= p < n ==> SumDice(dealt, p) <= 3 * CountOwned(regions, p) <= DICE_BUDGET
  {
    var budget: map<nat, nat> := map[];
    for p := 0 to n
      invariant forall q: nat :: q in budget <==> q < p
      invariant forall q :: q in budget ==> budget[q] == DICE_BUDGET
    {
      budget := budget[p := DICE_BUDGET];
    }
    dealt, t := regions, t0;
    for i := 0 to |regions|
      invariant |dealt| == |regions|
      invariant forall k :: i <= k < |regions| ==> dealt[k] == regions[k]
      invariant forall k :: 0 <= k < i ==>
        dealt[k] == regions[k].(numDice := dealt[k].numDice) && 1 <= dealt[k].numDice <= 3
      invariant forall q: nat :: q in budget <==> q < n
      invariant forall q :: 0 <= q < n ==>
        budget[q] + SumDice(dealt[..i], q) == DICE_BUDGET &&
        SumDice(dealt[..i], q) <= 3 * CountOwned(regions[..i], q)
    {
      var owner := dealt[i].owner;
      BudgetSuffices(regions, dealt, i, budget, n);
      var left := budget[owner];
      var hi := if left < 4 then left else 4;
      assert hi == 4;
      var dice := GenRange(draws, t, 1, hi);
      t := t + 1;
      var before, budgetBefore := dealt, budget;
      dealt := dealt[i := dealt[i].(numDice := dice)];
      budget := budget[owner := budget[owner] - dice];
      DealStep(regions, before, dealt, i, dice, budgetBefore, budget, n);
    }
    assert dealt[..|regions|] == dealt;
    assert regions[..|regions|] == regions;
  }

  /** Appending a region adds one to its owner's count and nothing to the others'. */
  lemma CountOwnedAppend(rs: seq<Region>, r: Region, p: nat)
    ensures CountOwned(rs + [r], p) == CountOwned(rs, p) + (if r.owner == p then 1 else 0)
  {
    assert (rs + [r])[..|rs|] == rs;
  }

  /** The count part of a round's loop step: appending one region of the player. */
  lemma PlaceStep(board: seq<Region>, cur: seq<Region>, r: Region, n: nat, player: nat)
    requires r.owner == player
    requires forall p :: 0 <= p < n ==>
      CountOwned(cur, p) <= CountOwned(board, p) + (if p < player then 1 else 0)
    ensures forall p :: 0 <= p < n ==>
      CountOwned(cur + [r], p) <= CountOwned(board, p) + (if p < player + 1 then 1 else 0)
  {
    forall p | 0 <= p < n
      ensures CountOwned(cur + [r], p) <= CountOwned(board, p) + (if p < player + 1 then 1 else 0)
    {
      CountOwnedAppend(cur, r, p);
    }
  }

  /** The loop step of a round: the invariant survives one placed patch. */
  lemma PlaceSlot(board: Board, cur: Board, next: Board, n: nat, patchSize: nat, player: nat, exempt: bool)
    requires Layout(cur, n, patchSize) && player < n
    requires exempt ==> |cur.regions| == 0 && player == 0
    requires Accepted(cur, next, player, patchSize, exempt)
    requires FirstOwnedByZero(cur.regions)
    requires |cur.regions| <= |board.regions| + player
    requires forall p :: 0 <= p < n ==>
      CountOwned(cur.regions, p) <= CountOwned(board.regions, p) + (if p < player then 1 else 0)
    ensures Layout(next, n, patchSize) && FirstOwnedByZero(next.regions)
    ensures |next.regions| <= |board.regions| + player + 1
    ensures forall p :: 0 <= p < n ==>
      CountOwned(next.regions, p) <= CountOwned(board.regions, p) + (if p < player + 1 then 1 else 0)
  {
    AcceptedKeepsLayout(cur, next, n, patchSize, player, exempt);
    var r := next.regions[|cur.regions|];
    LastAppended(next.regions, |cur.regions|);
    if |cur.regions| == 0 {
      FirstSlotExempt(cur, next, player, patchSize, exempt);
    }
    PlaceStep(board.regions, cur.regions, r, n, player);
  }

  /** Onto an empty board only an exempt slot is accepted: nothing is there to touch. */
  lemma FirstSlotExempt(cur: Board, next: Board, player: nat, patchSize: nat, exempt: bool)
    requires Partition(cur) && |cur.regions| == 0
    requires Accepted(cur, next, player, patchSize, exempt)
    ensures exempt
  {
    assert cur.hexes.Keys == {};
    var r := next.regions[0];
    assert !Touches(r.hexes, cur.hexes.Keys);
  }

  /**
   * One round of the outer loop: every player places one patch. Each
   * player gains at most one region per round.
   */
  method PlaceRound(board: Board, patchNo: nat, n: nat, patchSize: nat,
                    draws: nat -> nat, t0: nat, maxAttempts: nat)
    returns (ok: bool, board': Board, t: nat)
    requires Layout(board, n, patchSize)
    requires patchNo == 0 ==> board.regions == []
    requires FirstOwnedByZero(board.regions)
    ensures ok ==> Layout(board', n, patchSize) && FirstOwnedByZero(board'.regions)
    ensures ok ==> |board'.regions| <= |board.regions| + n
    ensures ok ==> forall p :: 0 <= p < n ==> CountOwned(board'.regions, p) <= CountOwned(board.regions, p) + 1
  {
    board', t := board, t0;
    for player := 0 to n
      invariant Layout(board', n, patchSize) && FirstOwnedByZero(board'.regions)
      invariant |board'.regions| <= |board.regions| + player
      invariant forall p :: 0 <= p < n ==>
        CountOwned(board'.regions, p) <= CountOwned(board.regions, p) + (if p < player then 1 else 0)
      invariant player == 0 ==> board' == board
    {
      var placed, next, t1 := PlacePatch(board', patchNo, player, patchSize, draws, t, maxAttempts);
      if !placed {
        return false, board', t1;
      }
      if next != board' {
        PlaceSlot(board, board', next, n, patchSize, player, patchNo == 0 && player == 0);
      }
      board', t := next, t1;
    }
    ok := true;
  }

  /** Same regions up to their owners and dice: footprints and ids agree. */
  ghost predicate SameShape(rs: seq<Region>, ts: seq<Region>)
  {
    && |rs| == |ts|
    && forall i :: 0 <= i < |rs| ==> rs[i].hexes == ts[i].hexes && rs[i].id == ts[i].id
  }

  lemma SameShapePartition(hexes: map<Hex, nat>, rs: seq<Region>, ts: seq<Region>)
    requires SameShape(rs, ts) && Partition(Board(hexes, rs))
    ensures Partition(Board(hexes, ts))
  {
    FootprintSameHexes(rs, ts);
  }

  lemma SameShapeOwners(hexes: map<Hex, nat>, rs: seq<Region>, ts: seq<Region>)
    requires SameShape(rs, ts) && OwnersAgree(Board(hexes, rs)) && IdsMatch(rs)
    requires forall i :: 0 <= i < |rs| ==> rs[i].owner == ts[i].owner
    ensures OwnersAgree(Board(hexes, ts)) && IdsMatch(ts)
  {
  }

  lemma SameShapeLandmass(rs: seq<Region>, ts: seq<Region>)
    requires SameShape(rs, ts) && Landmass(rs)
    ensures Landmass(ts)
  {
    forall i | 0 < i < |ts| ensures Touches(ts[i].hexes, Footprint(ts[..i])) {
      FootprintSameHexes(rs[..i], ts[..i]);
      assert Touches(rs[i].hexes, Footprint(rs[..i]));
    }
  }

  /** Replacing only the dice keeps the footprint part of the invariant. */
  lemma DiceOnlyKeepsShape(b: Board, dealt: seq<Region>)
    requires IdsMatch(b.regions) && Partition(b) && OwnersAgree(b) && Landmass(b.regions)
    requires |dealt| == |b.regions|
    requires forall i :: 0 <= i < |dealt| ==> dealt[i] == b.regions[i].(numDice := dealt[i].numDice)
    ensures var b' := Board(b.hexes, dealt);
      IdsMatch(b'.regions) && Partition(b') && OwnersAgree(b') && Landmass(b'.regions)
  {
    assert SameShape(b.regions, dealt);
    SameShapePartition(b.hexes, b.regions, dealt);
    SameShapeOwners(b.hexes, b.regions, dealt);
    SameShapeLandmass(b.regions, dealt);
  }

  /** Dealing dice onto a laid-out board yields a finished board. */
  lemma DealtBoard(board: Board, dealt: seq<Region>, n: nat)
    requires n >= 1
    requires Layout(board, n, PatchSize(n)) && FirstOwnedByZero(board.regions)
    requires |board.regions| <= NUMBER_OF_PATCHES * n
    requires forall p :: 0 <= p < n ==> CountOwned(board.regions, p) <= NUMBER_OF_PATCHES
    requires |dealt| == |board.regions|
    requires forall i :: 0 <= i < |dealt| ==>
      dealt[i] == board.regions[i].(numDice := dealt[i].numDice) && 1 <= dealt[i].numDice <= 3
    ensures GeneratedBoard(Board(board.hexes, dealt), n)
  {
    DiceOnlyKeepsShape(board, dealt);
    DealtRegions(board.regions, dealt, n, PatchSize(n));
    DealtCounts(board.regions, dealt, n);
    DealtFirstOwner(board.regions, dealt);
  }

  /** Dealing dice keeps the first region player 0's. */
  lemma DealtFirstOwner(rs: seq<Region>, dealt: seq<Region>)
    requires |dealt| == |rs| && FirstOwnedByZero(rs)
    requires forall i :: 0 <= i < |dealt| ==> dealt[i] == rs[i].(numDice := dealt[i].numDice)
    ensures FirstOwnedByZero(dealt)
  {
  }

  /** Dealing dice keeps each region's owner and shape. */
  lemma DealtRegions(rs: seq<Region>, dealt: seq<Region>, n: nat, patchSize: nat)
    requires |dealt| == |rs|
    requires forall i :: 0 <= i < |rs| ==> rs[i].owner < n && GrownPatch(rs[i].hexes, patchSize)
    requires forall i :: 0 <= i < |dealt| ==> dealt[i] == rs[i].(numDice := dealt[i].numDice)
    ensures forall i :: 0 <= i < |dealt| ==> dealt[i].owner < n && GrownPatch(dealt[i].hexes, patchSize)
  {
    forall i | 0 <= i < |dealt| ensures dealt[i].owner < n && GrownPatch(dealt[i].hexes, patchSize) {
      assert dealt[i].hexes == rs[i].hexes;
    }
  }

  /**
   * Dealing at most three dice per region keeps each player's region count,
   * and so keeps each player's dice within the budget.
   */
  lemma DealtCounts(rs: seq<Region>, dealt: seq<Region>, n: nat)
    requires |dealt| == |rs|
    requires forall p :: 0 <= p < n ==> CountOwned(rs, p) <= NUMBER_OF_PATCHES
    requires forall i :: 0 <= i < |dealt| ==> dealt[i] == rs[i].(numDice := dealt[i].numDice) && dealt[i].numDice <= 3
    ensures forall p :: 0 <= p < n ==> CountOwned(dealt, p) <= NUMBER_OF_PATCHES && SumDice(dealt, p) <= DICE_BUDGET
  {
    forall p | 0 <= p < n ensures CountOwned(dealt, p) <= NUMBER_OF_PATCHES && SumDice(dealt, p) <= DICE_BUDGET {
      CountOwnedSameOwners(rs, dealt, p);
      SumDiceBound(dealt, p, 3);
    }
  }

  /** Before region `i` is dealt, its owner still has at least four dice left. */
  lemma BudgetSuffices(regions: seq<Region>, dealt: seq<Region>, i: nat, budget: map<nat, nat>, n: nat)
    requires i < |regions| == |dealt| && dealt[i] == regions[i] && regions[i].owner < n
    requires CountOwned(regions, regions[i].owner) <= NUMBER_OF_PATCHES
    requires forall q: nat :: q in budget <==> q < n
    requires forall q :: 0 <= q < n ==>
      budget[q] + SumDice(dealt[..i], q) == DICE_BUDGET &&
      SumDice(dealt[..i], q) <= 3 * CountOwned(regions[..i], q)
    ensures regions[i].owner in budget && budget[regions[i].owner] >= 4
  {
    var owner := regions[i].owner;
    PrefixStep(regions, i, owner);
    CountOwnedPrefix(regions, i + 1, owner);
  }

  /** Dealing `dice` to region `i` and charging its owner keeps the budget accounting. */
  lemma DealStep(regions: seq<Region>, before: seq<Region>, after: seq<Region>, i: nat, dice: nat,
                 budget: map<nat, nat>, budget': map<nat, nat>, n: nat)
    requires i < |regions| == |before| && before[i] == regions[i] && regions[i].owner < n
    requires after == before[i := before[i].(numDice := dice)]
    requires forall q: nat :: q in budget <==> q < n
    requires budget[regions[i].owner] >= dice
    requires budget' == budget[regions[i].owner := budget[regions[i].owner] - dice]
    requires 1 <= dice <= 3
    requires forall q :: 0 <= q < n ==>
      budget[q] + SumDice(before[..i], q) == DICE_BUDGET &&
      SumDice(before[..i], q) <= 3 * CountOwned(regions[..i], q)
    ensures forall q: nat :: q in budget' <==> q < n
    ensures forall q :: 0 <= q < n ==>
      budget'[q] + SumDice(after[..i + 1], q) == DICE_BUDGET &&
      SumDice(after[..i + 1], q) <= 3 * CountOwned(regions[..i + 1], q)
  {
    assert after[..i] == before[..i];
    forall q | 0 <= q < n
      ensures budget'[q] + SumDice(after[..i + 1], q) == DICE_BUDGET
      ensures SumDice(after[..i + 1], q) <= 3 * CountOwned(regions[..i + 1], q)
    {
      PrefixStep(after, i, q);
      PrefixStep(regions, i, q);
    }
  }

  /** Extending a prefix by one region adds that region's share to the count and the dice sum. */
  lemma PrefixStep(rs: seq<Region>, i: nat, p: nat)
    requires i < |rs|
    ensures CountOwned(rs[..i + 1], p) == CountOwned(rs[..i], p) + (if rs[i].owner == p then 1 else 0)
    ensures SumDice(rs[..i + 1], p) == SumDice(rs[..i], p) + (if rs[i].owner == p then rs[i].numDice else 0)
  {
    assert rs[..i + 1][..i] == rs[..i];
  }

  /**
   * The patch loops of `generate_board`: for each of `NUMBER_OF_PATCHES`
   * rounds, every player places one patch.
   */
  method PlaceAllPatches(n: nat, draws: nat -> nat, maxAttempts: nat)
    returns (ok: bool, board: Board, t: nat)
    requires n >= 1
    ensures ok ==> Layout(board, n, PatchSize(n)) && FirstOwnedByZero(board.regions)
    ensures ok ==> |board.regions| <= NUMBER_OF_PATCHES * n
    ensures ok ==> forall p :: 0 <= p < n ==> CountOwned(board.regions, p) <= NUMBER_OF_PATCHES
  {
    var patchSize := PatchSize(n);
    board, t := Board(map[], []), 0;
    for patchNo := 0 to NUMBER_OF_PATCHES
      invariant Layout(board, n, patchSize) && FirstOwnedByZero(board.regions)
      invariant |board.regions| <= patchNo * n
      invariant forall p :: 0 <= p < n ==> CountOwned(board.regions, p) <= patchNo
      invariant patchNo == 0 ==> board.regions == []
    {
      var placed, next, t1 := PlaceRound(board, patchNo, n, patchSize, draws, t, maxAttempts);
      if !placed {
        return false, board, t1;
      }
      assert (patchNo + 1) * n == patchNo * n + n;
      board, t := next, t1;
    }
    ok := true;
  }

  /** `generate_board`: lay out the patches, then allocate dice. */
  method GenerateBoard(numberOfPlayers: nat, draws: nat -> nat, maxAttempts: nat)
    returns (result: Result<Board, GenError>)
    ensures numberOfPlayers == 0 <==> result == Failure(InvalidPlayerCount)
    ensures result.Failure? && numberOfPlayers > 0 ==> result.error == GenerationFailed
    ensures result.Success? ==> numberOfPlayers >= 1 && GeneratedBoard(result.value, numberOfPlayers)
  {
    if numberOfPlayers == 0 {
      return Failure(InvalidPlayerCount);
    }
    var n := numberOfPlayers;
    var ok, board, t := PlaceAllPatches(n, draws, maxAttempts);
    if !ok {
      return Failure(GenerationFailed);
    }
    var dealt, _ := AllocateDice(board.regions, n, draws, t);
    DealtBoard(board, dealt, n);
    return Success(Board(board.hexes, dealt));
  }

  /** Every hex of a grown patch is reached from its seed by neighbour steps inside the patch. */
  lemma {:induction false} GrownReachable(s: seq<Hex>, i: nat)
    requires GrownConnected(s) && i < |s|
    ensures exists w :: IsWalk(s, w) && w[0] == s[0] && w[|w| - 1] == s[i]
    decreases i
  {
    if i == 0 {
      assert IsWalk(s, [s[0]]);
    } else {
      assert GrownFromEarlier(s, i);
      var j :| 0 <= j < i && s[i] in Neighbors(s[j]);
      GrownReachable(s, j);
      var w :| IsWalk(s, w) && w[0] == s[0] && w[|w| - 1] == s[j];
      var w' := w + [s[i]];
      forall k | 0 <= k < |w'| ensures w'[k] in s {
        if k < |w| { assert w'[k] == w[k]; }
      }
      forall k | 0 < k < |w'| ensures w'[k] in Neighbors(w'[k - 1]) {
        if k < |w| { assert w'[k] == w[k] && w'[k - 1] == w[k - 1]; }
      }
      assert IsWalk(s, w');
    }
  }

  /**
   * On a landmass, a region whose owner differs from the first region's
   * guarantees that a region of the first region's owner can attack.
   */
  lemma {:induction false} LandmassHasOpponents(rs: seq<Region>, j: nat)
    requires Landmass(rs) && j < |rs| && rs[j].owner != rs[0].owner
    ensures exists a, b ::
              && 0 <= a < |rs| && 0 <= b < |rs|
              && rs[a].owner == rs[0].owner && AreOpponents(rs[a], rs[b])
    decreases j
  {
    if k :| 0 <= k < j && rs[k].owner != rs[0].owner {
      LandmassHasOpponents(rs, k);
    } else {
      assert Touches(rs[j].hexes, Footprint(rs[..j]));
      var h :| h in rs[j].hexes && exists nb :: nb in Neighbors(h) && nb in Footprint(rs[..j]);
      var nb :| nb in Neighbors(h) && nb in Footprint(rs[..j]);
      FootprintMember(rs[..j], nb);
      var m :| 0 <= m < j && nb in rs[..j][m].hexes;
      assert rs[..j][m] == rs[m];
      assert AdjacentToAny(h, rs[m].hexes);
      assert AreOpponents(rs[j], rs[m]);
      OpponentSymmetric(rs[j], rs[m]);
      assert rs[m].owner == rs[0].owner && AreOpponents(rs[m], rs[j]);
    }
  }
}
