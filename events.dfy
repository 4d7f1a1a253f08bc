/**
 * The turn logic of the game (src/events.rs): picking regions, starting a
 * clash, recording the dice sums, resolving the clash, passing the turn
 * and detecting the end of the game.
 *
 * Events are plain values handed to the handlers; the random choice made
 * while resolving a clash is read from a caller-supplied stream `draws`,
 * position `i` serving the `i`-th clash-end event of the frame.
 */
module Events {
  import opened Wrappers
  import opened Game
  import opened Generation

  /** An attack request: attacker snapshot, then defender snapshot. */
  datatype ClashStart = ClashStart(region1: Region, region2: Region)

  /** The end of an attack: the snapshots and the two dice sums. */
  datatype ClashEnd = ClashEnd(region1: Region, region2: Region, dice1Sum: nat, dice2Sum: nat)

  /** One attack in the game log, stamped with the turn it happened in. */
  datatype LogEntry = LogEntry(turnOfPlayer: nat, region1: Region, region2: Region,
                               dice1Sum: nat, dice2Sum: nat, turnCounter: nat)

  /** The region the current player has picked as attacker, if any. */
  class SelectedRegion {
    var region: Option<Region>

    constructor()
      ensures region == None
    {
      region := None;
    }
  }

  /**
   * `event_region_selected` for one pick. Picking one's own region selects
   * it; picking another player's region deselects and, when a region was
   * selected and touches the picked one, asks for a clash.
   */
  method RegionSelected(selected: SelectedRegion, turnOfPlayer: nat, picked: Option<Region>)
    returns (clash: Option<ClashStart>)
    modifies selected
    ensures picked.None? ==> clash == None && selected.region == old(selected.region)
    ensures picked.Some? && picked.value.owner == turnOfPlayer ==>
      clash == None && selected.region == picked
    ensures picked.Some? && picked.value.owner != turnOfPlayer ==> selected.region == None
    ensures clash.Some? <==>
      && picked.Some? && picked.value.owner != turnOfPlayer
      && old(selected.region).Some? && AreOpponents(old(selected.region).value, picked.value)
    ensures clash.Some? ==> clash.value == ClashStart(old(selected.region).value, picked.value)
    // A selection made during the current turn only ever launches that player's attacks.
    ensures old(selected.region).None? || old(selected.region).value.owner == turnOfPlayer ==>
      && (selected.region.None? || selected.region.value.owner == turnOfPlayer)
      && (clash.Some? ==> clash.value.region1.owner == turnOfPlayer && clash.value.region2.owner != turnOfPlayer)
  {
    clash := None;
    if picked.None? {
      return;
    }
    var region := picked.value;
    if region.owner != turnOfPlayer {
      if selected.region.Some? {
        var region1 := selected.region.value;
        var opponents := IsOpponent(region1, region);
        if opponents {
          clash := Some(ClashStart(region1, region));
        }
      }
      selected.region := None;
    } else {
      selected.region := Some(region);
    }
  }

  /** The log entries `event_region_clash` appends: current stamps, sums still zero. */
  function StartEntries(events: seq<ClashStart>, turnOfPlayer: nat, turnCounter: nat): (entries: seq<LogEntry>)
    ensures |entries| == |events|
    ensures forall i :: 0 <= i < |events| ==>
      && entries[i].region1 == events[i].region1 && entries[i].region2 == events[i].region2
      && entries[i].dice1Sum == 0 && entries[i].dice2Sum == 0
      && entries[i].turnOfPlayer == turnOfPlayer && entries[i].turnCounter == turnCounter
  {
    seq(|events|, i requires 0 <= i < |events| =>
      LogEntry(turnOfPlayer, events[i].region1, events[i].region2, 0, 0, turnCounter))
  }

  /** Sum of one side's dice faces. */
  function Sum(xs: seq<nat>): (total: nat)
    ensures forall i :: 0 <= i < |xs| ==> xs[i] <= total
    ensures (forall i :: 0 <= i < |xs| ==> xs[i] == 0) ==> total == 0
  {
    if |xs| == 0 then 0 else Sum(xs[..|xs| - 1]) + xs[|xs| - 1]
  }

  /** The log with its last entry's sums overwritten. */
  function WithSums(log: seq<LogEntry>, sum1: nat, sum2: nat): (log': seq<LogEntry>)
    requires |log| > 0
    ensures |log'| == |log| && log'[..|log| - 1] == log[..|log| - 1]
    ensures var e, e' := log[|log| - 1], log'[|log| - 1];
      && e'.dice1Sum == sum1 && e'.dice2Sum == sum2
      && e'.region1 == e.region1 && e'.region2 == e.region2
      && e'.turnOfPlayer == e.turnOfPlayer && e'.turnCounter == e.turnCounter
  {
    log[..|log| - 1] + [log[|log| - 1].(dice1Sum := sum1, dice2Sum := sum2)]
  }

  /** The clash-end event built from a log entry. */
  function EndOf(entry: LogEntry): ClashEnd
  {
    ClashEnd(entry.region1, entry.region2, entry.dice1Sum, entry.dice2Sum)
  }

  /** Ids of the regions that attacked in turn `turnCounter` of player `turnOfPlayer`. */
  function MovedThisTurn(log: seq<LogEntry>, turnCounter: nat, turnOfPlayer: nat): (ids: set<nat>)
    ensures forall k :: 0 <= k < |log| && log[k].turnCounter == turnCounter && log[k].turnOfPlayer == turnOfPlayer ==>
      log[k].region1.id in ids
    ensures |log| == 0 ==> ids == {}
  {
    set k | 0 <= k < |log| && log[k].turnCounter == turnCounter && log[k].turnOfPlayer == turnOfPlayer
      :: log[k].region1.id
  }

  /** Starting clashes marks each attacker as moved this turn, and nothing else. */
  lemma {:induction false} ClashStartMarksMoved(log: seq<LogEntry>, events: seq<ClashStart>,
                                                turnOfPlayer: nat, turnCounter: nat)
    ensures MovedThisTurn(log + StartEntries(events, turnOfPlayer, turnCounter), turnCounter, turnOfPlayer)
      == MovedThisTurn(log, turnCounter, turnOfPlayer) + set i | 0 <= i < |events| :: events[i].region1.id
  {
    var log' := log + StartEntries(events, turnOfPlayer, turnCounter);
    var lhs := MovedThisTurn(log', turnCounter, turnOfPlayer);
    var rhs := MovedThisTurn(log, turnCounter, turnOfPlayer) + set i | 0 <= i < |events| :: events[i].region1.id;
    forall id | id in lhs ensures id in rhs {
      var k :| 0 <= k < |log'| && log'[k].turnCounter == turnCounter
        && log'[k].turnOfPlayer == turnOfPlayer && log'[k].region1.id == id;
      if k < |log| {
        assert log'[k] == log[k];
      } else {
        assert events[k - |log|].region1.id == id;
      }
    }
    forall id | id in rhs ensures id in lhs {
      if id in MovedThisTurn(log, turnCounter, turnOfPlayer) {
        var k :| 0 <= k < |log| && log[k].turnCounter == turnCounter
          && log[k].turnOfPlayer == turnOfPlayer && log[k].region1.id == id;
        assert log'[k] == log[k];
      } else {
        var i :| 0 <= i < |events| && events[i].region1.id == id;
        assert log'[|log| + i].region1.id == id;
      }
    }
  }

  /** Recording dice sums changes no turn stamp, so who has moved stays the same. */
  lemma SumsKeepMoved(log: seq<LogEntry>, sum1: nat, sum2: nat, turnCounter: nat, turnOfPlayer: nat)
    requires |log| > 0
    ensures |WithSums(log, sum1, sum2)| == |log|
    ensures MovedThisTurn(WithSums(log, sum1, sum2), turnCounter, turnOfPlayer)
      == MovedThisTurn(log, turnCounter, turnOfPlayer)
  {
    var log' := WithSums(log, sum1, sum2);
    assert forall k :: 0 <= k < |log| ==>
      log'[k].turnCounter == log[k].turnCounter && log'[k].turnOfPlayer == log[k].turnOfPlayer
      && log'[k].region1 == log[k].region1;
  }

  /** `gen_range(1..n)` for the dice moved into a captured region; 0 when no split happens. */
  function Split(n: nat, draws: nat -> nat, t: nat): (k: nat)
    ensures n > 1 ==> 1 <= k < n
  {
    if n > 1 then GenRange(draws, t, 1, n) as nat else 0
  }

  /**
   * `winner` (a snapshot) may take `loser` with `k` dice moved: both ids
   * index the board, and the winner's current dice cover the `k - 1` it
   * gives up (the source subtracts unsigned integers).
   */
  predicate CanCapture(rs: seq<Region>, winner: Region, loser: Region, k: nat)
  {
    && winner.id < |rs| && loser.id < |rs|
    && (winner.numDice > 1 ==> 1 <= k && (winner.id != loser.id ==> rs[winner.id].numDice >= k - 1))
  }

  /**
   * The capture step of `event_region_clash_end`: the loser's region
   * changes hands; with more than one die on the winner's snapshot, the
   * captured region gets `k` dice and the winner's region gives up `k - 1`.
   */
  function Capture(rs: seq<Region>, winner: Region, loser: Region, k: nat): (rs': seq<Region>)
    requires CanCapture(rs, winner, loser, k)
    ensures SameShape(rs, rs')
    ensures forall i :: 0 <= i < |rs| && i != winner.id && i != loser.id ==> rs'[i] == rs[i]
    ensures rs'[loser.id].owner == winner.owner
    ensures winner.id != loser.id ==> rs'[winner.id].owner == rs[winner.id].owner
    ensures winner.numDice <= 1 ==> forall i :: 0 <= i < |rs| ==> rs'[i].numDice == rs[i].numDice
    ensures winner.numDice > 1 && winner.id != loser.id ==>
      rs'[loser.id].numDice == k && rs'[winner.id].numDice + (k - 1) == rs[winner.id].numDice
    ensures winner.numDice > 1 && winner.id == loser.id ==> rs'[loser.id].numDice == 1
  {
    var taken := rs[loser.id := rs[loser.id].(owner := winner.owner)];
    if winner.numDice > 1 then
      var moved := taken[loser.id := taken[loser.id].(numDice := k)];
      moved[winner.id := moved[winner.id].(numDice := moved[winner.id].numDice - (k - 1))]
    else
      taken
  }

  /** The side that wins: the attacker only with a strictly larger sum. */
  function Victor(e: ClashEnd): (w: Region)
    ensures w == e.region1 || w == e.region2
    ensures e.dice1Sum > e.dice2Sum ==> w == e.region1
    ensures e.dice1Sum <= e.dice2Sum ==> w == e.region2
  {
    if e.dice1Sum > e.dice2Sum then e.region1 else e.region2
  }

  /** The side that loses its region. */
  function Vanquished(e: ClashEnd): (l: Region)
    ensures (l == e.region1 && Victor(e) == e.region2) || (l == e.region2 && Victor(e) == e.region1)
  {
    if e.dice1Sum > e.dice2Sum then e.region2 else e.region1
  }

  predicate CanResolve(rs: seq<Region>, e: ClashEnd, draws: nat -> nat, t: nat)
  {
    CanCapture(rs, Victor(e), Vanquished(e), Split(Victor(e).numDice, draws, t))
  }

  /** One clash-end event applied to the regions. */
  function Resolve(rs: seq<Region>, e: ClashEnd, draws: nat -> nat, t: nat): (rs': seq<Region>)
    requires CanResolve(rs, e, draws, t)
    ensures SameShape(rs, rs')
    ensures rs'[Vanquished(e).id].owner == Victor(e).owner
    ensures forall i :: 0 <= i < |rs| && i != Victor(e).id && i != Vanquished(e).id ==> rs'[i] == rs[i]
  {
    Capture(rs, Victor(e), Vanquished(e), Split(Victor(e).numDice, draws, t))
  }

  /** Every event of the frame can be applied in turn. */
  predicate Resolvable(rs: seq<Region>, es: seq<ClashEnd>, draws: nat -> nat)
    decreases |es|, 0
  {
    |es| == 0 ||
    (Resolvable(rs, es[..|es| - 1], draws) &&
     CanResolve(ResolveAll(rs, es[..|es| - 1], draws), es[|es| - 1], draws, |es| - 1))
  }

  /** The frame's clash-end events applied in order. */
  function ResolveAll(rs: seq<Region>, es: seq<ClashEnd>, draws: nat -> nat): (rs': seq<Region>)
    requires Resolvable(rs, es, draws)
    ensures |rs'| == |rs|
    decreases |es|, 1
  {
    if |es| == 0 then rs
    else Resolve(ResolveAll(rs, es[..|es| - 1], draws), es[|es| - 1], draws, |es| - 1)
  }

  /** A strictly larger attacker sum takes the defender's region for the attacker's owner. */
  lemma AttackerWins(rs: seq<Region>, e: ClashEnd, draws: nat -> nat, t: nat)
    requires CanResolve(rs, e, draws, t)
    requires e.dice1Sum > e.dice2Sum
    ensures Resolve(rs, e, draws, t)[e.region2.id].owner == e.region1.owner
  {
  }

  /** The defender keeps its region on a tie: the attacker's region goes to the defender. */
  lemma TieGoesToDefender(rs: seq<Region>, e: ClashEnd, draws: nat -> nat, t: nat)
    requires CanResolve(rs, e, draws, t)
    requires e.dice1Sum <= e.dice2Sum
    ensures Resolve(rs, e, draws, t)[e.region1.id].owner == e.region2.owner
  {
  }

  /**
   * When the winner's snapshot still matches the board, the capture never
   * underflows, and the winner keeps at least one die while the captured
   * region receives at least one; together they hold one die more than
   * the winner had.
   */
  lemma FreshSnapshotCapture(rs: seq<Region>, winner: Region, loser: Region, k: nat)
    requires winner.id < |rs| && loser.id < |rs| && winner.id != loser.id
    requires rs[winner.id] == winner && winner.numDice > 1 && 1 <= k < winner.numDice
    ensures CanCapture(rs, winner, loser, k)
    ensures var rs' := Capture(rs, winner, loser, k);
      && rs'[winner.id].numDice >= 2 && rs'[loser.id].numDice >= 1
      && rs'[winner.id].numDice + rs'[loser.id].numDice == winner.numDice + 1
  {
  }

  /** Resolution never touches footprints or ids. */
  lemma {:induction false} ResolveAllShape(rs: seq<Region>, es: seq<ClashEnd>, draws: nat -> nat)
    requires Resolvable(rs, es, draws)
    ensures SameShape(rs, ResolveAll(rs, es, draws))
  {
    if |es| > 0 {
      ResolveAllShape(rs, es[..|es| - 1], draws);
    }
  }

  /** Owners stay player numbers when every event's snapshots carry player numbers. */
  lemma {:induction false} ResolveAllOwners(rs: seq<Region>, es: seq<ClashEnd>, draws: nat -> nat, n: nat)
    requires Resolvable(rs, es, draws)
    requires forall i :: 0 <= i < |rs| ==> rs[i].owner < n
    requires forall j :: 0 <= j < |es| ==> es[j].region1.owner < n && es[j].region2.owner < n
    ensures forall i :: 0 <= i < |rs| ==> ResolveAll(rs, es, draws)[i].owner < n
  {
    if |es| > 0 {
      ResolveAllOwners(rs, es[..|es| - 1], draws, n);
      ResolveAllShape(rs, es[..|es| - 1], draws);
    }
  }

  /** Fighting keeps the board's footprint invariant and its landmass. */
  lemma ResolveKeepsBoard(b: Board, es: seq<ClashEnd>, draws: nat -> nat)
    requires Resolvable(b.regions, es, draws)
    requires IdsMatch(b.regions) && Partition(b) && Landmass(b.regions)
    ensures var b' := Board(b.hexes, ResolveAll(b.regions, es, draws));
      IdsMatch(b'.regions) && Partition(b') && Landmass(b'.regions)
  {
    var rs' := ResolveAll(b.regions, es, draws);
    ResolveAllShape(b.regions, es, draws);
    SameShapePartition(b.hexes, b.regions, rs');
    SameShapeLandmass(b.regions, rs');
  }

  /** A region of the current player that has not attacked yet and has someone to attack. */
  predicate Unblocked(all: seq<Region>, r: Region, moved: set<nat>, turnOfPlayer: nat): (u: bool)
    ensures u ==> r.owner == turnOfPlayer && r.id !in moved
    ensures u ==> exists j :: 0 <= j < |all| && all[j].owner != turnOfPlayer
  {
    r.owner == turnOfPlayer && r.id !in moved && exists j :: 0 <= j < |all| && AreOpponents(all[j], r)
  }

  /** How many of `rs` are unblocked. */
  function UnblockedCount(rs: seq<Region>, all: seq<Region>, moved: set<nat>, turnOfPlayer: nat): (c: nat)
    ensures c <= |rs|
  {
    if |rs| == 0 then 0
    else
      var last := if Unblocked(all, rs[|rs| - 1], moved, turnOfPlayer) then 1 else 0;
      UnblockedCount(rs[..|rs| - 1], all, moved, turnOfPlayer) + last
  }

  /** The count is zero exactly when no region is unblocked. */
  lemma {:induction false} UnblockedCountZero(rs: seq<Region>, all: seq<Region>, moved: set<nat>, turnOfPlayer: nat)
    ensures UnblockedCount(rs, all, moved, turnOfPlayer) == 0 <==>
      forall i :: 0 <= i < |rs| ==> !Unblocked(all, rs[i], moved, turnOfPlayer)
  {
    if |rs| > 0 {
      var init := rs[..|rs| - 1];
      UnblockedCountZero(init, all, moved, turnOfPlayer);
      assert forall i :: 0 <= i < |init| ==> init[i] == rs[i];
    }
  }

  /** The turn order: the next player, wrapping to the first. */
  function NextPlayer(turnOfPlayer: nat, numberOfPlayers: nat): (next: nat)
    ensures numberOfPlayers >= 1 ==> next < numberOfPlayers
    ensures turnOfPlayer < numberOfPlayers ==> next == (turnOfPlayer + 1) % numberOfPlayers
  {
    if turnOfPlayer + 1 >= numberOfPlayers then 0 else turnOfPlayer + 1
  }

  /** The player whose turn it is after `k` turn changes. */
  function AfterTurns(turnOfPlayer: nat, numberOfPlayers: nat, k: nat): nat
  {
    if k == 0 then turnOfPlayer else NextPlayer(AfterTurns(turnOfPlayer, numberOfPlayers, k - 1), numberOfPlayers)
  }

  /**
   * Turns go round the table: `k <= n` turn changes after player `p` it is
   * player `p + k`, wrapped once past the last player. In particular every
   * player gets a turn and `n` changes lead back to `p`.
   */
  lemma {:induction false} TurnsGoRound(turnOfPlayer: nat, numberOfPlayers: nat, k: nat)
    requires turnOfPlayer < numberOfPlayers && k <= numberOfPlayers
    ensures AfterTurns(turnOfPlayer, numberOfPlayers, k) ==
      if turnOfPlayer + k < numberOfPlayers then turnOfPlayer + k else turnOfPlayer + k - numberOfPlayers
  {
    if k > 0 {
      TurnsGoRound(turnOfPlayer, numberOfPlayers, k - 1);
    }
  }

  /** The player owning every region, if there is one (and there are regions). */
  function Winner(rs: seq<Region>): (w: Option<nat>)
    ensures w.Some? <==> |rs| > 0 && forall i :: 0 <= i < |rs| ==> rs[i].owner == rs[0].owner
    ensures w.Some? ==> forall i :: 0 <= i < |rs| ==> rs[i].owner == w.value
  {
    if |rs| == 0 then None
    else
      CountOwnedAll(rs, rs[0].owner);
      if CountOwned(rs, rs[0].owner) == |rs| then Some(rs[0].owner) else None
  }

  /**
   * The game-over check: count regions per owner, then look for an owner
   * whose count is the number of regions.
   */
  method FindWinner(regions: seq<Region>) returns (winner: Option<nat>)
    ensures winner == Winner(regions)
  {
    var counts: map<nat, nat> := map[];
    for i := 0 to |regions|
      invariant forall p :: p in counts ==> counts[p] == CountOwned(regions[..i], p) && counts[p] > 0
      invariant forall p :: p !in counts ==> CountOwned(regions[..i], p) == 0
    {
      var owner := regions[i].owner;
      var current := if owner in counts then counts[owner] else 0;
      forall p ensures CountOwned(regions[..i + 1], p) == CountOwned(regions[..i], p) + (if p == owner then 1 else 0) {
        assert regions[..i + 1][..i] == regions[..i];
      }
      counts := counts[owner := current + 1];
    }
    assert regions[..|regions|] == regions;
    var players := counts.Keys;
    while players != {}
      invariant players <= counts.Keys
      invariant forall p :: p in counts.Keys - players ==> counts[p] != |regions|
      decreases players
    {
      var player :| player in players;
      if counts[player] == |regions| {
        CountOwnedAll(regions, player);
        assert regions[0].owner == player;
        return Some(player);
      }
      players := players - {player};
    }
    if |regions| > 0 {
      CountOwnedAll(regions, regions[0].owner);
    }
    return None;
  }

  /**
   * While nobody has won, a region of the first region's owner can still
   * attack some region.
   */
  lemma NoWinnerHasAttack(b: Board)
    requires Landmass(b.regions) && |b.regions| > 0 && Winner(b.regions).None?
    ensures exists a, c ::
              && 0 <= a < |b.regions| && 0 <= c < |b.regions|
              && b.regions[a].owner == b.regions[0].owner && AreOpponents(b.regions[a], b.regions[c])
  {
    var j :| 0 <= j < |b.regions| && b.regions[j].owner != b.regions[0].owner;
    LandmassHasOpponents(b.regions, j);
  }

  /**
   * On a freshly generated board with regions of two owners, player 0, who
   * moves first, has a legal attack. `GeneratedBoard` gives both the
   * landmass and the first region's owner.
   */
  lemma FirstPlayerCanMove(b: Board)
    requires Landmass(b.regions) && FirstOwnedByZero(b.regions)
    requires |b.regions| > 0 && Winner(b.regions).None?
    ensures exists a, c ::
              && 0 <= a < |b.regions| && 0 <= c < |b.regions|
              && b.regions[a].owner == 0 && AreOpponents(b.regions[a], b.regions[c])
  {
    NoWinnerHasAttack(b);
  }

  /** The game resource: the board, whose turn it is, and the attack log. */
  class GameState {
    var board: Board
    var turnOfPlayer: nat
    var turnCounter: nat
    var numberOfPlayers: nat
    var gameLog: seq<LogEntry>

    /** The turn always belongs to one of the players. */
    ghost predicate Valid()
      reads this
    {
      turnOfPlayer < numberOfPlayers
    }

    /** The state the game starts in: player 0's first turn, nothing logged. */
    constructor(board: Board, numberOfPlayers: nat)
      requires numberOfPlayers >= 1
      ensures this.board == board && this.numberOfPlayers == numberOfPlayers
      ensures turnOfPlayer == 0 && turnCounter == 0 && gameLog == []
      ensures Valid()
    {
      this.board := board;
      this.numberOfPlayers := numberOfPlayers;
      turnOfPlayer := 0;
      turnCounter := 0;
      gameLog := [];
    }

    /**
     * `event_region_clash`: each request is logged with the current turn
     * stamps and zero sums, and one dice roll is requested per request,
     * the attacker's dice first.
     */
    method RegionClash(events: seq<ClashStart>) returns (requests: seq<seq<nat>>)
      requires Valid()
      modifies this
      ensures Valid()
      ensures gameLog == old(gameLog) + StartEntries(events, old(turnOfPlayer), old(turnCounter))
      ensures |requests| == |events|
      ensures forall i :: 0 <= i < |events| ==>
        requests[i] == [events[i].region1.numDice, events[i].region2.numDice]
      ensures board == old(board) && numberOfPlayers == old(numberOfPlayers)
      ensures turnOfPlayer == old(turnOfPlayer) && turnCounter == old(turnCounter)
    {
      var tp, tc := turnOfPlayer, turnCounter;
      requests := [];
      for i := 0 to |events|
        invariant gameLog == old(gameLog) + StartEntries(events[..i], tp, tc)
        invariant |requests| == i
        invariant forall j :: 0 <= j < i ==>
          requests[j] == [events[j].region1.numDice, events[j].region2.numDice]
        invariant board == old(board) && numberOfPlayers == old(numberOfPlayers)
        invariant turnOfPlayer == tp && turnCounter == tc
      {
        var e := events[i];
        requests := requests + [[e.region1.numDice, e.region2.numDice]];
        gameLog := gameLog + [LogEntry(tp, e.region1, e.region2, 0, 0, tc)];
        assert StartEntries(events[..i + 1], tp, tc) == StartEntries(events[..i], tp, tc)
          + [LogEntry(tp, e.region1, e.region2, 0, 0, tc)];
      }
      assert events[..|events|] == events;
    }

    /**
     * `event_dice_roll_result`: every result overwrites the sums of the
     * last log entry, so the last result of the frame is what remains.
     */
    method DiceRollResult(results: seq<seq<seq<nat>>>)
      requires |results| > 0 ==> |gameLog| > 0
      requires forall i :: 0 <= i < |results| ==> |results[i]| >= 2
      requires Valid()
      modifies this
      ensures Valid()
      ensures |results| == 0 ==> gameLog == old(gameLog)
      ensures |results| > 0 ==> gameLog == WithSums(old(gameLog),
        Sum(results[|results| - 1][0]), Sum(results[|results| - 1][1]))
      ensures board == old(board) && numberOfPlayers == old(numberOfPlayers)
      ensures turnOfPlayer == old(turnOfPlayer) && turnCounter == old(turnCounter)
    {
      for i := 0 to |results|
        invariant i == 0 ==> gameLog == old(gameLog)
        invariant i > 0 ==> gameLog == WithSums(old(gameLog), Sum(results[i - 1][0]), Sum(results[i - 1][1]))
        invariant board == old(board) && numberOfPlayers == old(numberOfPlayers)
        invariant turnOfPlayer == old(turnOfPlayer) && turnCounter == old(turnCounter)
      {
        var last := gameLog[|gameLog| - 1];
        gameLog := gameLog[..|gameLog| - 1] + [last.(dice1Sum := Sum(results[i][0]), dice2Sum := Sum(results[i][1]))];
      }
    }

    /**
     * `event_dice_rolls_complete`: each roll timer that runs out this frame
     * emits a clash end built from the last log entry.
     */
    method DiceRollsComplete(finished: nat) returns (ends: seq<ClashEnd>)
      requires finished > 0 ==> |gameLog| > 0
      ensures |ends| == finished
      ensures forall i :: 0 <= i < finished ==> ends[i] == EndOf(gameLog[|gameLog| - 1])
    {
      ends := [];
      for i := 0 to finished
        invariant |ends| == i
        invariant forall j :: 0 <= j < i ==> ends[j] == EndOf(gameLog[|gameLog| - 1])
      {
        var last := gameLog[|gameLog| - 1];
        ends := ends + [ClashEnd(last.region1, last.region2, last.dice1Sum, last.dice2Sum)];
      }
    }

    /** One branch of the resolution, as the handler writes it: owner, then dice. */
    method CaptureRegion(winner: Region, loser: Region, draws: nat -> nat, t: nat)
      requires CanCapture(board.regions, winner, loser, Split(winner.numDice, draws, t))
      requires Valid()
      modifies this
      ensures Valid()
      ensures board == old(board).(regions := Capture(old(board.regions), winner, loser, Split(winner.numDice, draws, t)))
      ensures gameLog == old(gameLog) && numberOfPlayers == old(numberOfPlayers)
      ensures turnOfPlayer == old(turnOfPlayer) && turnCounter == old(turnCounter)
    {
      board := board.(regions := board.regions[loser.id := board.regions[loser.id].(owner := winner.owner)]);
      if winner.numDice > 1 {
        var k := GenRange(draws, t, 1, winner.numDice) as nat;
        board := board.(regions := board.regions[loser.id := board.regions[loser.id].(numDice := k)]);
        var gives := board.regions[loser.id].numDice - 1;
        board := board.(regions := board.regions[winner.id :=
          board.regions[winner.id].(numDice := board.regions[winner.id].numDice - gives)]);
      }
    }

    /** The rule at the end of every frame: with no unblocked region left, the turn passes. */
    method PassTurnIfBlocked()
      requires Valid()
      modifies this
      ensures Valid()
      ensures board == old(board) && gameLog == old(gameLog) && numberOfPlayers == old(numberOfPlayers)
      ensures var moved := MovedThisTurn(gameLog, old(turnCounter), old(turnOfPlayer));
        if UnblockedCount(board.regions, board.regions, moved, old(turnOfPlayer)) == 0
        then turnOfPlayer == NextPlayer(old(turnOfPlayer), numberOfPlayers) && turnCounter == old(turnCounter) + 1
        else turnOfPlayer == old(turnOfPlayer) && turnCounter == old(turnCounter)
    {
      var moved := MovedThisTurn(gameLog, turnCounter, turnOfPlayer);
      var unblocked := UnblockedCount(board.regions, board.regions, moved, turnOfPlayer);
      if unblocked == 0 {
        turnOfPlayer := turnOfPlayer + 1;
        if turnOfPlayer >= numberOfPlayers {
          turnOfPlayer := 0;
        }
        turnCounter := turnCounter + 1;
      }
    }

    /**
     * `event_region_clash_end`: resolve every clash end of the frame, pass
     * the turn if the player is blocked, then look for a winner; the
     * selection is cleared only after a clash and only if nobody has won.
     */
    method RegionClashEnd(events: seq<ClashEnd>, draws: nat -> nat, selected: SelectedRegion)
      returns (winner: Option<nat>)
      requires Valid()
      requires Resolvable(board.regions, events, draws)
      modifies this, selected
      ensures Valid()
      ensures board == Board(old(board).hexes, ResolveAll(old(board.regions), events, draws))
      ensures gameLog == old(gameLog) && numberOfPlayers == old(numberOfPlayers)
      ensures var moved := MovedThisTurn(gameLog, old(turnCounter), old(turnOfPlayer));
        if UnblockedCount(board.regions, board.regions, moved, old(turnOfPlayer)) == 0
        then turnOfPlayer == NextPlayer(old(turnOfPlayer), numberOfPlayers) && turnCounter == old(turnCounter) + 1
        else turnOfPlayer == old(turnOfPlayer) && turnCounter == old(turnCounter)
      ensures winner == Winner(board.regions)
      ensures selected.region == if |events| > 0 && winner.None? then None else old(selected.region)
    {
      var original := board.regions;
      for i := 0 to |events|
        invariant Resolvable(original, events[..i], draws)
        invariant board == Board(old(board).hexes, ResolveAll(original, events[..i], draws))
        invariant gameLog == old(gameLog) && numberOfPlayers == old(numberOfPlayers)
        invariant turnOfPlayer == old(turnOfPlayer) && turnCounter == old(turnCounter)
        invariant selected.region == old(selected.region)
      {
        assert events[..i + 1][..i] == events[..i];
        ResolvablePrefix(original, events, draws, i + 1);
        var e := events[i];
        if e.dice1Sum > e.dice2Sum {
          CaptureRegion(e.region1, e.region2, draws, i);
        } else {
          CaptureRegion(e.region2, e.region1, draws, i);
        }
      }
      assert events[..|events|] == events;
      PassTurnIfBlocked();
      winner := FindWinner(board.regions);
      if winner.Some? {
        return;
      }
      if |events| > 0 {
        selected.region := None;
      }
    }
  }

  /** A resolvable frame is resolvable on every prefix. */
  lemma {:induction false} ResolvablePrefix(rs: seq<Region>, es: seq<ClashEnd>, draws: nat -> nat, i: nat)
    requires Resolvable(rs, es, draws) && i <= |es|
    ensures Resolvable(rs, es[..i], draws)
    decreases |es| - i
  {
    if i < |es| {
      ResolvablePrefix(rs, es[..|es| - 1], draws, i);
      assert es[..|es| - 1][..i] == es[..i];
    } else {
      assert es[..i] == es;
    }
  }
}
