/**
  The players of the Mexico game and the game's helpers over the table of
  players. Players are objects: the game compares them by identity and
  changes their fields in place. The table itself is never written once it
  is filled (eliminating a player builds a new one), so it is passed as a
  sequence of references.
*/
module Mexico {
  import opened Scoring
  import opened Seqs

  /** No player may take more rolls than this in one round. */
  const MaxRolls := 3
  /** The money each player starts with. */
  const StartAmount := 3

  class Player {
    var name: string
    var amount: int   // money (lives) left
    var fstDice: int  // first die of the last roll this round, 0 before any roll
    var secDice: int  // second die of the last roll this round, 0 before any roll
    var nRolls: int   // rolls taken this round

    constructor (name: string, amount: int, fstDice: int, secDice: int, nRolls: int)
      ensures this.name == name && this.amount == amount
      ensures this.fstDice == fstDice && this.secDice == secDice && this.nRolls == nRolls
    {
      this.name := name;
      this.amount := amount;
      this.fstDice := fstDice;
      this.secDice := secDice;
      this.nRolls := nRolls;
    }
  }

  /** The rank of a player's current roll. */
  function PlayerScore(p: Player): int
    reads p
  {
    Score(p.fstDice, p.secDice)
  }

  /** The ranks of the players' rolls, position by position. */
  ghost function Scores(ps: seq<Player>): (r: seq<int>)
    reads ps
    ensures |r| == |ps|
    ensures forall i :: 0 <= i < |ps| ==> r[i] == PlayerScore(ps[i])
  {
    if |ps| == 0 then [] else [PlayerScore(ps[0])] + Scores(ps[1..])
  }

  /** Every player has rolled, and all have rolled equally often. */
  ghost predicate RolledEvenly(ps: seq<Player>)
    reads ps
  {
    forall i :: 0 <= i < |ps| ==> ps[i].nRolls != 0 && ps[i].nRolls == ps[0].nRolls
  }

  /**
    From the state before to now, p has thrown the dice fst and sec and
    counted one more roll; its name and money are as they were.
  */
  twostate predicate Threw(p: Player, fst: int, sec: int)
    reads p
  {
    && p.fstDice == fst && p.secDice == sec && p.nRolls == old(p.nRolls) + 1
    && p.name == old(p.name) && p.amount == old(p.amount)
  }

  /** From the state before to now, no player at the table but p has changed. */
  twostate predicate OthersUnchanged(ps: seq<Player>, p: Player)
    reads ps
  {
    forall i :: 0 <= i < |ps| && ps[i] != p ==> unchanged(ps[i])
  }

  /** The position of a player, by identity; -1 when it is not at the table. */
  method IndexOf(players: seq<Player>, player: Player) returns (i: int)
    ensures -1 <= i < |players|
    ensures 0 <= i ==> players[i] == player && forall j :: 0 <= j < i ==> players[j] != player
    ensures i == -1 <==> player !in players
    ensures i == FirstIndex(players, player)
  {
    i := 0;
    while i < |players|
      invariant 0 <= i <= |players|
      invariant forall j :: 0 <= j < i ==> players[j] != player
    {
      if players[i] == player {
        assert player !in players[..i];
        return;
      }
      i := i + 1;
    }
    i := -1;
  }

  /** Puts the dice of one roll (each in 1..6) on a player, who is returned. */
  method RollDice(player: Player, fst: int, sec: int) returns (r: Player)
    requires IsFace(fst) && IsFace(sec)
    modifies player
    ensures r == player
    ensures player.fstDice == fst && player.secDice == sec
    ensures player.name == old(player.name) && player.amount == old(player.amount)
    ensures player.nRolls == old(player.nRolls)
  {
    player.fstDice := fst;
    player.secDice := sec;
    r := player;
  }

  /**
    The loser of a round: a player with the lowest score, the earliest one
    among equal lowest scores.
  */
  method GetLoser(players: seq<Player>) returns (loser: Player)
    requires |players| > 0
    ensures loser == players[LowestFirst(Scores(players))]
    ensures forall j :: 0 <= j < |players| ==> PlayerScore(loser) <= PlayerScore(players[j])
  {
    ghost var all := Scores(players);
    var loserIndex := 0;
    var loserScore := PlayerScore(players[0]);
    var i := 1;
    while i < |players|
      invariant 1 <= i <= |players| && loserIndex < i
      invariant loserScore == all[loserIndex]
      invariant forall j :: 0 <= j < i ==> loserScore <= all[j]
      invariant forall j :: 0 <= j < loserIndex ==> loserScore < all[j]
    {
      var score := PlayerScore(players[i]);
      if score < loserScore {
        loserScore := score;
        loserIndex := i;
      }
      i := i + 1;
    }
    LowestFirstUnique(all, loserIndex);
    loser := players[loserIndex];
  }

  /**
    The players without the loser, copied into a new array one shorter.
    When the loser sits at the table once, the others keep their order.
  */
  method RemoveLoser(players: seq<Player>, loser: Player) returns (newList: seq<Player>)
    requires multiset(players)[loser] == 1
    ensures |newList| == |players| - 1
    ensures newList == Without(players, loser)
  {
    ghost var k := FirstIndex(players, loser);
    OccursOnlyAt(players, loser, k);
    // Dafny arrays of objects must be filled when made; every slot is overwritten below.
    var a := new Player[|players| - 1](_ => loser);
    var newIndex := 0;
    var i := 0;
    while i < |players|
      invariant 0 <= i <= |players|
      invariant newIndex == if i <= k then i else i - 1
      invariant forall j :: 0 <= j < newIndex && j < k ==> a[j] == players[j]
      invariant forall j :: k <= j < newIndex ==> a[j] == players[j + 1]
      modifies a
    {
      if players[i] != loser {
        assert newIndex == if i < k then i else i - 1;
        a[newIndex] := players[i];
        newIndex := newIndex + 1;
      }
      i := i + 1;
    }
    newList := a[..];
    WithoutOnce(players, loser, k);
    GapClosed(newList, players, k);
  }

  /** The player after the given one, circularly; the first player when it is absent. */
  method Next(players: seq<Player>, current: Player) returns (r: Player)
    requires |players| > 0
    ensures r == Successor(players, current)
  {
    var nextPlayer := IndexOf(players, current);
    r := players[(nextPlayer + 1) % |players|];
  }

  /** Whether every player has rolled the same, non-zero, number of times. */
  method AllRolled(players: seq<Player>) returns (b: bool)
    requires |players| > 0
    ensures b <==> RolledEvenly(players)
  {
    var rolls := players[0].nRolls;
    var i := 0;
    while i < |players|
      invariant 0 <= i <= |players|
      invariant forall j :: 0 <= j < i ==> players[j].nRolls != 0 && players[j].nRolls == rolls
    {
      if players[i].nRolls == 0 || players[i].nRolls != rolls {
        return false;
      }
      i := i + 1;
    }
    return true;
  }

  /** Wipes every player's roll for a new round; names and money stay. */
  method ClearRound(players: seq<Player>)
    modifies players
    ensures forall j :: 0 <= j < |players| ==>
      players[j].fstDice == 0 && players[j].secDice == 0 && players[j].nRolls == 0
    ensures forall j :: 0 <= j < |players| ==>
      players[j].name == old(players[j].name) && players[j].amount == old(players[j].amount)
  {
    var i := 0;
    while i < |players|
      invariant 0 <= i <= |players|
      invariant forall j :: 0 <= j < i ==>
        players[j].fstDice == 0 && players[j].secDice == 0 && players[j].nRolls == 0
      invariant forall j :: 0 <= j < |players| ==>
        players[j].name == old(players[j].name) && players[j].amount == old(players[j].amount)
    {
      var clearedPlayer := players[i];
      clearedPlayer.fstDice := 0;
      clearedPlayer.secDice := 0;
      clearedPlayer.nRolls := 0;
      i := i + 1;
    }
  }
}
