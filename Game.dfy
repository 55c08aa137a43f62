/**
  The round and turn state machine of the Mexico game: whose turn it is,
  how many rolls each player may take, when a round is over, who loses it,
  and who is eliminated, until one player is left.

  One call of Step is one pass of the game's inner loop: the current
  player's command, then the check whether everybody has rolled, and, when
  the round is over and the game goes on, the start of the next round.
*/
module MexicoGame {
  import opened Scoring
  import opened Seqs
  import opened Mexico

  datatype Option<T> = None | Some(value: T)

  /** What the current player's command did. */
  datatype Move =
    | Rolled       // "r" within the limits: the dice were rolled
    | RollRefused  // "r" beyond a limit: refused, and the turn moves on
    | Passed       // "n" after at least one roll: the turn moves on
    | Ignored      // anything else, including "n" before rolling: nothing happens

  /** A roll is allowed below the cap and, for anyone but the leader, below the leader's count. */
  predicate RollAllowed(nRolls: int, isLeader: bool, leaderRolls: int) {
    nRolls < MaxRolls && (isLeader || nRolls < leaderRolls)
  }

  /** How the game answers a command, given the current player's rolls so far. */
  function MoveFor(cmd: string, nRolls: int, isLeader: bool, leaderRolls: int): Move {
    if cmd == "r" then
      if RollAllowed(nRolls, isLeader, leaderRolls) then Rolled else RollRefused
    else if nRolls >= 1 && cmd == "n" then Passed
    else Ignored
  }

  /** A player's round fields after at most cap rolls: dice are blank before the first roll. */
  ghost predicate RoundFields(p: Player, cap: int)
    reads p
  {
    && 0 <= p.nRolls <= cap
    && (p.nRolls == 0 ==> p.fstDice == 0 && p.secDice == 0)
    && (p.nRolls > 0 ==> IsFace(p.fstDice) && IsFace(p.secDice))
  }

  /** One new player per name, each with the start amount and a blank roll. */
  method NewPlayers(names: seq<string>) returns (ps: seq<Player>)
    ensures |ps| == |names| && Distinct(ps)
    ensures forall j :: 0 <= j < |ps| ==> fresh(ps[j])
    ensures forall j :: 0 <= j < |ps| ==>
      ps[j].name == names[j] && ps[j].amount == StartAmount &&
      ps[j].fstDice == 0 && ps[j].secDice == 0 && ps[j].nRolls == 0
  {
    ps := [];
    var i := 0;
    while i < |names|
      invariant 0 <= i <= |names| && |ps| == i
      invariant Distinct(ps)
      invariant forall j :: 0 <= j < i ==> fresh(ps[j])
      invariant forall j :: 0 <= j < i ==>
        ps[j].name == names[j] && ps[j].amount == StartAmount &&
        ps[j].fstDice == 0 && ps[j].secDice == 0 && ps[j].nRolls == 0
    {
      var p := new Player(names[i], StartAmount, 0, 0, 0);
      DistinctAppend(ps, p);
      ps := ps + [p];
      i := i + 1;
    }
  }

  class Game {
    /** The players still at the table, in seating order. */
    var players: seq<Player>
    /** Whose turn it is. */
    var current: Player
    /** Who opened the round. */
    var leader: Player
    /** How often the leader has rolled this round: the cap for everybody else. */
    var leaderRolls: int
    /** What the winner will get: one for every round lost. */
    var pot: int
    /** The money at the table when the game began. */
    ghost const stakes: int
    /** The players' money, position by position. */
    ghost var money: seq<int>
    /** Everybody who ever sat at the table: what the game may change. */
    ghost const everyone: set<Player>

    /** The seating: distinct players, their money, and the pot holding what they lost. */
    ghost predicate Seating()
      reads this`players, this`money, this`pot, players`amount
    {
      && |players| >= 1
      && Distinct(players)
      && (forall i :: 0 <= i < |players| ==> players[i] in everyone)
      && |money| == |players|
      && (forall i :: 0 <= i < |players| ==> players[i].amount == money[i])
      && 0 <= pot
      && pot + Sum(money) == stakes
    }

    /** The table between rounds and during one: everybody seated still has money. */
    ghost predicate Table()
      reads this`players, this`money, this`pot, players`amount
    {
      Seating() && forall i :: 0 <= i < |money| ==> money[i] >= 1
    }

    /** A round in progress: nobody has out-rolled the leader or the cap. */
    ghost predicate InRound()
      reads this`players, this`current, this`leader, this`leaderRolls, players
    {
      && current in players
      && leader in players
      && 0 <= leaderRolls <= MaxRolls
      && leader.nRolls == leaderRolls
      && (forall i :: 0 <= i < |players| ==> RoundFields(players[i], leaderRolls))
    }

    /** Between two commands; while more than one player is left, the round is still open. */
    ghost predicate Valid()
      reads this`players, this`money, this`pot, this`current, this`leader, this`leaderRolls, players
    {
      Table() && (|players| > 1 ==> InRound() && !RolledEvenly(players))
    }

    /**
      A new game: one player per name, each with the start amount, and the
      round opened by the player at position first (the source draws it at
      random).
    */
    constructor (names: seq<string>, first: nat)
      requires |names| >= 1 && first < |names|
      ensures Valid()
      ensures |players| == |names|
      ensures forall i :: 0 <= i < |names| ==>
        fresh(players[i]) && players[i].name == names[i] && players[i].amount == StartAmount
      ensures forall i :: 0 <= i < |names| ==>
        players[i].fstDice == 0 && players[i].secDice == 0 && players[i].nRolls == 0
      ensures pot == 0 && stakes == StartAmount * |names|
      ensures current == players[first] && leader == current && leaderRolls == 0
      ensures fresh(everyone)
    {
      var ps := NewPlayers(names);
      players := ps;
      current := ps[first];
      leader := current;
      leaderRolls := 0;
      pot := 0;
      stakes := StartAmount * |names|;
      money := seq(|names|, _ => StartAmount);
      everyone := Elements(ps);
      new;
      SumConstant(money, StartAmount);
      if |players| > 1 {
        // the start of the first round
        StartRound();
      }
    }

    /**
      One pass of program()'s inner loop: the current player's command
      (typed as cmd; fst and sec are the dice a roll would throw), then the
      end of the round if everybody has now rolled equally often. The
      program checks for the end of the round first and reads the command
      after; checking after the command instead is the same, because the
      check at the top of each round always fails (Valid() says not
      everybody has rolled) and every later check follows a command.
      A round can only end on an accepted roll. Its loser is the earliest
      player with the lowest of the rolls standing at that moment (scores,
      position by position), and what the loser pays and whether the loser
      leaves is Lost. Otherwise the command's effect is all that changes.
    */
    method Step(cmd: string, fst: int, sec: int) returns (move: Move, loser: Option<Player>, ghost k: nat, ghost scores: seq<int>)
      requires Valid() && |players| > 1
      requires IsFace(fst) && IsFace(sec)
      modifies this`players, this`money, this`pot, this`current, this`leader, this`leaderRolls, everyone
      ensures Valid()
      ensures move == MoveFor(cmd, old(current.nRolls), old(current) == old(leader), old(leaderRolls))
      ensures pot == old(pot) + (if loser.Some? then 1 else 0)
      ensures loser.None? ==>
        && players == old(players) && money == old(money) && leader == old(leader)
        && !RolledEvenly(players) && OthersUnchanged(players, old(current))
      ensures loser.None? && move == Rolled ==>
        && current == old(current) && Threw(current, fst, sec)
        && leaderRolls == if current == leader then current.nRolls else old(leaderRolls)
      ensures loser.None? && (move == RollRefused || move == Passed) ==>
        current == Successor(players, old(current)) && unchanged(old(current)) && leaderRolls == old(leaderRolls)
      ensures loser.None? && move == Ignored ==>
        current == old(current) && unchanged(current) && leaderRolls == old(leaderRolls)
      ensures loser.Some? ==>
        && move == Rolled
        && |scores| == |old(players)|
        && (forall i :: 0 <= i < |scores| ==>
              scores[i] == if old(players)[i] == old(current) then Score(fst, sec) else old(PlayerScore(players[i])))
        && k == LowestFirst(scores) && k < |old(players)|
        && Lost(loser.value, k, old(players), old(money), old(pot), old(current))
      ensures |players| <= old(|players|)
      ensures |players| < old(|players|) ==> loser.Some? && loser.value !in players
    {
      move := Command(cmd, fst, sec);
      loser, k, scores := FinishRound();
    }

    /** The prize the game announces when one player is left: one more than the pot. */
    function AnnouncedPrize(): (r: int)
      reads this`players, this`money, this`pot, this`current, this`leader, this`leaderRolls, players
      requires Valid() && |players| == 1
      ensures r == stakes - players[0].amount + 1
    {
      assert money[1..] == [] && Sum(money) == money[0];
      assert players[0].amount == money[0];
      pot + 1
    }

    /** What the winner is owed when one player is left: everything lost in the game, the pot. */
    function Prize(): (r: int)
      reads this`players, this`money, this`pot, this`current, this`leader, this`leaderRolls, players
      requires Valid() && |players| == 1
      ensures r == stakes - players[0].amount
      ensures 0 <= r < stakes
    {
      assert money[1..] == [] && Sum(money) == money[0];
      assert players[0].amount == money[0];
      pot
    }

    /**
      The announced prize exceeds what was lost by one: every lost round,
      the last one included, has already been paid into the pot.
    */
    lemma AnnouncedPrizeOverpays()
      requires Valid() && |players| == 1
      ensures AnnouncedPrize() == Prize() + 1
      ensures AnnouncedPrize() > stakes - players[0].amount
    {
    }

    /**
      The current player's command: "r" rolls when the limits allow and
      otherwise passes the turn on; "n" passes the turn on after at least
      one roll; anything else does nothing.
    */
    method Command(cmd: string, fst: int, sec: int) returns (move: Move)
      requires Valid() && |players| > 1
      requires IsFace(fst) && IsFace(sec)
      modifies this`current, this`leaderRolls, current
      ensures Table() && InRound() && players == old(players) && money == old(money) && pot == old(pot)
      ensures move == MoveFor(cmd, old(current.nRolls), old(current) == leader, old(leaderRolls))
      ensures move != Rolled ==> !RolledEvenly(players)
      ensures move == Rolled ==> forall i :: 0 <= i < |players| ==>
        PlayerScore(players[i]) == if players[i] == old(current) then Score(fst, sec) else old(PlayerScore(players[i]))
      ensures OthersUnchanged(players, old(current))
      ensures move == Rolled ==>
        && current == old(current) && Threw(current, fst, sec)
        && leaderRolls == if current == leader then current.nRolls else old(leaderRolls)
      ensures move == RollRefused || move == Passed ==>
        && current == Successor(players, old(current))
        && unchanged(old(current))
        && leaderRolls == old(leaderRolls)
      ensures move == Ignored ==>
        current == old(current) && unchanged(current) && leaderRolls == old(leaderRolls)
    {
      if cmd == "r" {
        move := Roll(fst, sec);
      } else if current.nRolls >= 1 && cmd == "n" {
        PassTurn();
        move := Passed;
      } else {
        move := Ignored;
      }
    }

    /**
      The command "r": refused, passing the turn on, when the current player
      has reached the cap or, not being the leader, the leader's count;
      otherwise the dice are rolled and counted, and a roll of the leader
      raises the leader's count.
    */
    method Roll(fst: int, sec: int) returns (move: Move)
      requires Valid() && |players| > 1
      requires IsFace(fst) && IsFace(sec)
      modifies this`current, this`leaderRolls, current
      ensures Table() && InRound() && players == old(players) && money == old(money) && pot == old(pot)
      ensures move == if RollAllowed(old(current.nRolls), old(current) == leader, old(leaderRolls))
        then Rolled else RollRefused
      ensures move == RollRefused ==> !RolledEvenly(players)
      ensures move == Rolled ==> forall i :: 0 <= i < |players| ==>
        PlayerScore(players[i]) == if players[i] == old(current) then Score(fst, sec) else old(PlayerScore(players[i]))
      ensures OthersUnchanged(players, old(current))
      ensures move == Rolled ==>
        && current == old(current) && Threw(current, fst, sec)
        && leaderRolls == if current == leader then current.nRolls else old(leaderRolls)
      ensures move == RollRefused ==>
        && current == Successor(players, old(current))
        && unchanged(old(current))
        && leaderRolls == old(leaderRolls)
    {
      if current.nRolls >= MaxRolls || (current != leader && current.nRolls >= leaderRolls) {
        PassTurn();
        move := RollRefused;
      } else {
        Throw(fst, sec);
        move := Rolled;
      }
    }

    /** An allowed roll: the dice are thrown and counted, and the leader's count follows the leader. */
    method Throw(fst: int, sec: int)
      requires Valid() && |players| > 1
      requires IsFace(fst) && IsFace(sec)
      requires RollAllowed(current.nRolls, current == leader, leaderRolls)
      modifies this`leaderRolls, current
      ensures Table() && InRound() && players == old(players) && money == old(money) && pot == old(pot)
      ensures Threw(current, fst, sec) && OthersUnchanged(players, current)
      ensures leaderRolls == if current == leader then current.nRolls else old(leaderRolls)
      ensures forall i :: 0 <= i < |players| ==>
        PlayerScore(players[i]) == if players[i] == current then Score(fst, sec) else old(PlayerScore(players[i]))
    {
      var rolled := RollDice(current, fst, sec);
      current.nRolls := current.nRolls + 1;
      if current == leader {
        leaderRolls := current.nRolls;
      }
    }

    /** The turn moves on to the next player at the table. */
    method PassTurn()
      requires Valid() && |players| > 1
      modifies this`current
      ensures Valid()
      ensures current == Successor(players, old(current))
    {
      current := Next(players, current);
    }

    /**
      If every player has rolled equally often, the round is over: the
      loser pays one into the pot and, out of money, leaves the table. If
      more than one player is left, the next round starts.
    */
    method FinishRound() returns (loser: Option<Player>, ghost k: nat, ghost scores: seq<int>)
      requires Table() && InRound() && |players| > 1
      modifies this`players, this`money, this`pot, this`current, this`leader, this`leaderRolls, everyone
      ensures Valid()
      ensures scores == old(Scores(players))
      ensures loser.None? <==> !old(RolledEvenly(players))
      ensures loser.None? ==> unchanged(this) && unchanged(everyone)
      ensures loser.Some? ==>
        && k == LowestFirst(scores) && k < |old(players)|
        && Lost(loser.value, k, old(players), old(money), old(pot), old(current))
      ensures loser.Some? ==> loser.value in old(players) && pot == old(pot) + 1
      ensures |players| <= old(|players|)
      ensures |players| < old(|players|) ==> loser.Some? && loser.value !in players
    {
      scores := Scores(players);
      var all := AllRolled(players);
      if !all {
        return None, 0, scores;
      }
      var l;
      l, k := EndRound();
      loser := Some(l);
    }

    /**
      What the end of a round leaves behind, given the loser's position k
      and the table, money, pot and current player before: the loser has
      paid one into the pot; a loser with money left keeps the table as it
      was, one without leaves it; and unless the game is over the next
      round is open, led by the current player, who is the one after the
      old current player when somebody left.
    */
    ghost predicate Lost(l: Player, k: nat, before: seq<Player>, money0: seq<int>, pot0: int, current0: Player)
      requires k < |before| == |money0|
      reads this`players, this`money, this`pot, this`current, this`leader, this`leaderRolls, l, players
    {
      && l == before[k]
      && l.amount == money0[k] - 1
      && pot == pot0 + 1
      && (l.amount > 0 ==> players == before && money == money0[k := money0[k] - 1])
      && (l.amount == 0 ==>
            && players == before[..k] + before[k + 1..] && money == money0[..k] + money0[k + 1..]
            && l !in players)
      && (|players| > 1 ==>
            && current == (if l.amount == 0 then Successor(players, current0) else current0)
            && leader == current && leaderRolls == 0
            && forall i :: 0 <= i < |players| ==>
                 players[i].fstDice == 0 && players[i].secDice == 0 && players[i].nRolls == 0)
      && (|players| == 1 ==> l.amount == 0 && current == current0)
    }

    /**
      After a lost round the loser was at the table, the pot has grown by
      one, and the table has shrunk only if the loser has left it.
    */
    lemma LostShape(l: Player, k: nat, before: seq<Player>, money0: seq<int>, pot0: int, current0: Player)
      requires k < |before| == |money0| && money0[k] >= 1
      requires Lost(l, k, before, money0, pot0, current0)
      ensures l in before && pot == pot0 + 1
      ensures |players| <= |before|
      ensures |players| < |before| ==> l !in players
    {
    }

    /** The round's loser and, for the proof, the loser's position. */
    method PickLoser() returns (l: Player, ghost k: nat)
      requires |players| > 0
      ensures k == LowestFirst(Scores(players)) && l == players[k]
    {
      k := LowestFirst(Scores(players));
      l := GetLoser(players);
    }

    /** The end of a round in which everybody has rolled: the loser is picked and settled. */
    method EndRound() returns (l: Player, ghost k: nat)
      requires Table() && |players| > 1 && current in players && leader in players
      modifies this`players, this`money, this`pot, this`current, this`leader, this`leaderRolls, everyone
      ensures Valid()
      ensures k == LowestFirst(old(Scores(players))) && k < |old(players)|
      ensures Lost(l, k, old(players), old(money), old(pot), old(current))
      ensures l in old(players) && pot == old(pot) + 1
      ensures |players| <= old(|players|)
      ensures |players| < old(|players|) ==> l !in players
    {
      ghost var before, money0, pot0, current0 := players, money, pot, current;
      l, k := PickLoser();
      Settle(l, k);
      LostShape(l, k, before, money0, pot0, current0);
    }

    /**
      The loser, at position k, pays one into the pot and then stays at the
      table or leaves it.
    */
    method Settle(l: Player, ghost k: nat)
      requires Table() && |players| > 1 && current in players && leader in players
      requires k < |players| && players[k] == l
      modifies this`players, this`money, this`pot, this`current, this`leader, this`leaderRolls, everyone
      ensures Valid()
      ensures Lost(l, k, old(players), old(money), old(pot), old(current))
    {
      ghost var money0, pot0 := money, pot;
      Charge(l, k);
      if l.amount == 0 {
        Leave(l, k, money0, pot0);
      } else {
        Stay(l, k, money0, pot0);
      }
    }

    /**
      The loser, at position k with money left, has paid: the leader moves
      on to the next player, the rolls are wiped, and the leader so computed
      is at once replaced by the current player when the next round starts.
    */
    method Stay(l: Player, ghost k: nat, ghost money0: seq<int>, ghost pot0: int)
      requires Table() && |players| > 1 && current in players && leader in players
      requires k < |players| == |money0| && players[k] == l && l.amount == money0[k] - 1 > 0
      requires money == money0[k := money0[k] - 1] && pot == pot0 + 1
      modifies this`leader, this`leaderRolls, players
      ensures Valid()
      ensures Lost(l, k, old(players), money0, pot0, old(current))
    {
      leader := Next(players, leader);
      NewRound();
    }

    /**
      The loser, at position k, is out of money: the loser leaves (removeLoser); unless one player is left, the turn goes to the player
      after the old current player at the reduced table (the first player,
      when the current player was the one who left), who leads the next
      round.
    */
    method Leave(l: Player, ghost k: nat, ghost money0: seq<int>, ghost pot0: int)
      requires Seating() && |players| > 1 && current in players
      requires k < |players| == |money0| && players[k] == l && l.amount == money0[k] - 1 == 0
      requires money == money0[k := money0[k] - 1] && pot == pot0 + 1
      requires forall i :: 0 <= i < |players| && i != k ==> money[i] >= 1
      modifies this`players, this`money, this`current, this`leader, this`leaderRolls, everyone
      ensures Valid()
      ensures Lost(l, k, old(players), money0, pot0, old(current))
    {
      Eliminate(l, k);
      assert money == money0[..k] + money0[k + 1..];
      if |players| == 1 {
        return;
      }
      var after := Next(players, current);
      OpenRound(after);
    }

    /** The given player takes the turn and leads the new round, whose rolls are wiped. */
    method OpenRound(c: Player)
      requires Table() && |players| > 1 && c in players
      modifies this`current, this`leaderRolls, this`leader, players
      ensures Valid()
      ensures players == old(players) && money == old(money) && pot == old(pot)
      ensures current == c && leader == c && leaderRolls == 0
      ensures forall i :: 0 <= i < |players| ==>
        players[i].fstDice == 0 && players[i].secDice == 0 && players[i].nRolls == 0
    {
      current := c;
      leader := current;
      NewRound();
    }

    /** Rolls wiped at the end of a round, and the next round started. */
    method NewRound()
      requires Table() && |players| > 1 && current in players
      modifies this`leaderRolls, this`leader, players
      ensures Valid()
      ensures players == old(players) && current == old(current) && money == old(money) && pot == old(pot)
      ensures leader == current && leaderRolls == 0
      ensures forall i :: 0 <= i < |players| ==>
        players[i].fstDice == 0 && players[i].secDice == 0 && players[i].nRolls == 0
      ensures forall i :: 0 <= i < |players| ==>
        players[i].name == old(players[i].name) && players[i].amount == old(players[i].amount)
    {
      ClearRound(players);
      StartRound();
    }

    /** The round's loser, at position k, pays one into the pot. */
    method Charge(l: Player, ghost k: nat)
      requires Table() && k < |players| && players[k] == l
      modifies this`pot, this`money, l`amount
      ensures pot == old(pot) + 1 && l.amount == old(l.amount) - 1
      ensures money == old(money)[k := old(money)[k] - 1]
      ensures Seating()
      ensures forall i :: 0 <= i < |players| && i != k ==> money[i] >= 1
    {
      forall i | 0 <= i < |players| && i != k
        ensures players[i] != l
      {
        DistinctAt(players, i, k);
      }
      l.amount := l.amount - 1;
      pot := pot + 1;
      SumUpdate(money, k, money[k] - 1);
      money := money[k := money[k] - 1];
    }

    /** The start of a round (top of program()'s outer loop): rolls wiped, the current player leads. */
    method StartRound()
      requires Table() && |players| > 1 && current in players
      modifies this`leaderRolls, this`leader, players
      ensures Valid()
      ensures players == old(players) && current == old(current) && money == old(money) && pot == old(pot)
      ensures leader == current && leaderRolls == 0
      ensures forall i :: 0 <= i < |players| ==>
        players[i].fstDice == 0 && players[i].secDice == 0 && players[i].nRolls == 0
      ensures forall i :: 0 <= i < |players| ==>
        players[i].name == old(players[i].name) && players[i].amount == old(players[i].amount)
    {
      ClearRound(players);
      leaderRolls := 0;
      leader := current;
    }

    /** A loser out of money leaves the table; the others keep their order. */
    method Eliminate(l: Player, ghost k: nat)
      requires Seating() && |players| > 1
      requires k < |players| && players[k] == l && l.amount == 0
      requires forall i :: 0 <= i < |players| && i != k ==> money[i] >= 1
      modifies this`players, this`money
      ensures Table()
      ensures players == old(players)[..k] + old(players)[k + 1..]
      ensures money == old(money)[..k] + old(money)[k + 1..]
      ensures l !in players
    {
      ghost var before := players;
      DistinctOnce(before, k);
      players := RemoveLoser(players, l);
      WithoutOnce(before, l, k);
      RemoveAtDistinct(before, k);
      SumRemoveAt(money, k);
      money := money[..k] + money[k + 1..];
      forall i | 0 <= i < |players|
        ensures players[i].amount == money[i] && money[i] >= 1 && players[i] in everyone
      {
        var j := if i < k then i else i + 1;
        assert players[i] == before[j] && money[i] == old(money)[j];
      }
    }
  }
  /** One typed command and the dice a roll would throw. */
  datatype Input = Input(cmd: string, fst: int, sec: int)

  /**
    The whole game, program(): a table for the given names, the first
    turn at position first, then one step per input until one player is
    left or the inputs run out. Returns the game and how many inputs it
    took.
  */
  method Play(names: seq<string>, first: nat, inputs: seq<Input>) returns (g: Game, taken: nat)
    requires |names| >= 1 && first < |names|
    requires forall i :: 0 <= i < |inputs| ==> IsFace(inputs[i].fst) && IsFace(inputs[i].sec)
    ensures fresh(g) && g.Valid()
    ensures g.stakes == StartAmount * |names|
    ensures 1 <= |g.players| <= |names| && taken <= |inputs|
    ensures |g.players| > 1 ==> taken == |inputs|
    ensures |names| > 1 && |g.players| == 1 ==> 0 < taken && g.Prize() > 0
  {
    g := new Game(names, first);
    taken := 0;
    while taken < |inputs| && |g.players| > 1
      invariant fresh(g) && fresh(g.everyone) && g.Valid()
      invariant g.stakes == StartAmount * |names|
      invariant 1 <= |g.players| <= |names| && taken <= |inputs|
      invariant |names| > 1 && |g.players| == 1 ==> 0 < taken && g.pot > 0
      invariant taken == 0 ==> g.pot == 0 && |g.players| == |names|
    {
      var input := inputs[taken];
      var move, loser, k, scores := g.Step(input.cmd, input.fst, input.sec);
      taken := taken + 1;
    }
  }
}
