# Mexico dice game — a verified model

Mexico is a dice game for a table of players who each start with the same
money (three units). A round goes around the table from the player who
opens it, the leader. Each player throws two dice up to three times. Nobody
but the leader may throw more often than the leader did. The rank of a
throw reads the higher die as tens and the lower die as ones. When every
player has thrown equally often, the player with the lowest rank loses the
round and pays one unit into the pot. On a tie the earliest seat loses. A
player without money leaves the table. The last player left wins the pot.

The program is one Java class, `src/Mexico.java`. Its helpers work over the
array of players, and the nested loops of `program()` form the round and
turn state machine. This project models both layers in Dafny:

- `Scoring.dfy` (module `Scoring`): the rank of a pair of dice, `getScore`.
- `Seqs.dfy` (module `Seqs`): reference definitions on plain sequences.
  They cover the first position of a reference, the circular successor and
  its iteration, removal of an entry, the earliest lowest score, and sums.
  Each comes with the lemmas proved about it.
- `Mexico.dfy` (module `Mexico`): the `Player` class and the helper methods
  `IndexOf`, `RollDice`, `GetLoser`, `RemoveLoser`, `Next`, `AllRolled`
  and `ClearRound`. Each is specified by the functions of `Seqs`.
- `Game.dfy` (module `MexicoGame`) covers the state of `program()`:
  - The `Game` class holds the table, the current player, the leader, the
    leader's throw count and the pot.
  - `Step` models one pass of the inner loop: the current player's command
    `"r"`, `"n"` or anything else, then the end of the round if everybody
    has thrown. The program makes the end-of-round check first and reads
    the command after it. The two orders agree because the check at the
    top of a round always fails (`Valid()` says not everybody has thrown
    yet) and every later check follows a command.
  - `Play` models the whole game over a list of inputs.
  - `Valid()` is the invariant every step keeps. The seated players are
    distinct and all have money. The pot plus everybody's money is what the
    table started with. A round is open: no player is past the cap or the
    leader's count, and not everybody has thrown yet.

Several quirks of the code are modelled as written:

- A `{1,2}` throw ranks 21, like any other throw. The constant `mexico` is
  declared and never used.
- A refused throw passes the turn on.
- The leader rotation of line 61 is overwritten at once by line 43, so every
  round is led by the current player.
- After an elimination, `next` is asked for the successor of a `current`
  that may just have left. `indexOf` then gives -1, so the turn goes to the
  first seat.

## Model

| member | source | states |
|---|---|---|
| Scoring.Score | src/Mexico.java:118-129 | whichever of the three branches applies, the rank is ten times the higher die plus the lower die |
| Scoring.DoubleScore | src/Mexico.java:124-125 | a double d ranks 11·d, so doubles get no bonus |
| Scoring.ScoreSymmetric | src/Mexico.java:118-129 | the order of the two dice does not change the rank |
| Scoring.MexicoIsOrdinary | src/Mexico.java:122-123 | a 1-2 ranks 21 in either order, never the `mexico` constant, and below a 3-1 |
| Scoring.ScoreRange | src/Mexico.java:118-129 | real dice rank between 11 and 66, always below the `mexico` constant |
| Scoring.ScoreOrder | src/Mexico.java:118-129 | between real dice, one throw ranks lower than another exactly when its higher die is lower, or the higher dice are equal and its lower die is lower |
| Scoring.ScoreTie | src/Mexico.java:118-129 | two throws of real dice tie exactly when they show the same two faces |
| Scoring.ScoreExamples | src/Mexico.java:254-255 | 2-6 ranks 62 and 6-5 ranks 65, as the commented-out test expects |
| Mexico.Player.constructor | src/Mexico.java:219-225 | a new player holds exactly the given name, money, dice and throw count |
| Mexico.IndexOf | src/Mexico.java:98-105 | the result is the first seat holding that very object, or -1 exactly when the player is not at the table |
| Mexico.RollDice | src/Mexico.java:111-116 | the player gets the given dice, the rest of the player is unchanged, and the same player is returned |
| Mexico.GetLoser | src/Mexico.java:131-142 | the loser ranks no higher than anyone at the table and is the earliest seat with the lowest rank |
| Mexico.RemoveLoser | src/Mexico.java:144-154 | for a loser seated once, the new table is one shorter, lacks the loser and keeps everybody else in order |
| Mexico.Next | src/Mexico.java:156-159 | the result is the circular successor of the given player, from the seat after its first occurrence |
| Mexico.AllRolled | src/Mexico.java:161-169 | true exactly when every player has thrown, and all as often as the first player |
| Mexico.ClearRound | src/Mexico.java:171-177 | every player's dice and throw count become 0, and names and money are unchanged |
| Seqs.FirstIndex | src/Mexico.java:98-105 | the position holds x and no earlier one does, or the result is -1 exactly when x does not occur |
| Seqs.FirstIndexOfDistinct | src/Mexico.java:98-105 | at a table without repeats, the first position of the player at seat i is i |
| Seqs.SuccessorAt | src/Mexico.java:156-159 | at a table without repeats, the successor of seat i is seat i+1, and seat 0 for the last seat |
| Seqs.SuccessorOfAbsent | src/Mexico.java:156-159 | the successor of a player not at the table is the first player |
| Seqs.TurnsAt | src/Mexico.java:156-159 | k turns from seat i, at most one lap, land on seat i+k, counted around the table |
| Seqs.FullCircle | src/Mexico.java:156-159 | at a table of n distinct players, n turns return to the starting player |
| Seqs.SuccessorExample | src/Mexico.java:256 | at a table of three distinct players, the next after the first is the second, as the commented-out test expects |
| Seqs.Without | src/Mexico.java:144-154 | removing x leaves no x, and shortens the sequence by the number of occurrences of x |
| Seqs.WithoutOnce | src/Mexico.java:144-154 | removing an entry that occurs once, at k, closes the gap at k |
| Seqs.RemoveAtDistinct | src/Mexico.java:144-154 | closing a gap keeps the table free of repeats |
| Seqs.LowestFirst | src/Mexico.java:131-142 | the position holds the lowest score, and every earlier score is strictly higher |
| Seqs.LowestFirstUnique | src/Mexico.java:131-142 | these two properties determine the loser's position |
| Seqs.LowestFirstExample | src/Mexico.java:257 | with ranks 62, 65, 65 the first player loses, as the commented-out test expects |
| Seqs.SumUpdate | src/Mexico.java:49-50 | charging one player changes the total money by exactly that charge |
| Seqs.SumRemoveAt | src/Mexico.java:53-54 | removing a player takes exactly that player's money off the total |
| MexicoGame.NewPlayers | src/Mexico.java:181-187 | one new, distinct player per name, in order, each with the start money and a blank throw |
| MexicoGame.Game.constructor | src/Mexico.java:28-43 | the game starts with a valid table of the named players, an empty pot and the chosen first player as current player and leader, and the first round open |
| MexicoGame.Game.Step | src/Mexico.java:46-86 | keeps `Valid()`; the move follows the command rules; a round can end only on an accepted throw, and then the loser is the earliest lowest of the throws standing at that moment and pays as `Lost` says; otherwise table, money, pot and leader stay, no player but the current one changes, an accepted throw keeps the turn, sets the thrower's dice, adds one to the thrower's count and raises the leader's count if the leader threw, a refused throw or a pass hands the turn to the successor and changes no player, and an ignored command changes nothing |
| MexicoGame.Game.Command | src/Mexico.java:67-85 | "r" throws within the cap and the leader's count, and otherwise passes the turn on; "n" passes only after at least one throw; anything else changes nothing; only the current player, the turn and the leader's count can change |
| MexicoGame.Game.Roll | src/Mexico.java:68-80 | a throw is refused at the cap, or when a non-leader has reached the leader's count; a refusal only moves the turn on |
| MexicoGame.Game.Throw | src/Mexico.java:73-79 | an accepted throw sets the thrower's dice, adds exactly one to the thrower's count, keeps the thrower's name and money, changes no other player and no other rank, and sets the leader's count when the leader throws |
| MexicoGame.Game.PassTurn | src/Mexico.java:81-82 | the turn moves to the circular successor of the current player |
| MexicoGame.Game.FinishRound | src/Mexico.java:47-65 | the round ends exactly when everybody has thrown equally often; then `Lost` holds for the earliest lowest rank; otherwise nothing changes |
| MexicoGame.Game.EndRound | src/Mexico.java:48-64 | the loser sits at the earliest lowest rank, pays one into the pot, and the table shrinks only if the loser has left it |
| MexicoGame.Game.LostShape | src/Mexico.java:49-59 | after a lost round the loser was at the table, the pot grew by one, and the table shrank only by the loser's leaving |
| MexicoGame.Game.PickLoser | src/Mexico.java:48 | the loser chosen is the player at the earliest lowest rank |
| MexicoGame.Game.Settle | src/Mexico.java:49-63 | the loser pays one; with money left the table stays as it was, without money the loser leaves; the next round opens unless one player is left |
| MexicoGame.Game.Charge | src/Mexico.java:49-50 | the loser's money drops by one and the pot rises by one; the total is kept |
| MexicoGame.Game.Stay | src/Mexico.java:60-63 | a loser with money left keeps the seat; the rotated leader is replaced by the current player at the next round start |
| MexicoGame.Game.Leave | src/Mexico.java:53-59 | a loser without money leaves; unless one player is left, the turn goes to the successor of the old current player at the reduced table, who leads the next round |
| MexicoGame.Game.Eliminate | src/Mexico.java:54 | the table and the money lose exactly the loser's seat; the rest keep their order and money |
| MexicoGame.Game.OpenRound | src/Mexico.java:58-59 | the given player becomes current player and leader of a new blank round |
| MexicoGame.Game.NewRound | src/Mexico.java:63 | all throws are wiped, the current player leads, and the leader's count is 0 |
| MexicoGame.Game.StartRound | src/Mexico.java:41-43 | all throws are wiped, the leader's count is 0 and the leader is the current player |
| MexicoGame.Game.AnnouncedPrize | src/Mexico.java:90 | the announced prize is one more than everything lost in the game |
| MexicoGame.Game.Prize | src/Mexico.java:90 | the pot is exactly everything lost in the game, at least 0 and below the starting total |
| MexicoGame.Game.AnnouncedPrizeOverpays | src/Mexico.java:90-91 | the announced prize exceeds the pot by one |
| MexicoGame.Play | src/Mexico.java:28-90 | the game stays valid, keeps the starting total, and runs until one player is left or the inputs run out; a finished game with more than one starting player has a positive prize |

## Left out

- Terminal I/O is not modelled: `main`, `getPlayerChoice` (reading from the
  console), `statusMsg`, `roundMsg`, `toString` and every `out.println`.
  The command a player types is a parameter of `Step`, and a sequence of
  commands is a parameter of `Play`.
- Randomness is replaced by parameters. `getRandomPlayer` becomes the
  position `first` given to the `Game` constructor. The dice of
  `rollDice` become the two faces, in 1..6, given to `RollDice`, `Step`
  and `Play`.
- `getPlayers` hardcodes three names. The model takes any non-empty list
  of names instead (`NewPlayers`).
- The commented-out `test()` block is not compiled code. Its four
  expectations are the lemmas `ScoreExamples`, `SuccessorExample` and
  `LowestFirstExample`. Its no-argument `Player()` constructor does not
  exist in the class and is not modelled.
- The players array is modelled as a sequence of object references. The
  program never writes into it after filling it: removal builds a new
  array, which `RemoveLoser` also does before returning its contents. The
  model therefore does not capture aliasing of the array itself. The
  players are objects, compared by identity.
- Java's 32-bit `int` is modelled as an unbounded integer. No value can
  come near the limit: money is at most 3 per player, throw counts at most
  3 and ranks at most 66.
- The program's loop can run forever when players keep typing unknown
  commands. `Play` stops when its inputs run out.
- Mexico.RemoveLoser: requires the loser to be seated exactly once, which
  is the only way the game calls it. With the loser absent, the Java code
  writes past the end of the new array. With the loser seated twice, it
  leaves an empty slot.
- Mexico.GetLoser, Mexico.Next, Mexico.AllRolled: require a non-empty
  table. On an empty array the Java code fails by indexing or by division
  by zero, and the game never calls them on one.
- Seqs.Successor: its own contract states only that the successor is at
  the table. Where it lands is stated by `SuccessorAt`,
  `SuccessorOfAbsent` and `TurnsAt`.

## Findings

| source | as written | input that shows it | evidently intended | confidence | as-written member | corrected member |
|---|---|---|---|---|---|---|
| src/Mexico.java:90 | the winner is announced to win `pot + 1` | three players with 3 each; the winner ends with 1, so the others lost 6 and the winner 2, and the pot is 8; 9 is announced | announce `pot`: line 50 has already paid the last round's loss into the pot before the loop ends, contrary to the comment on line 91 | not executed; high | MexicoGame.Game.AnnouncedPrize (with MexicoGame.Game.AnnouncedPrizeOverpays) | MexicoGame.Game.Prize |
