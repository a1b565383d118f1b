# ConnectFour rules engine in Dafny

This project models the rules engine of the ConnectFour desktop game:
- the 7 × 6 board with its columns "A" to "G", rows and diagonals;
- inserting a drop under gravity and resetting the board;
- the scans that find four drops in a row;
- the game status computed after every turn (turns done and left, drops per colour, winner, draw, whose turn it is);
- the players, their drop budgets and the game settings;
- the start / stop / restart life cycle of a game;
- the engine step that plays one turn;
- the board analysis the computer player uses (drop sequences of two or three, lone drops, opening and fallback columns);
- the EASY computer player's choice of column.

Modules follow the Java packages:
- `Geometry`, `Slots`, `Lines`, `Diagonals`, `WinDetection` and `Board` cover the board package.
- `Players`, `Settings`, `Status`, `Games`, `DropSequences`, `Runs`, `SingleDrops`, `Analyzer` and `EasyCpu` cover the game package.
- `Engine` covers the engine.
- `Enumerations` holds the enumerations, and `Outcomes` holds the failure values that stand in for exceptions.

How the Java objects are modelled:
- `GameBoard` is a class whose slots live in one array of 42 `Slot` values, column by column.
- A slot is identified by its position.
- `isColumn`, `isRow` and `getId` of a line are the `Column` and `Row` constructors of `Line` and their `id` field. `asList` returns a fresh list, which a sequence value is.
- Columns, rows and diagonals are `Line` values that list positions. A slot shared by a column, a row and a diagonal is therefore the same array cell, as it is the same object in Java.
- `Player`, `GameSettings`, `Game`, `DropSequence` and `SingleDropSequence` are classes with the fields their methods update.
- Loops of the source are `while`/`for` loops proved against specification functions.
- The analysis reads a snapshot of the 42 slots.

Every exception becomes a `Result`/`Outcome` value:
- `IllegalArgumentException` from `insertDrop` and `setDrop`;
- `IllegalStateException` from `decrementDropCount` and `determineBeforeAfter`;
- `IndexOutOfBoundsException` from `getConnectFourList`;
- `NullPointerException` from `DropSequence.getTurn`;
- the `GameException`s of `Game` and `GameEngine`.

Each random choice (`new Random().nextInt`) is either a nondeterministic choice (`:|`) or a parameter `bit` in 0..1.

Where the source's Javadoc and its code disagree, the model follows the code:
- `hasConnectFour` documents its `color` parameter as the colour to look for (GameBoardSlotCollection.java:72-75). The code never reads it: four drops of either colour make the answer true, so `checkIsConnectFour` always records RED as the winner colour.
- `getConnectFourList` documents that it returns the slots building the four in a row (GameBoardSlotCollection.java:25-28). The code compares colours only, so four empty slots also match. On a line without four of one colour it returns an empty list, or fails with an index error when the line ends in a shorter run of one colour.

Two behaviours of the code that the model keeps as written:
- `SingleDropSequence` only proposes a neighbour that rests on a filled slot, so it never proposes a bottom-row slot.
- `DropSequence.getTurn` chooses between the raw before and after slots, not the ones filtered by whether a drop fits.

Three calls in the source do not compile as written, and the model uses the evidently intended method:
- `Player.getColor()` is read as `getDropColor()`.
- `GameAnalyzer` is given access to the column's `hasEmptySlots` and the board's `getColumnById`.
- `EasyCpuPlayer.determineNextTurn` takes the `Game`.

## Model

Each row names a Dafny member, the Java lines it models, and what its contract states.

| member | source | states |
|---|---|---|
| Enumerations.ParseColor | ConnectFour/src/main/java/ch/hszt/connectfour/model/enumeration/DropColor.java:42-53 | ids 0 and 1 give RED and YELLOW, whose id is that id; every other id gives UNKNOWN |
| Enumerations.ParseColorId | ConnectFour/src/main/java/ch/hszt/connectfour/model/enumeration/DropColor.java:42-53 | parsing the id of any colour gives the colour back |
| Enumerations.Opponent | ConnectFour/src/main/java/ch/hszt/connectfour/model/game/GameSettings.java:85-92 | RED's opponent is YELLOW; the opponent of any other colour is RED |
| Enumerations.ParseLevel | ConnectFour/src/main/java/ch/hszt/connectfour/model/enumeration/SkillLevel.java:46-59 | ids 0, 1 and 2 give EASY, ADVANCED and HARD with that id; any other id gives UNKNOWN |
| Enumerations.ParseLevelId | ConnectFour/src/main/java/ch/hszt/connectfour/model/enumeration/SkillLevel.java:46-59 | parsing the id of any level gives the level back |
| Geometry.ColumnKey | ConnectFour/src/main/java/ch/hszt/connectfour/model/board/GameBoardColumn.java:31-52 | a key exists exactly for ids 1..7, and it is the single letter 'A' + id - 1 |
| Geometry.KeyOrder | ConnectFour/src/main/java/ch/hszt/connectfour/model/board/GameBoardColumn.java:31-52 | keys of distinct columns differ, and keys compare as their ids do |
| Geometry.SlotKey | ConnectFour/src/main/java/ch/hszt/connectfour/model/board/GameBoardSlot.java:35-38 | a slot key is two characters: the column letter and the position digit |
| Geometry.SlotKeyInjective | ConnectFour/src/main/java/ch/hszt/connectfour/model/board/GameBoardSlot.java:35-38 | two slots have the same key exactly when they are the same slot |
| Geometry.ToUpper | ConnectFour/src/main/java/ch/hszt/connectfour/model/board/GameBoard.java:207 | upper-casing keeps the length and maps each character on its own |
| Geometry.ColumnById | ConnectFour/src/main/java/ch/hszt/connectfour/model/board/GameBoard.java:184-192 | the column map finds a column exactly for the ids that have a key |
| Geometry.GetSlot | ConnectFour/src/main/java/ch/hszt/connectfour/model/board/GameBoardColumn.java:69-77 | a slot exists exactly for the positions 1..6, and it is that position of the column |
| Geometry.RightColumn | ConnectFour/src/main/java/ch/hszt/connectfour/model/board/GameBoardColumn.java:147-164 | the next column exists for ids 1..6 and is id + 1; none at "G" or for a non-positive id |
| Geometry.LeftColumn | ConnectFour/src/main/java/ch/hszt/connectfour/model/board/GameBoardColumn.java:170-187 | the previous column exists for ids 2..8 and is id - 1; none at "A" or for a non-positive id |
| Geometry.Top | ConnectFour/src/main/java/ch/hszt/connectfour/model/board/GameBoardSlot.java:149-154 | one position up, none in the top row |
| Geometry.Bottom | ConnectFour/src/main/java/ch/hszt/connectfour/model/board/GameBoardSlot.java:160-165 | one position down, none in the bottom row |
| Geometry.Right | ConnectFour/src/main/java/ch/hszt/connectfour/model/board/GameBoardSlot.java:122-129 | the same position in the next column, none in column "G" |
| Geometry.Left | ConnectFour/src/main/java/ch/hszt/connectfour/model/board/GameBoardSlot.java:135-142 | the same position in the previous column, none in column "A" |
| Geometry.LowRight | ConnectFour/src/main/java/ch/hszt/connectfour/model/board/GameBoardSlot.java:171-189 | one column right and one position down, none at the right or bottom edge |
| Geometry.UpRight | ConnectFour/src/main/java/ch/hszt/connectfour/model/board/GameBoardSlot.java:195-213 | one column right and one position up, none at the right or top edge |
| Geometry.LowLeft | ConnectFour/src/main/java/ch/hszt/connectfour/model/board/GameBoardSlot.java:219-237 | one column left and one position down, none at the left or bottom edge |
| Geometry.UpLeft | ConnectFour/src/main/java/ch/hszt/connectfour/model/board/GameBoardSlot.java:243-261 | one column left and one position up, none at the left or top edge |
| Geometry.NeighboursAreMutual | ConnectFour/src/main/java/ch/hszt/connectfour/model/board/GameBoardSlot.java:122-261 | every neighbour lies on the board, and the opposite navigation (bottom of top, left of right, and both diagonal pairs) leads back to the slot |
| Geometry.StepBack | ConnectFour/src/main/java/ch/hszt/connectfour/model/board/GameBoardSlot.java:122-261 | for each of the eight directions, a step and the step back along the opposite direction return to the start |
| Slots.SetDrop | ConnectFour/src/main/java/ch/hszt/connectfour/model/board/GameBoardSlot.java:62-73 | a drop of RED or YELLOW fills the slot with that colour at the same position, whether or not it was empty; UNKNOWN is refused with the illegal-argument failure |
| Slots.Clear | ConnectFour/src/main/java/ch/hszt/connectfour/model/board/GameBoardSlot.java:266-273 | clearing leaves an empty slot at the same position; a consistent slot becomes a new empty slot, and an empty slot is left untouched |
| Slots.ClearIdempotent | ConnectFour/src/main/java/ch/hszt/connectfour/model/board/GameBoardSlot.java:266-273 | clearing twice is the same as clearing once |
| Slots.EmptyPlusFilled | ConnectFour/src/main/java/ch/hszt/connectfour/model/game/GameStatus.java:228-262 | the empty and the filled slots together are all slots |
| Slots.FilledAreRedOrYellow | ConnectFour/src/main/java/ch/hszt/connectfour/model/game/GameStatus.java:264-280 | on consistent slots, the RED and YELLOW drops together are the filled slots |
| Lines.CreateColumnSlots | ConnectFour/src/main/java/ch/hszt/connectfour/model/board/GameBoardColumn.java:206-216 | a column holds six slots, at positions 1 to 6 bottom to top; for an existing column they lie on the board, one step up each |
| Lines.CreateRowSlots | ConnectFour/src/main/java/ch/hszt/connectfour/model/board/GameBoardRow.java:46-66 | walking from column "A" to the right gives the seven slots of the row, one column right each |
| Lines.AsList | ConnectFour/src/main/java/ch/hszt/connectfour/model/board/GameBoardLine.java:73-83 | the list is the line's slots in the line's order |
| WinDetection.HasConnectFour | ConnectFour/src/main/java/ch/hszt/connectfour/model/board/GameBoardSlotCollection.java:76-109 | the answer is true exactly when some start the scan tries agrees with each of up to three slots after it |
| WinDetection.ConnectFourIsFourInARow | ConnectFour/src/main/java/ch/hszt/connectfour/model/board/GameBoardSlotCollection.java:76-109 | on a line of at least four slots the answer is true exactly when four consecutive slots are filled with one colour, of either colour |
| WinDetection.EmptyLineNoConnectFour | ConnectFour/src/main/java/ch/hszt/connectfour/model/board/GameBoardSlotCollection.java:76-109 | a line of empty slots never holds four in a row |
| WinDetection.GetConnectFourList | ConnectFour/src/main/java/ch/hszt/connectfour/model/board/GameBoardSlotCollection.java:29-69 | the scan returns the first four slots of one colour, the index failure on a trailing run shorter than four, or an empty list |
| WinDetection.FirstRunFound | ConnectFour/src/main/java/ch/hszt/connectfour/model/board/GameBoardSlotCollection.java:29-69 | when four slots of one colour exist, the result is the first such four |
| WinDetection.EmptySlotsRun | ConnectFour/src/main/java/ch/hszt/connectfour/model/board/GameBoardSlotCollection.java:29-69 | four empty slots count as four of one colour |
| WinDetection.TrailingRunFails | ConnectFour/src/main/java/ch/hszt/connectfour/model/board/GameBoardSlotCollection.java:29-69 | RED, YELLOW, YELLOW makes the scan fail with the index failure |
| WinDetection.WinnerSlots | ConnectFour/src/main/java/ch/hszt/connectfour/model/board/GameBoardSlotCollection.java:29-69 | on a winning line of at most seven consistent slots, the list does not fail and holds four filled slots of one colour |
| Diagonals.NextLowerRight | ConnectFour/src/main/java/ch/hszt/connectfour/model/board/GameBoardDiagonal.java:144-160 | the slot one column right at position + 1, none at the right or top edge |
| Diagonals.NextUpperRight | ConnectFour/src/main/java/ch/hszt/connectfour/model/board/GameBoardDiagonal.java:162-178 | the slot one column right at position - 1, none at the right or bottom edge |
| Diagonals.WalkShape | ConnectFour/src/main/java/ch/hszt/connectfour/model/board/GameBoardDiagonal.java:112-142 | the walk from a start steps one column right and one position up or down until an edge; it stays on the board and is straight |
| Diagonals.LookupLength | ConnectFour/src/main/java/ch/hszt/connectfour/model/board/GameBoardDiagonal.java:180-204 | the count is the number of slots from the start to the edge |
| Diagonals.IsValid | ConnectFour/src/main/java/ch/hszt/connectfour/model/board/GameBoardDiagonal.java:47-50 | a start is valid exactly when its walk holds at least four slots |
| Diagonals.PutRightmost | ConnectFour/src/main/java/ch/hszt/connectfour/model/board/GameBoardDiagonal.java:112-142 | a slot right of every key in the sorted map is not yet a key and is put last |
| Diagonals.AddIfAbsent | ConnectFour/src/main/java/ch/hszt/connectfour/model/board/GameBoardDiagonal.java:112-142 | a slot of a column right of every key is put into the map last, since it is not yet a key |
| Diagonals.Build | ConnectFour/src/main/java/ch/hszt/connectfour/model/board/GameBoardDiagonal.java:112-142 | the built list is the walk from the start, sorted by slot name, and its end is the last slot |
| Diagonals.NewDiagonal | ConnectFour/src/main/java/ch/hszt/connectfour/model/board/GameBoardDiagonal.java:33-37 | a new diagonal is the full walk from its start |
| Diagonals.IsIdenticalWith | ConnectFour/src/main/java/ch/hszt/connectfour/model/board/GameBoardDiagonal.java:102-110 | two diagonals are identical exactly when they have the same ends, in either order |
| Diagonals.DiagonalKeyNamesEnds | ConnectFour/src/main/java/ch/hszt/connectfour/model/board/GameBoardDiagonal.java:65-68 | equal keys mean equal start and end |
| Diagonals.IsDuplicate | ConnectFour/src/main/java/ch/hszt/connectfour/model/board/GameBoard.java:307-318 | a diagonal is a duplicate exactly when some diagonal of the list is identical with it |
| Diagonals.AdmitSeed | ConnectFour/src/main/java/ch/hszt/connectfour/model/board/GameBoard.java:270-280 | a seed's diagonal joins the list exactly when it is valid and no diagonal there is identical with it |
| Diagonals.SeedColumns | ConnectFour/src/main/java/ch/hszt/connectfour/model/board/GameBoard.java:266-281 | the first loop collects the diagonals from the outermost slot of each column |
| Diagonals.SeedLeftColumn | ConnectFour/src/main/java/ch/hszt/connectfour/model/board/GameBoard.java:285-302 | the second loop goes on with every slot of column "A" and ends with the whole family |
| Diagonals.CreateDiagonalFamily | ConnectFour/src/main/java/ch/hszt/connectfour/model/board/GameBoard.java:260-305 | the family is what the two seed loops collect |
| Diagonals.CreateDiagonals | ConnectFour/src/main/java/ch/hszt/connectfour/model/board/GameBoard.java:250-258 | the diagonals are the position + 1 family followed by the position - 1 family |
| Diagonals.DiagonalEnds | ConnectFour/src/main/java/ch/hszt/connectfour/model/board/GameBoardDiagonal.java:112-142 | a diagonal's end lies right of its start, above it for position + 1 and below it for position - 1 |
| Diagonals.BoardDiagonalsShape | ConnectFour/src/main/java/ch/hszt/connectfour/model/board/GameBoard.java:250-258 | every diagonal of the board has at least four slots on the board and is straight in one of the two diagonal directions |
| Diagonals.BoardDiagonalsDistinct | ConnectFour/src/main/java/ch/hszt/connectfour/model/board/GameBoard.java:307-318 | no two diagonals of the board are identical |
| Diagonals.FamilyCoversRuns | ConnectFour/src/main/java/ch/hszt/connectfour/model/board/GameBoard.java:260-305 | every four slots in a row along a diagonal direction lie, in order, on one diagonal of that family |
| Diagonals.TwelveDiagonals | ConnectFour/src/main/java/ch/hszt/connectfour/model/board/GameBoard.java:250-258 | each family has exactly six diagonals, with named starts, so the board has twelve |
| Board.KeyId | ConnectFour/src/main/java/ch/hszt/connectfour/model/board/GameBoard.java:199-215 | a name finds the column whose key equals it, or none when no key does |
| Board.KeyRoundTrip | ConnectFour/src/main/java/ch/hszt/connectfour/model/board/GameBoard.java:199-215 | every column is found under its key, written in upper or lower case |
| Board.ToUpperIdempotent | ConnectFour/src/main/java/ch/hszt/connectfour/model/board/GameBoard.java:199-215 | upper-casing twice is upper-casing once |
| Board.HasEmptySlots | ConnectFour/src/main/java/ch/hszt/connectfour/model/board/GameBoardColumn.java:193-204 | the answer is true exactly when some slot of the column is empty |
| Board.NextEmptySlot | ConnectFour/src/main/java/ch/hszt/connectfour/model/board/GameBoardColumn.java:127-141 | the lowest empty slot of the column, and none exactly when the column is full |
| Board.InsertDropOutcome | ConnectFour/src/main/java/ch/hszt/connectfour/model/board/GameBoard.java:135-163 | a name that matches no column, a full column and the colour UNKNOWN fail, in that order; otherwise the lowest empty slot of the column is filled with the colour, with every slot below it filled |
| Board.KeysIgnoreCase | ConnectFour/src/main/java/ch/hszt/connectfour/model/board/GameBoard.java:135-163 | inserting under a key gives the same result as under the upper-cased key; "d" names column 4 |
| Board.InsertKeepsBoardValid | ConnectFour/src/main/java/ch/hszt/connectfour/model/board/GameBoard.java:135-163 | an accepted drop keeps the slots consistent and stacked, fills one more slot, empties one fewer, and adds one drop of its colour and none of the other |
| Board.EmptyBoardValid | ConnectFour/src/main/java/ch/hszt/connectfour/model/board/GameBoard.java:39-48 | a new board is consistent and stacked, has 42 empty slots and no drop of either colour |
| Board.ResetEmptiesBoard | ConnectFour/src/main/java/ch/hszt/connectfour/model/board/GameBoard.java:168-177 | resetting any consistent board gives the empty board, and a second reset changes nothing |
| Board.AllLinesShape | ConnectFour/src/main/java/ch/hszt/connectfour/model/board/GameBoard.java:54-74 | the board lists 25 lines: the seven columns, then the six rows, then the twelve diagonals, each four to seven slots in one of four directions |
| Board.CreateColumns | ConnectFour/src/main/java/ch/hszt/connectfour/model/board/GameBoard.java:217-235 | the seven columns "A" to "G" and the map from id to key |
| Board.CreateRows | ConnectFour/src/main/java/ch/hszt/connectfour/model/board/GameBoard.java:237-248 | the six rows, bottom to top |
| Board.NewSlots | ConnectFour/src/main/java/ch/hszt/connectfour/model/board/GameBoardColumn.java:206-216 | the slot array of a new board holds 42 empty slots, consistent and stacked |
| Board.GameBoard.constructor | ConnectFour/src/main/java/ch/hszt/connectfour/model/board/GameBoard.java:39-48 | a new board is valid, its diagonals are the board's twelve, and every slot is empty |
| Board.GameBoard.ColumnWithKey | ConnectFour/src/main/java/ch/hszt/connectfour/model/board/GameBoard.java:199-215 | the column found is the one whose key equals the upper-cased name |
| Board.GameBoard.ColumnWithId | ConnectFour/src/main/java/ch/hszt/connectfour/model/board/GameBoard.java:184-192 | the column is looked up through the column map, and exists exactly for ids 1..7 |
| Board.GameBoard.GetAll | ConnectFour/src/main/java/ch/hszt/connectfour/model/board/GameBoard.java:54-74 | the columns, then the rows, then the diagonals, each four to seven slots in one direction |
| Board.GameBoard.InsertDrop | ConnectFour/src/main/java/ch/hszt/connectfour/model/board/GameBoard.java:135-163 | on success exactly the filled slot changes; on failure no slot changes; the board stays valid |
| Board.GameBoard.ClearColumn | ConnectFour/src/main/java/ch/hszt/connectfour/model/board/GameBoard.java:170-176 | the six slots of the column are cleared and every other slot is unchanged |
| Board.GameBoard.Reset | ConnectFour/src/main/java/ch/hszt/connectfour/model/board/GameBoard.java:168-177 | every slot is cleared, and the board stays valid |
| Players.Player.constructor | ConnectFour/src/main/java/ch/hszt/connectfour/model/game/Player.java:39-48 | a new player has the given kind, name and level, the full budget of 21 drops and no colour yet |
| Players.Player.ResetDropCount | ConnectFour/src/main/java/ch/hszt/connectfour/model/game/Player.java:53-56 | the budget is back at 21, and the colour is kept |
| Players.Player.SetDropColor | ConnectFour/src/main/java/ch/hszt/connectfour/model/game/Player.java:71-74 | the colour is set, and the budget is kept |
| Players.Player.DecrementDropCount | ConnectFour/src/main/java/ch/hszt/connectfour/model/game/Player.java:154-164 | with drops left the budget falls by one; with none left it fails with the illegal-state failure and nothing changes; the budget never leaves 0..21 |
| Players.Player.Equals | ConnectFour/src/main/java/ch/hszt/connectfour/model/game/Player.java:94-129 | two players are equal exactly when colour, level and name agree; kind and budget do not matter |
| Players.EqualsIsEquivalence | ConnectFour/src/main/java/ch/hszt/connectfour/model/game/Player.java:94-129 | player equality is reflexive, symmetric and transitive |
| Players.FactoryClass | ConnectFour/src/main/java/ch/hszt/connectfour/model/game/PlayerFactory.java:28-57 | HUMAN always gives a human player; a CPU player gets the class of its level; an UNKNOWN level gives none |
| Players.CreatePlayer | ConnectFour/src/main/java/ch/hszt/connectfour/model/game/PlayerFactory.java:28-57 | a player is created exactly when the factory knows a class; it is new, with the given kind and name, the level of its class, no colour and 21 drops |
| Players.FactoryStable | ConnectFour/src/main/java/ch/hszt/connectfour/model/game/PlayerFactory.java:28-57 | the kind and level a created player carries lead the factory to the same class again |
| Settings.PlayerByColor | ConnectFour/src/main/java/ch/hszt/connectfour/model/game/GameSettings.java:68-71 | the first player whenever its colour matches, otherwise the second, also when both colours are equal or the colour is UNKNOWN; with two distinct colours, the player of the requested colour |
| Settings.AssignDropColor | ConnectFour/src/main/java/ch/hszt/connectfour/model/game/GameSettings.java:81-93 | the first player gets the drawn colour and the second the other one; budgets are kept |
| Settings.GameSettings.constructor | ConnectFour/src/main/java/ch/hszt/connectfour/model/game/GameSettings.java:31-43 | two distinct players get the two colours, the first the drawn one; the start player is the player of a drawn colour; budgets are kept |
| Settings.GameSettings.OtherPlayer | ConnectFour/src/main/java/ch/hszt/connectfour/model/game/GameSettings.java:58-61 | the other player is whichever of the two does not open |
| Settings.GameSettings.ReEvaluateStartPlayer | ConnectFour/src/main/java/ch/hszt/connectfour/model/game/GameSettings.java:76-79 | the start player is drawn again by colour; the settings stay valid |
| Status.FourOnLineWins | ConnectFour/src/main/java/ch/hszt/connectfour/model/board/GameBoardSlotCollection.java:76-109 | four filled slots of one colour, one after another anywhere on a board line, make that line a win |
| Status.ColumnAWins | ConnectFour/src/test/java/ch/hszt/connectfour/test/GameBoardModelTest.java:112-138 | column "A" holding red drops in A1 to A4 is a win |
| Status.RowTwoWins | ConnectFour/src/test/java/ch/hszt/connectfour/test/GameBoardModelTest.java:117-148 | row 2 holding yellow drops in B2 to E2 is a win |
| Status.DiagonalB6Wins | ConnectFour/src/test/java/ch/hszt/connectfour/test/GameBoardModelTest.java:122-158 | the diagonal from B6 to G1 holding red drops in D4, E3, F2 and G1 is a win |
| Status.FirstWin | ConnectFour/src/main/java/ch/hszt/connectfour/model/game/GameStatus.java:205-226 | the first line from a given index on that holds four in a row, no line before it does; none exactly when no line does |
| Status.Winner | ConnectFour/src/main/java/ch/hszt/connectfour/model/game/GameStatus.java:163-171 | no winner exactly while the winner colour is UNKNOWN; otherwise the player with that colour |
| Status.StatusOk | ConnectFour/src/main/java/ch/hszt/connectfour/model/game/GameStatus.java:173-183 | on a consistent board the status never fails, the player to move is one of the two, and the winning slots are four filled slots of one colour |
| Status.StatusCounts | ConnectFour/src/main/java/ch/hszt/connectfour/model/game/GameStatus.java:185-203 | turns completed and remaining are the filled and empty slots and sum to 42; the drops of RED and YELLOW are those on the board and sum to the completed turns; the start player moves after an even number of turns |
| Status.StatusFacts | ConnectFour/src/main/java/ch/hszt/connectfour/model/game/GameStatus.java:153-156 | connect four holds exactly when some line wins, with RED as the recorded winner colour and the winning line among the board's lines; a draw is exactly a full board without a winning line |
| Status.NumberOfPossibleTurns | ConnectFour/src/main/java/ch/hszt/connectfour/model/game/GameStatus.java:228-244 | the count of empty slots over all columns |
| Status.NumberOfCompletedTurns | ConnectFour/src/main/java/ch/hszt/connectfour/model/game/GameStatus.java:246-262 | the count of filled slots over all columns |
| Status.NumberOfDropsByColor | ConnectFour/src/main/java/ch/hszt/connectfour/model/game/GameStatus.java:264-280 | the count of filled slots of the colour over all columns |
| Status.CheckIsConnectFour | ConnectFour/src/main/java/ch/hszt/connectfour/model/game/GameStatus.java:205-226 | the first line of the board that holds four in a row, with RED as winner colour; nothing and UNKNOWN when no line does |
| Status.Evaluate | ConnectFour/src/main/java/ch/hszt/connectfour/model/game/GameStatus.java:173-183 | the status computed for the board, the start player and the other player |
| Games.EmptyBoardStatus | ConnectFour/src/main/java/ch/hszt/connectfour/model/game/Game.java:36-44 | on an empty board nothing is played, 42 turns remain, there is no winner and no draw, and the start player moves |
| Games.NewBoard | ConnectFour/src/main/java/ch/hszt/connectfour/model/game/Game.java:36-44 | a new game's board is valid and every slot is empty |
| Games.Game.constructor | ConnectFour/src/main/java/ch/hszt/connectfour/model/game/Game.java:36-44 | a new game does not run and has no status; its board is empty; with two distinct players it is valid, and full budgets match the empty board |
| Games.Game.UpdateGame | ConnectFour/src/main/java/ch/hszt/connectfour/control/GameEngine.java:91-95 | the status becomes the one computed for the board now, with one of the two players to move |
| Games.Game.Start | ConnectFour/src/main/java/ch/hszt/connectfour/model/game/Game.java:151-164 | a running game refuses and keeps its status; otherwise the status is computed and the game runs |
| Games.Game.Stop | ConnectFour/src/main/java/ch/hszt/connectfour/model/game/Game.java:171-183 | a stopped game refuses; otherwise the game stops; the status is kept either way |
| Games.Game.Restart | ConnectFour/src/main/java/ch/hszt/connectfour/model/game/Game.java:190-219 | a stopped game refuses and changes nothing; otherwise every slot is emptied, the start player is drawn again, the status is recomputed and the game runs; budgets are not restored |
| Games.RestartedStatus | ConnectFour/src/main/java/ch/hszt/connectfour/model/game/Game.java:190-219 | after a restart nothing is played, 42 turns remain, there is no winner and the newly drawn start player moves |
| Engine.TurnAdvances | ConnectFour/src/main/java/ch/hszt/connectfour/control/GameEngine.java:45-73 | after an accepted drop, one more turn is completed, one fewer remains, there is one more drop on the board and the move passes to the other player |
| Engine.NextStatus | ConnectFour/src/main/java/ch/hszt/connectfour/control/GameEngine.java:45-73 | a board with one more drop has a status with one more completed turn and the other player to move |
| Engine.SetDrop | ConnectFour/src/main/java/ch/hszt/connectfour/control/GameEngine.java:45-73 | a stopped game refuses and changes nothing; a rejected drop changes nothing; a mover without drops fails after the drop is on the board; otherwise the mover's budget falls by one and the status is recomputed; a budget that matches the board stays matched |
| Engine.PlayTurn | ConnectFour/src/main/java/ch/hszt/connectfour/control/GameEngine.java:47-67 | one turn of the player to move: the board and that player's budget change as one turn prescribes, and the other player's budget is kept |
| Engine.ChargeTurn | ConnectFour/src/main/java/ch/hszt/connectfour/control/GameEngine.java:59-61 | with drops left the budget falls by one and the status is recomputed; without, the turn fails and the status stays |
| DropSequences.DiagonalDirection | ConnectFour/src/main/java/ch/hszt/connectfour/model/game/DropSequence.java:253-276 | LOW_RIGHT when the second slot is right of and below the first, UP_RIGHT when right and not below, INDETERMINATE when it is not to the right |
| DropSequences.ShortIsRow | ConnectFour/src/main/java/ch/hszt/connectfour/model/game/DropSequence.java:45-61 | a sequence of at most one slot counts as a row |
| DropSequences.BeforeOf | ConnectFour/src/main/java/ch/hszt/connectfour/model/game/DropSequence.java:181-210 | the slot before the sequence lies on the board when it exists |
| DropSequences.AfterOf | ConnectFour/src/main/java/ch/hszt/connectfour/model/game/DropSequence.java:212-241 | the slot after the sequence lies on the board when it exists |
| DropSequences.DropSequence.constructor | ConnectFour/src/main/java/ch/hszt/connectfour/model/game/DropSequence.java:39-43 | a new sequence is empty, INDETERMINATE, with no slot before or after |
| DropSequences.DropSequence.Add | ConnectFour/src/main/java/ch/hszt/connectfour/model/game/DropSequence.java:101-107 | a slot is appended unless it is present or the sequence already holds four; nothing else changes |
| DropSequences.DropSequence.Clear | ConnectFour/src/main/java/ch/hszt/connectfour/model/game/DropSequence.java:109-112 | the slots are emptied and the rest is kept |
| DropSequences.DropSequence.IsHorizontalSequence | ConnectFour/src/main/java/ch/hszt/connectfour/model/game/DropSequence.java:297-311 | true exactly when consecutive slots share their row |
| DropSequences.DropSequence.IsVerticalSequence | ConnectFour/src/main/java/ch/hszt/connectfour/model/game/DropSequence.java:313-327 | true exactly when consecutive slots share their column |
| DropSequences.DropSequence.IsDiagonalSequence | ConnectFour/src/main/java/ch/hszt/connectfour/model/game/DropSequence.java:278-295 | true exactly when no two consecutive slots share a column or a row |
| DropSequences.DropSequence.EvaluateDirection | ConnectFour/src/main/java/ch/hszt/connectfour/model/game/DropSequence.java:45-61 | ROW, then COLUMN, then the diagonal direction, else INDETERMINATE, as the classification of the slots |
| DropSequences.DropSequence.Evaluate | ConnectFour/src/main/java/ch/hszt/connectfour/model/game/DropSequence.java:90-94 | the direction is stored; for INDETERMINATE the evaluation fails with the illegal-state failure; otherwise the slots before and after and whether a drop fits into each are set for the board |
| DropSequences.DropSequence.SlotBefore | ConnectFour/src/main/java/ch/hszt/connectfour/model/game/DropSequence.java:114-122 | the slot before, only when it exists and a drop fits into it |
| DropSequences.DropSequence.SlotAfter | ConnectFour/src/main/java/ch/hszt/connectfour/model/game/DropSequence.java:124-132 | the slot after, only when it exists and a drop fits into it |
| DropSequences.DropSequence.GetTurn | ConnectFour/src/main/java/ch/hszt/connectfour/model/game/DropSequence.java:73-88 | the column key of the slot after or before, the bit choosing when both exist, whether or not a drop fits; the null failure exactly when neither exists |
| DropSequences.SubSequencePreorder | ConnectFour/src/main/java/ch/hszt/connectfour/model/game/DropSequence.java:63-66 | being a subsequence is reflexive and transitive |
| Runs.FirstOpen | ConnectFour/src/main/java/ch/hszt/connectfour/model/game/GameAnalyzer.java:288-334 | the start where the do-while loop stops opens a run, and it is not past the last start that fits |
| Runs.OpensIsFilledRun | ConnectFour/src/main/java/ch/hszt/connectfour/model/game/GameAnalyzer.java:292-328 | on consistent slots a start opens exactly when the slots from it on hold filled drops of the colour for the whole length |
| Runs.FirstOpenIsFirst | ConnectFour/src/main/java/ch/hszt/connectfour/model/game/GameAnalyzer.java:288-334 | no start before the one the loop stops at opens, and none at all when it finds none |
| Runs.RunIsFirstFilledRun | ConnectFour/src/main/java/ch/hszt/connectfour/model/game/GameAnalyzer.java:273-342 | on a line at least as long as the run, the search finds the first filled run of two or three drops of the colour, and nothing exactly when there is none |
| Runs.ClassifyStraight | ConnectFour/src/main/java/ch/hszt/connectfour/model/game/DropSequence.java:45-61 | a piece of a column is COLUMN, of a row ROW, of a rising diagonal UP_RIGHT and of a falling one LOW_RIGHT; none is INDETERMINATE |
| Runs.RunShape | ConnectFour/src/main/java/ch/hszt/connectfour/model/game/GameAnalyzer.java:273-342 | the run found on a board line has distinct slots, the requested length and a known direction |
| Runs.LineRuns | ConnectFour/src/main/java/ch/hszt/connectfour/model/game/GameAnalyzer.java:242-263 | each run collected over the lines has the requested length and lies on the board |
| Runs.Uncovered | ConnectFour/src/main/java/ch/hszt/connectfour/model/game/GameAnalyzer.java:213-230 | each kept run of two comes from the runs of two and lies in no run of three |
| Runs.UncoveredComplete | ConnectFour/src/main/java/ch/hszt/connectfour/model/game/GameAnalyzer.java:213-230 | no run of two outside every run of three is dropped |
| Runs.AllRuns | ConnectFour/src/main/java/ch/hszt/connectfour/model/game/GameAnalyzer.java:200-233 | all runs of the colour have two or three slots on the board |
| Runs.ExtendableRuns | ConnectFour/src/main/java/ch/hszt/connectfour/model/game/GameAnalyzer.java:155-172 | each kept run comes from the list and can take a drop before or after it |
| Runs.ExtendableComplete | ConnectFour/src/main/java/ch/hszt/connectfour/model/game/GameAnalyzer.java:155-172 | no run that can take a drop before or after it is dropped |
| Runs.RunsOfDirection | ConnectFour/src/main/java/ch/hszt/connectfour/model/game/GameAnalyzer.java:136-143 | each kept run comes from the list and has the direction |
| Runs.RunsOfDirectionComplete | ConnectFour/src/main/java/ch/hszt/connectfour/model/game/GameAnalyzer.java:136-143 | no run of the direction is dropped |
| Runs.PossibleRuns | ConnectFour/src/main/java/ch/hszt/connectfour/model/game/GameAnalyzer.java:155-172 | the possible runs have two or three slots and can take a drop before or after them |
| Runs.DirectedRuns | ConnectFour/src/main/java/ch/hszt/connectfour/model/game/GameAnalyzer.java:125-146 | the runs asked for can take a drop, and any direction other than INDETERMINATE gives only runs of that direction |
| Runs.ColumnRunHasRoom | ConnectFour/src/main/java/ch/hszt/connectfour/model/game/DropSequence.java:181-241 | an extendable COLUMN run has a slot before or after it, both in its own column, and that column has an empty slot |
| Runs.Neighbours | ConnectFour/src/main/java/ch/hszt/connectfour/model/game/SingleDropSequence.java:83-95 | a slot has eight neighbours, each on the board when it exists |
| Runs.Candidates | ConnectFour/src/main/java/ch/hszt/connectfour/model/game/SingleDropSequence.java:68-81 | the candidates are exactly the existing neighbours that are empty and rest on a filled slot |
| Runs.CandidateHasRoom | ConnectFour/src/main/java/ch/hszt/connectfour/model/game/SingleDropSequence.java:116-120 | a candidate lies above the bottom row, in a column with an empty slot |
| SingleDrops.SingleDropSequence.constructor | ConnectFour/src/main/java/ch/hszt/connectfour/model/game/SingleDropSequence.java:24-32 | a single holds its slot as its only slot, with its eight neighbours |
| SingleDrops.SingleDropSequence.Length | ConnectFour/src/main/java/ch/hszt/connectfour/model/game/SingleDropSequence.java:37-40 | the length is one, which is the number of its slots |
| SingleDrops.SingleDropSequence.GetPossibleSlots | ConnectFour/src/main/java/ch/hszt/connectfour/model/game/SingleDropSequence.java:68-81 | the neighbours a drop could be set into, in clockwise order |
| SingleDrops.SingleDropSequence.GetTurn | ConnectFour/src/main/java/ch/hszt/connectfour/model/game/SingleDropSequence.java:53-66 | the column key of one of the candidates; none exactly when there is no candidate |
| SingleDrops.SingleSubSequence | ConnectFour/src/main/java/ch/hszt/connectfour/model/game/DropSequence.java:63-66 | a single is a subsequence of another sequence exactly when that sequence holds its slot |
| SingleDrops.SingleTurnHasRoom | ConnectFour/src/main/java/ch/hszt/connectfour/model/game/SingleDropSequence.java:53-66 | a single's turn names a column that still has an empty slot |
| Analyzer.GetRandomCenterColumn | ConnectFour/src/main/java/ch/hszt/connectfour/model/game/GameAnalyzer.java:180-190 | a key of one of the columns "B" to "F" |
| Analyzer.CreateOpeningTurn | ConnectFour/src/main/java/ch/hszt/connectfour/model/game/GameAnalyzer.java:51-61 | a centre column exactly during the first four turns |
| Analyzer.FindColumnWithEmptySlots | ConnectFour/src/main/java/ch/hszt/connectfour/model/game/GameAnalyzer.java:63-76 | the key of the leftmost column with an empty slot; none exactly when the board is full |
| Analyzer.SearchDropSequence | ConnectFour/src/main/java/ch/hszt/connectfour/model/game/GameAnalyzer.java:273-342 | a new sequence holding the run of the line, evaluated for lengths two and three; for any other length, empty and not evaluated |
| Analyzer.ScanLine | ConnectFour/src/main/java/ch/hszt/connectfour/model/game/GameAnalyzer.java:286-334 | the do-while loop leaves the window at the first start that opens, or nothing |
| Analyzer.TryStart | ConnectFour/src/main/java/ch/hszt/connectfour/model/game/GameAnalyzer.java:292-328 | one pass keeps the window exactly when the start opens, and leaves the sequence empty otherwise |
| Analyzer.SearchDropSequences | ConnectFour/src/main/java/ch/hszt/connectfour/model/game/GameAnalyzer.java:242-263 | one evaluated sequence per board line whose run has the requested length, in line order |
| Analyzer.SearchLines | ConnectFour/src/main/java/ch/hszt/connectfour/model/game/GameAnalyzer.java:248-260 | the loop over the lines collects exactly the runs of the length, as evaluated sequences |
| Analyzer.GetAllSequences | ConnectFour/src/main/java/ch/hszt/connectfour/model/game/GameAnalyzer.java:200-233 | the runs of three, then every run of two that lies in no run of three, as evaluated sequences |
| Analyzer.AddUncovered | ConnectFour/src/main/java/ch/hszt/connectfour/model/game/GameAnalyzer.java:213-230 | the runs of three followed by the uncovered runs of two |
| Analyzer.IsCovered | ConnectFour/src/main/java/ch/hszt/connectfour/model/game/GameAnalyzer.java:215-224 | true exactly when some run of three holds every slot of the run of two |
| Analyzer.FilterPossibleSequences | ConnectFour/src/main/java/ch/hszt/connectfour/model/game/GameAnalyzer.java:155-172 | exactly the sequences that can take a drop before or after them, in order |
| Analyzer.KeepExtendable | ConnectFour/src/main/java/ch/hszt/connectfour/model/game/GameAnalyzer.java:161-169 | the loop keeps exactly the extendable sequences |
| Analyzer.GetSequencesByDirection | ConnectFour/src/main/java/ch/hszt/connectfour/model/game/GameAnalyzer.java:125-146 | all possible sequences for INDETERMINATE, otherwise exactly those of the direction |
| Analyzer.KeepDirection | ConnectFour/src/main/java/ch/hszt/connectfour/model/game/GameAnalyzer.java:136-143 | the loop keeps exactly the sequences of the direction |
| Analyzer.GetSingleSequences | ConnectFour/src/main/java/ch/hszt/connectfour/model/game/GameAnalyzer.java:78-114 | every drop of the colour that lies in no run appears exactly once, and nothing else appears |
| Analyzer.CollectSingles | ConnectFour/src/main/java/ch/hszt/connectfour/model/game/GameAnalyzer.java:83-111 | the loops over the lines collect each single of every line once |
| Analyzer.CollectFromLine | ConnectFour/src/main/java/ch/hszt/connectfour/model/game/GameAnalyzer.java:85-110 | the inner loop records each single of the line, under its slot key, without losing earlier ones |
| Analyzer.ConsiderSlot | ConnectFour/src/main/java/ch/hszt/connectfour/model/game/GameAnalyzer.java:87-109 | a slot that is a single ends up in the table; the table only grows |
| EasyCpu.GatherOwnSequences | ConnectFour/src/main/java/ch/hszt/connectfour/model/game/EasyCpuPlayer.java:84-88 | the player's extendable COLUMN sequences |
| EasyCpu.GatherOpponentSequences | ConnectFour/src/main/java/ch/hszt/connectfour/model/game/EasyCpuPlayer.java:91-97 | the extendable COLUMN sequences of the other colour |
| EasyCpu.TurnOfSequence | ConnectFour/src/main/java/ch/hszt/connectfour/model/game/EasyCpuPlayer.java:57-72 | the turn of a random extendable column sequence is the column of that run, and that column has room |
| EasyCpu.TurnOfSingle | ConnectFour/src/main/java/ch/hszt/connectfour/model/game/EasyCpuPlayer.java:65-72 | a random single's turn is the column of a candidate neighbour of one of the singles, a column with room; none only when the chosen single has no candidate |
| EasyCpu.SingleTier | ConnectFour/src/main/java/ch/hszt/connectfour/model/game/EasyCpuPlayer.java:65-72 | a random single's turn is the candidate column of a lone drop, and it is present whenever every lone drop has a candidate |
| EasyCpu.TurnOfSingles | ConnectFour/src/main/java/ch/hszt/connectfour/model/game/EasyCpuPlayer.java:65-72 | the third tier: a lone drop's candidate column, which has room, or none; never none when every lone drop has a candidate, and none when there are no lone drops |
| EasyCpu.PlayingTurn | ConnectFour/src/main/java/ch/hszt/connectfour/model/game/EasyCpuPlayer.java:45-80 | a column of the player's own column runs when there is one, else of the opponent's; without column runs, a candidate column of a lone own drop or the leftmost column with room, and it is a lone drop's candidate column when there are lone drops and each has a candidate, and the leftmost column with room when no lone drop has a candidate; none exactly on a full board |
| EasyCpu.DetermineNextTurn | ConnectFour/src/main/java/ch/hszt/connectfour/model/game/EasyCpuPlayer.java:38-81 | a centre column during the opening; afterwards the same choice as PlayingTurn: own column runs, then the opponent's, then a lone drop's candidate column (forced when every lone drop has one), then the leftmost column with room, none exactly on a full board |

## Left out

- The GUI, the controllers and the observers are not part of this model: they only display and forward.
- Statistics and timers, saving and loading (`save`/`load`) and `toString`/`hashCode` are left out. They do not affect the rules.
- `synchronized` is left out: the model is sequential.
- The ADVANCED and HARD CPU players are not modelled: their `determineNextTurn` is an unimplemented stub returning `null`. `PlayerFactory` still chooses their classes.
- `GameBoardColumn.getDropCountByColor` is not modelled. Nothing in the core calls it, and it would read slot 0, which does not exist.
- Geometry.ToUpper: upper-cases ASCII letters only, not the full Unicode mapping of `String.toUpperCase`.
- A player's colour before the settings assign one is `null` in Java. It is UNKNOWN here.
- Lines.CreateRowSlots: requires a row id 1..6. The source is only ever called with those ids.
- Analyzer.GetSingleSequences: the source returns the values of a `Hashtable`, in the table's own order. The model states membership and uniqueness only, not order.
- `SingleDropSequence` extends `DropSequence` in the source. Here it is a class of its own holding the members it overrides or uses.
- `GameStatus.update` computes its status in the constructor and rethrows an index failure from `getConnectFourList`. Status.StatusOk proves that this failure cannot happen on a board line, so the engine never sees it.
- `determineNextTurn` computes an `opponent` colour it never uses. It is not modelled.
- Analyzer.ConsiderSlot: reads the slot from the board snapshot taken when the analysis starts. Java reads the live slot, which does not change during the analysis.
- Analyzer.CreateOpeningTurn: returns a centre column without checking it has room, as the source does. The model does not claim that column can take a drop.
- Games.Game.Restart: does not restore the players' drop counts, as the source does not. The drop budget invariant (BudgetKept) therefore holds only until a restart.
- The Java objects for slots shared between lines are modelled by position identity in one array, not by object references.
- Engine.SetDrop: a failed `decrementDropCount` leaves the drop on the board, as in the source. The status is then not recomputed.
- Each random choice is a nondeterministic choice (`:|`) or a bit parameter. Probabilities are not modelled.
