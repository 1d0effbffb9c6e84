# End of the Track: rule engine and Monte Carlo tree search player

This project models the core of the EndOfTheTrack game in Dafny. It covers two parts.

**The rule engine.** The board is a 7 × 8 grid of cells, indexed `[y][x]`. Each cell holds a list of pieces. A knight ("mover") steps like a chess knight onto an empty square. A ball is carried by a knight and is passed along a straight or diagonal line. A pass is refused when an opposing piece stands in the way (the corrected rule; see "## Findings"). A player wins by bringing their ball to the opponent's home row. The model covers:

- `Cell.setPiece`, `isEmpty`, `movePiece`, the copy constructor and `equals`;
- `Knight.validMove` / `move` and `Ball.validMove` / `move`;
- `Player.makeMove` and `isWinner`;
- `Board.initPlayers`, `buildBoard`, `switchTurn` and `validPosition`.

The grid is an `array2<seq<Piece>>` updated in place. Every method on it is proved against a function on the grid's value (`Cells.Contents`).

**The search player.** `MCTSPlayer.findNextMove` runs Monte Carlo tree search over `State`s (a board, a player number, a visit count and a win score). The tree is built from `Node`s with child lists and parent links. The model covers:

- the tactical guard: when the opponent could win at once, keep only the moves after which it cannot;
- UCT selection, expansion and simulation's early exit;
- back-propagation of +10 / −10 up the parent chain, with the `Integer.MIN_VALUE` "dead" sentinel.

The tree is a `Tree` class whose `nodes` field is an arena: a sequence of nodes that refer to each other by index. A node's parent always comes before it. States and boards inside the tree are values, so Java's deep copies (`new State(state)`, `new Board(board)`) are value copies.

## Model

All source paths are under `src/main/java/com/example/endofthetrack_project/Model/`; in the table they are written out in full.

| member | source | states |
|---|---|---|
| Cells.SetPiece | src/main/java/com/example/endofthetrack_project/Model/Cell.java:97-105 | a knight replaces the whole list by itself alone; any other piece is appended last, with the earlier pieces kept in order |
| Cells.SetPieceAt | src/main/java/com/example/endofthetrack_project/Model/Cell.java:97-105 | setPiece on the grid array changes that one cell, to `SetPiece` of its old contents, and no other cell |
| Cells.IsEmpty | src/main/java/com/example/endofthetrack_project/Model/Cell.java:118-121 | isEmpty: the cell's first piece has id 0 (the empty-square marker); its meaning on a well-formed cell is stated by Cells.TidyEmpty |
| Cells.TidyEmpty | src/main/java/com/example/endofthetrack_project/Model/Cell.java:118-121 | on a well-formed cell, isEmpty (first piece has id 0) holds exactly when the cell holds only the empty-square marker |
| Cells.RemoveFirstBag | src/main/java/com/example/endofthetrack_project/Model/Ball.java:45 | `List.remove(Object)` leaves a list without the piece unchanged, and otherwise removes exactly one occurrence of it |
| Cells.RemoveFirstAt | src/main/java/com/example/endofthetrack_project/Model/Ball.java:45 | when the first occurrence of the piece is at index i, remove cuts out exactly that element |
| Cells.RemovePieceAt | src/main/java/com/example/endofthetrack_project/Model/Ball.java:45 | removing the ball from the source cell changes that cell only |
| Cells.PutBag | src/main/java/com/example/endofthetrack_project/Model/Cell.java:97-105 | replacing one cell changes the board's pieces by exactly that cell's old and new contents |
| Cells.CellEqualsIsSameSquare | src/main/java/com/example/endofthetrack_project/Model/Cell.java:157-162 | two cells of one board are equal (same x, y and pieces) exactly when they are the same square |
| Cells.CopyCell | src/main/java/com/example/endofthetrack_project/Model/Cell.java:37-47 | the copy has the same x and y and, position by position, an equal piece (Knight(Knight) and Ball(Ball) copy colour and id) |
| Knights.ValidMove | src/main/java/com/example/endofthetrack_project/Model/Knight.java:67-78 | validMove: bounds are checked first, then an empty destination, then a (1, 2) or (2, 1) offset in absolute value; Knights.ValidMoveIsKnightStep states it against the eight listed steps |
| Knights.ValidMoveIsKnightStep | src/main/java/com/example/endofthetrack_project/Model/Knight.java:67-78 | validMove holds exactly for on-board coordinates, an empty destination and one of the eight (±1, ±2) / (±2, ±1) offsets |
| Knights.Move | src/main/java/com/example/endofthetrack_project/Model/Knight.java:37-49 | move succeeds exactly when validMove holds and the source holds a single piece; on success the board becomes `Moved`, otherwise nothing changes |
| Knights.MovedCells | src/main/java/com/example/endofthetrack_project/Model/Knight.java:41-46 | after a move the destination holds exactly the moved knight, the source exactly one marker, and every other cell is unchanged |
| Knights.MoveKeepsTidy | src/main/java/com/example/endofthetrack_project/Model/Knight.java:41-46 | a knight move keeps the board well formed |
| Knights.MoveKeepsPieces | src/main/java/com/example/endofthetrack_project/Model/Knight.java:41-46 | a knight move keeps the multiset of pieces on the board |
| Knights.MoveUndo | src/main/java/com/example/endofthetrack_project/Model/Knight.java:37-78 | the knight may step straight back, and doing so restores the original board exactly |
| Balls.Signum | src/main/java/com/example/endofthetrack_project/Model/Ball.java:76-77 | Integer.signum is -1, 0 or 1 with the sign of its argument |
| Balls.PathFacts | src/main/java/com/example/endofthetrack_project/Model/Ball.java:76-91 | the walk stays on the board and first reaches the destination after max(abs dx, abs dy) steps |
| Balls.WalkAdvance | src/main/java/com/example/endofthetrack_project/Model/Ball.java:84-91 | before the destination the walk stands on an inner square and its next step is one signum offset further |
| Balls.WalkEnd | src/main/java/com/example/endofthetrack_project/Model/Ball.java:84-92 | when the walk stops it has visited every inner square |
| Balls.FoldAsWrittenIsLast | src/main/java/com/example/endofthetrack_project/Model/Ball.java:84-93 | as written, the blocking verdict is that of the last occupied inner square (or the initial value when there is none) |
| Balls.FoldAnyIsSome | src/main/java/com/example/endofthetrack_project/Model/Ball.java:84-93 | corrected, the pass is blocked exactly when some inner square has an opposing first piece |
| Balls.ScanAsWritten | src/main/java/com/example/endofthetrack_project/Model/Ball.java:76-92 | the while loop, as written, computes foundOpponent as the fold that keeps only the last occupied square's verdict |
| Balls.ScanAny | src/main/java/com/example/endofthetrack_project/Model/Ball.java:76-92 | the corrected loop computes foundOpponent as "some inner square opposes" |
| Balls.ValidMoveAsWritten | src/main/java/com/example/endofthetrack_project/Model/Ball.java:67-96 | validMove as written: bounds, then a straight or diagonal line, then an occupied destination, then the last-square verdict |
| Balls.ValidMove | src/main/java/com/example/endofthetrack_project/Model/Ball.java:67-96 | validMove as intended: same checks, but any opposing inner square blocks |
| Balls.ValidPassIsStricter | src/main/java/com/example/endofthetrack_project/Model/Ball.java:67-96 | the corrected rule is exactly bounds, line, occupied destination and no opposing square on the way |
| Balls.ClearPathAcceptsAnyOccupied | src/main/java/com/example/endofthetrack_project/Model/Ball.java:81-93 | with nothing between, both rules accept any occupied destination, whatever its colour |
| Balls.Move | src/main/java/com/example/endofthetrack_project/Model/Ball.java:36-49 | move on the corrected pass rule: it succeeds exactly when `ValidPass` holds; on success the board becomes `Passed`, otherwise nothing changes |
| Balls.MoveAsWritten | src/main/java/com/example/endofthetrack_project/Model/Ball.java:36-49 | move exactly as written: it succeeds exactly when the overwriting `ValidPassAsWritten` holds; on success the board becomes `Passed`, otherwise nothing changes |
| Balls.CarriedIsBall | src/main/java/com/example/endofthetrack_project/Model/Ball.java:43-44 | on a well-formed board the second piece of a cell is a ball, above a real knight |
| Balls.PassedCells | src/main/java/com/example/endofthetrack_project/Model/Ball.java:42-46 | a pass appends the ball to the destination, removes it from the source (whose knight stays) and changes no other cell |
| Balls.PassKeepsTidy | src/main/java/com/example/endofthetrack_project/Model/Ball.java:42-46 | a legal pass keeps the board well formed |
| Balls.PassKeepsPieces | src/main/java/com/example/endofthetrack_project/Model/Ball.java:42-46 | a pass keeps the multiset of pieces on the board |
| Balls.OverwrittenBlock | src/main/java/com/example/endofthetrack_project/Model/Ball.java:84-93 | on a concrete well-formed board, the as-written rule accepts a pass that an opposing knight blocks; the corrected rule refuses it |
| CellMoves.MovePiece | src/main/java/com/example/endofthetrack_project/Model/Cell.java:142-153 | movePiece hands the move to the ball on a cell of several pieces (with the corrected pass rule) and to the knight otherwise, with the cell's own coordinates as source |
| CellMoves.MoveKeepsTidy | src/main/java/com/example/endofthetrack_project/Model/Cell.java:142-153 | every successful move keeps the board well formed |
| CellMoves.MoveKeepsPieces | src/main/java/com/example/endofthetrack_project/Model/Cell.java:142-153 | every successful move keeps the multiset of pieces on the board |
| CellMoves.MoveLanding | src/main/java/com/example/endofthetrack_project/Model/Cell.java:142-153 | after a pass the destination has several pieces with the ball on top; after a step it holds the knight alone |
| Players.KnightIn | src/main/java/com/example/endofthetrack_project/Model/Player.java:86-91 | slot i of white follows white knight i+1 and slot i of black follows black knight i+7, both well-formed knights |
| Players.Reslot | src/main/java/com/example/endofthetrack_project/Model/Player.java:85-91 | after a knight move, slot id-1 (white) or id-7 (black) becomes the destination and every other slot is kept |
| Players.MakeMoveOn | src/main/java/com/example/endofthetrack_project/Model/Player.java:77-101 | the move is accepted exactly when the source is one of the player's cells and movePiece succeeds; a refusal changes nothing but notValid, which is set only when the source was owned; the pieces on the board are kept |
| Players.Player.constructor | src/main/java/com/example/endofthetrack_project/Model/Player.java:27-31 | a new player has its id and colour, five empty slots, no ball and is not current |
| Players.Player.MakeMove | src/main/java/com/example/endofthetrack_project/Model/Player.java:77-101 | the result, the new board and the player's new fields are exactly those of `MakeMoveOn` |
| Players.Player.SetBall | src/main/java/com/example/endofthetrack_project/Model/Player.java:49-51 | only the ball reference changes |
| Players.Player.Record | src/main/java/com/example/endofthetrack_project/Model/Player.java:80-92 | a destination with several pieces becomes the ball reference; otherwise the knight's slot is moved |
| Players.Player.IsWinner | src/main/java/com/example/endofthetrack_project/Model/Player.java:118-131 | isWinner: the ball's cell has a second piece, of this player's colour, and lies on row 0 for white or row 7 for black; Players.IsWinnerMeans states it through the goal row |
| Players.IsWinnerMeans | src/main/java/com/example/endofthetrack_project/Model/Player.java:118-131 | a player wins exactly when its ball cell holds a second piece of its colour on its goal row (0 for white, 7 for black) |
| Players.MakeMoveKeepsRecords | src/main/java/com/example/endofthetrack_project/Model/Player.java:77-101 | after any move the mover's slots still name its own knights and its ball reference still names a ball carrier |
| Players.MakeMoveKeepsOthers | src/main/java/com/example/endofthetrack_project/Model/Player.java:77-101 | a move by one player leaves the other player's slots true |
| Boards.HomeKnightsAre | src/main/java/com/example/endofthetrack_project/Model/Board.java:73-88 | buildBoard creates white knights 1..5 and black knights 7..11, in column order |
| Boards.HomeSlotsStep | src/main/java/com/example/endofthetrack_project/Model/Board.java:78 | each pass of the home-row loops stores column i in slot i-1 |
| Boards.WithHomeRowStep | src/main/java/com/example/endofthetrack_project/Model/Board.java:73-88 | one more column of a home row places one knight and changes no other cell |
| Boards.Filled | src/main/java/com/example/endofthetrack_project/Model/Board.java:103-110 | the last loop of buildBoard puts a marker exactly in the cells still null |
| Boards.BuiltSteps | src/main/java/com/example/endofthetrack_project/Model/Board.java:71-111 | buildBoard's result is its four stages composed in order |
| Boards.BuiltFromNull | src/main/java/com/example/endofthetrack_project/Model/Board.java:33-39 | buildBoard on a fresh, all-null grid gives the starting position |
| Boards.InitialViewValid | src/main/java/com/example/endofthetrack_project/Model/Board.java:48-111 | the new board is well formed and white moves first; the white ball (6) is above the knight on (3, 7) and the black ball (12) above the knight on (3, 0); every other non-home cell holds one marker |
| Boards.SwitchTurnFlips | src/main/java/com/example/endofthetrack_project/Model/Board.java:121-132 | switchTurn keeps the board well formed, gives the turn to the other player and changes only the two current flags |
| Boards.SwitchTurnTwice | src/main/java/com/example/endofthetrack_project/Model/Board.java:121-132 | switching the turn twice restores the board exactly |
| Boards.ValidPosition | src/main/java/com/example/endofthetrack_project/Model/Board.java:148-154 | validPosition: a two-piece cell is selectable when it is the current player's ball cell, any other cell when it is one of the current player's slots; Boards.ValidPositionOwned states what such a cell holds |
| Boards.ValidPositionOwned | src/main/java/com/example/endofthetrack_project/Model/Board.java:148-154 | a selectable two-piece cell is the current player's ball cell; any other selectable cell holds one of the current player's own knights |
| Boards.Board.constructor | src/main/java/com/example/endofthetrack_project/Model/Board.java:33-39 | a new board is well formed, equals the starting position and lists the ten home knights |
| Boards.Board.InitPlayers | src/main/java/com/example/endofthetrack_project/Model/Board.java:48-53 | white player 1 is created current and black player 2 not current, each with five empty slots; white is currPlayer |
| Boards.Board.BuildBoard | src/main/java/com/example/endofthetrack_project/Model/Board.java:71-111 | the grid becomes `Built` of the old grid, the knights are appended to pieces, and each player gets its home slots and its ball cell |
| Boards.Board.PlaceHomeRow | src/main/java/com/example/endofthetrack_project/Model/Board.java:73-88 | one home-row loop places knights 1..5 of that colour, records them in Board.pieces and fills the player's slots |
| Boards.Board.PlaceStep | src/main/java/com/example/endofthetrack_project/Model/Board.java:73-88 | one pass of a home-row loop extends the placed row, Board.pieces and the player's slots by column i |
| Boards.Board.PlaceKnight | src/main/java/com/example/endofthetrack_project/Model/Board.java:74-78 | column i of the home row gets exactly that knight, which is appended to Board.pieces and stored in slot i-1 |
| Boards.Board.FillNulls | src/main/java/com/example/endofthetrack_project/Model/Board.java:103-110 | the nested loop turns the grid into `Filled` of the old grid |
| Boards.Board.SwitchTurn | src/main/java/com/example/endofthetrack_project/Model/Board.java:121-132 | the board's new value is `SwitchTurnView` of the old one, with the same player objects |
| States.IncrementVisit | src/main/java/com/example/endofthetrack_project/Model/AI/State.java:162-164 | one more visit, wrapping from Integer.MAX_VALUE to Integer.MIN_VALUE; nothing else changes |
| States.AddScore | src/main/java/com/example/endofthetrack_project/Model/AI/State.java:170-173 | a dead (Integer.MIN_VALUE) score stays as it is; any other score grows by the given amount |
| States.DeadAbsorbs | src/main/java/com/example/endofthetrack_project/Model/AI/State.java:170-173 | once dead, a state stays the same through any sequence of added scores |
| States.LiveAddsUp | src/main/java/com/example/endofthetrack_project/Model/AI/State.java:170-173 | a live score that never hits the sentinel on the way ends at its start plus the sum of the scores |
| States.GetOpponent | src/main/java/com/example/endofthetrack_project/Model/AI/State.java:88-90 | getOpponent maps 1 to 2 and 2 to 1, and is 3 - playerNum wherever that fits in an int |
| States.SwitchPlayer | src/main/java/com/example/endofthetrack_project/Model/AI/State.java:365-367 | switchPlayer hands the state to the opponent and changes nothing else |
| States.SwitchPlayerTwice | src/main/java/com/example/endofthetrack_project/Model/AI/State.java:365-367 | switching the player twice gives back the state, for every int player number |
| States.SuccessorValid | src/main/java/com/example/endofthetrack_project/Model/AI/State.java:146-150 | the copied board after a move is still well formed |
| States.SuccessorKeeps | src/main/java/com/example/endofthetrack_project/Model/AI/State.java:146-150 | the copied board after a move keeps the pieces, the player to move and the opponent's record |
| States.PossibleStatesBound | src/main/java/com/example/endofthetrack_project/Model/AI/State.java:139-157 | getAllPossibleStates yields at most one state per available position |
| States.PossibleStatesSound | src/main/java/com/example/endofthetrack_project/Model/AI/State.java:139-157 | every listed state is the board after an accepted move to one of the positions, tagged 3 - playerNum, with fresh counters |
| States.PossibleStatesComplete | src/main/java/com/example/endofthetrack_project/Model/AI/State.java:139-157 | every accepted move to one of the positions is listed |
| States.GetAllPossibleStates | src/main/java/com/example/endofthetrack_project/Model/AI/State.java:139-157 | the loop returns exactly `PossibleStates` over the available positions, in their order |
| Evaluation.ScanCarriersIsFirstMin | src/main/java/com/example/endofthetrack_project/Model/AI/State.java:307-317 | the scan finds the smallest distance of an own ball carrier (Integer.MAX_VALUE if none) and the first carrier at that distance |
| Evaluation.MinDistance | src/main/java/com/example/endofthetrack_project/Model/AI/State.java:321-330 | farthestDistance is at most its start and every reachable cell's distance, and equals one of them |
| Evaluation.Evaluate | src/main/java/com/example/endofthetrack_project/Model/AI/State.java:260-339 | the loops of evaluate compute exactly `EvaluateSpec` |
| Evaluation.BlocksOpponent | src/main/java/com/example/endofthetrack_project/Model/AI/State.java:265-273 | the first loop finds whether an opponent ball carrier is at distance 1 |
| Evaluation.Closeness | src/main/java/com/example/endofthetrack_project/Model/AI/State.java:279-294 | the next two loops find whether some opponent knight is within distance 3, and whether some is beyond it |
| Evaluation.ReachesGoal | src/main/java/com/example/endofthetrack_project/Model/AI/State.java:297-304 | the early-return loop finds whether an own ball carrier is at distance 0 |
| Evaluation.NearestCarrier | src/main/java/com/example/endofthetrack_project/Model/AI/State.java:307-317 | the loop computes currentDistance and farthestCell as `ScanCarriers` |
| Evaluation.BestReach | src/main/java/com/example/endofthetrack_project/Model/AI/State.java:321-330 | the last loop lowers farthestDistance to the best reachable distance |
| Evaluation.EvaluateCases | src/main/java/com/example/endofthetrack_project/Model/AI/State.java:264-338 | evaluate returns -10 when an opponent ball is one step from goal, otherwise 10 when an own ball is at distance 0, and otherwise the wrapped `farthestDistance + 1` times 2 (an opponent knight within 3) or 10; the unscaled last return never happens |
| Evaluation.EvaluateLastBranchUnreachable | src/main/java/com/example/endofthetrack_project/Model/AI/State.java:278-338 | every opponent knight is within distance 3 or beyond it, so the final `farthestDistance + 1` branch is never reached |
| Evaluation.EvaluateWithoutCarrier | src/main/java/com/example/endofthetrack_project/Model/AI/State.java:307-338 | with no own ball carrier nearer than Integer.MAX_VALUE, `farthestDistance + 1` overflows and the board scores 0 |
| Evaluation.EvaluateWithCarrier | src/main/java/com/example/endofthetrack_project/Model/AI/State.java:306-338 | otherwise d is between 0 and the carrier's distance, and the score is 2(d+1) when defensive and 10(d+1) otherwise |
| Trees.FirstMaxIndex | src/main/java/com/example/endofthetrack_project/Model/AI/Node.java:144-147 | Collections.max returns the first index holding the largest value |
| Trees.ChildWithMaxScore | src/main/java/com/example/endofthetrack_project/Model/AI/Node.java:144-147 | a child exists exactly when there are children; it is one of them, no sibling has more visits, and no earlier sibling has as many |
| Trees.RandomChild | src/main/java/com/example/endofthetrack_project/Model/AI/Node.java:124-127 | the draw picks one of the children, and exists exactly when there are children |
| Trees.RandomChildReachesAll | src/main/java/com/example/endofthetrack_project/Model/AI/Node.java:124-127 | every child can be drawn: the draw k / size picks child k |
| Trees.CopiedChildrenPointAtOriginal | src/main/java/com/example/endofthetrack_project/Model/AI/Node.java:54-63 | the copies of the children keep their parent link to the original node, not to its copy |
| Trees.Tree.constructor | src/main/java/com/example/endofthetrack_project/Model/AI/Tree.java:14-16 | a new tree is one root node holding the starting board, with no parent and no children |
| Trees.Tree.WithRoot | src/main/java/com/example/endofthetrack_project/Model/AI/Tree.java:22-24 | a tree over a single given node |
| Trees.Tree.SetRoot | src/main/java/com/example/endofthetrack_project/Model/AI/Tree.java:38-40 | after setRoot(n) the root is n and no node changes |
| Trees.Tree.AddNode | src/main/java/com/example/endofthetrack_project/Model/AI/Node.java:33-36 | `new Node(state)` appends a node with that state, no parent and no children |
| Trees.Tree.SetParent | src/main/java/com/example/endofthetrack_project/Model/AI/Node.java:93-95 | only that node's parent changes |
| Trees.Tree.SetState | src/main/java/com/example/endofthetrack_project/Model/AI/Node.java:77-79 | only that node's state changes |
| Trees.Tree.AddChild | src/main/java/com/example/endofthetrack_project/Model/AI/Tree.java:47-49 | the child joins the end of the parent's list; no other node or field changes |
| Trees.Tree.ClearChildren | src/main/java/com/example/endofthetrack_project/Model/AI/MCTSPlayer.java:115 | `getChildArray().clear()` empties that node's child list and changes nothing else |
| Trees.Tree.CopyNode | src/main/java/com/example/endofthetrack_project/Model/AI/Node.java:54-63 | the copy constructor appends a copy of the subtree: equal states, the same parent link, the same number of children in the same order, each a copy; existing nodes are kept |
| Uct.UctValueParts | src/main/java/com/example/endofthetrack_project/Model/AI/UCT.java:19-25 | an unvisited node scores Integer.MAX_VALUE; a visited one scores its mean win score plus a term depending only on the visit counts |
| Uct.UctValueMonotone | src/main/java/com/example/endofthetrack_project/Model/AI/UCT.java:23-24 | at fixed visit counts a higher win score never lowers the UCT value |
| Uct.FindBestNodeWithUct | src/main/java/com/example/endofthetrack_project/Model/AI/UCT.java:32-39 | a child exists exactly when there are children; it has the largest UCT value (with the node's own visit count as parent visits), and is the first such |
| Uct.UnvisitedChildFirst | src/main/java/com/example/endofthetrack_project/Model/AI/UCT.java:19-39 | when visited children score below Integer.MAX_VALUE, the first unvisited child is chosen |
| Uct.Descent | src/main/java/com/example/endofthetrack_project/Model/AI/MCTSPlayer.java:218-226 | the UCT descent ends at a node without children, at or after its start |
| Mcts.ExpansionSound | src/main/java/com/example/endofthetrack_project/Model/AI/MCTSPlayer.java:243-258 | every state expand attaches is the board after an accepted move of one of the mover's pieces, tagged with the node's opponent and fresh counters |
| Mcts.ExpansionComplete | src/main/java/com/example/endofthetrack_project/Model/AI/MCTSPlayer.java:243-258 | every accepted move of one of the mover's pieces is attached |
| Mcts.Attached | src/main/java/com/example/endofthetrack_project/Model/AI/MCTSPlayer.java:251-256 | attaching adds one node per state and keeps the expanded node's state |
| Mcts.AttachedShape | src/main/java/com/example/endofthetrack_project/Model/AI/MCTSPlayer.java:251-256 | the expanded node gains the new indices as its last children; each new node has the tagged state, that parent and no children; every other node is kept |
| Mcts.AttachedAppend | src/main/java/com/example/endofthetrack_project/Model/AI/MCTSPlayer.java:247-257 | attaching one slot's states after another's is attaching both lists at once |
| Mcts.Ancestors | src/main/java/com/example/endofthetrack_project/Model/AI/MCTSPlayer.java:278-290 | the parent chain starts at the node, strictly decreases in index (so it visits no node twice), and stays in the tree |
| Mcts.CreditEffect | src/main/java/com/example/endofthetrack_project/Model/AI/MCTSPlayer.java:280-288 | crediting counts one visit, keeps the board and player, keeps the sentinel, and otherwise moves the score by +10 for the winner and -10 otherwise |
| Mcts.ChainStep | src/main/java/com/example/endofthetrack_project/Model/AI/MCTSPlayer.java:279-290 | each step up the chain reaches a node not yet credited, and the rest of the chain continues from its parent |
| Mcts.PropagationKeepsSentinel | src/main/java/com/example/endofthetrack_project/Model/AI/MCTSPlayer.java:276-291 | back-propagation never overwrites the Integer.MIN_VALUE sentinel |
| Mcts.PropagationCountsOneVisit | src/main/java/com/example/endofthetrack_project/Model/AI/MCTSPlayer.java:276-291 | back-propagation adds exactly one visit to each node on the chain from the leaf to the root and none elsewhere, and keeps boards and tree shape |
| Mcts.SimulateGameAsWritten | src/main/java/com/example/endofthetrack_project/Model/AI/MCTSPlayer.java:308-329 | as written, every call on a node whose game the opponent has already won fails on a null dereference |
| Mcts.PossibleStatesSame | src/main/java/com/example/endofthetrack_project/Model/AI/State.java:139-157 | getAllPossibleStates depends only on the state's board and player |
| Mcts.SafeChildrenMeaning | src/main/java/com/example/endofthetrack_project/Model/AI/MCTSPlayer.java:105-125 | after the root is expanded, the guard keeps some child exactly when some successor leaves the opponent without an immediate win |
| Mcts.KeptAreSuccessors | src/main/java/com/example/endofthetrack_project/Model/AI/MCTSPlayer.java:108-114 | every kept child is a child of the root and holds the board of one of the successors |
| Mcts.MillisOfLevel | src/main/java/com/example/endofthetrack_project/Model/AI/MCTSPlayer.java:57-59 | the budget is 2·level − 1 ms; the deadline is start + 60·(2·(level − 1) + 1), which is start + 300 at the default level 3 |
| Mcts.MCTSPlayer.constructor | src/main/java/com/example/endofthetrack_project/Model/AI/MCTSPlayer.java:30-32 | a new player has level 3 |
| Mcts.MCTSPlayer.CanOpponentWinNextMove | src/main/java/com/example/endofthetrack_project/Model/AI/MCTSPlayer.java:184-200 | the answer is whether, once the turn passes, one of that player's ball carriers can reach distance 0; the board is restored on both return paths |
| Mcts.MCTSPlayer.CanReachGoalFromAny | src/main/java/com/example/endofthetrack_project/Model/AI/MCTSPlayer.java:187-199 | the outer loop finds whether some ball carrier of the player to move can reach the goal |
| Mcts.MCTSPlayer.CanReachGoal | src/main/java/com/example/endofthetrack_project/Model/AI/MCTSPlayer.java:189-195 | the inner loop finds whether some available position is at distance 0 |
| Mcts.MCTSPlayer.SelectPromisingNode | src/main/java/com/example/endofthetrack_project/Model/AI/MCTSPlayer.java:218-226 | the loop follows UCT-best children from the root to the node `Descent` reaches, a node without children |
| Mcts.MCTSPlayer.Expand | src/main/java/com/example/endofthetrack_project/Model/AI/MCTSPlayer.java:243-258 | expand attaches exactly `Expansion` of the node's state: only new children, each with the node as parent and the node's opponent as player |
| Mcts.MCTSPlayer.AttachStates | src/main/java/com/example/endofthetrack_project/Model/AI/MCTSPlayer.java:251-256 | the inner loop attaches one child per state, in order |
| Mcts.MCTSPlayer.AttachChild | src/main/java/com/example/endofthetrack_project/Model/AI/MCTSPlayer.java:252-255 | one new last node with the state tagged with the parent's opponent, linked to the parent, and added at the end of the parent's children |
| Mcts.MCTSPlayer.BackPropagation | src/main/java/com/example/endofthetrack_project/Model/AI/MCTSPlayer.java:276-291 | every node on the parent chain is credited once and every other node is untouched |
| Mcts.MCTSPlayer.CreditNode | src/main/java/com/example/endofthetrack_project/Model/AI/MCTSPlayer.java:280-289 | one pass of the loop credits node m and keeps its parent link |
| Mcts.MCTSPlayer.SimulateGame | src/main/java/com/example/endofthetrack_project/Model/AI/MCTSPlayer.java:308-329 | when the opponent has already won, the explored node's parent (if any) is marked dead and the opponent is returned; otherwise the final status is returned and the tree is unchanged |
| Mcts.MCTSPlayer.CanOpponentWinOn | src/main/java/com/example/endofthetrack_project/Model/AI/MCTSPlayer.java:110-111 | the check on a copied child state answers `OpponentCanWin` for that board |
| Mcts.MCTSPlayer.SafeChildren | src/main/java/com/example/endofthetrack_project/Model/AI/MCTSPlayer.java:106-114 | the kept children are exactly the root's children after which the opponent cannot win at once |
| Mcts.MCTSPlayer.Guard | src/main/java/com/example/endofthetrack_project/Model/AI/MCTSPlayer.java:105-125 | the root ends with no children; a winner is picked exactly when some successor is safe, and it is a safe successor |
| Mcts.MCTSPlayer.ExpandFresh | src/main/java/com/example/endofthetrack_project/Model/AI/MCTSPlayer.java:108 | expanding the fresh root gives it one child per successor, in order, each holding that successor's board |
| Mcts.MCTSPlayer.PickSafe | src/main/java/com/example/endofthetrack_project/Model/AI/MCTSPlayer.java:106-121 | the guard picks a child exactly when some successor is safe, and the pick is a safe successor |
| Mcts.MCTSPlayer.Search | src/main/java/com/example/endofthetrack_project/Model/AI/MCTSPlayer.java:126-149 | the search keeps the root and only adds successors of it as root children; one round on a board in progress with moves gives the root children |
| Mcts.MCTSPlayer.Grow | src/main/java/com/example/endofthetrack_project/Model/AI/MCTSPlayer.java:130-134 | expanding the selected node keeps the root's children successors of it and never removes any; a childless root in progress gets children |
| Mcts.MCTSPlayer.Explore | src/main/java/com/example/endofthetrack_project/Model/AI/MCTSPlayer.java:136-145 | simulation and back-propagation keep the root's child list and boards |
| Mcts.MCTSPlayer.Choose | src/main/java/com/example/endofthetrack_project/Model/AI/MCTSPlayer.java:153-181 | the guard's pick when there is one, otherwise the root child with the most visits; the chosen node becomes the root |
| Mcts.MCTSPlayer.Decide | src/main/java/com/example/endofthetrack_project/Model/AI/MCTSPlayer.java:100-181 | when the guard fires with a safe move, the root's children are cleared and the result is a safe successor; otherwise it is the max-visit root child; any result is a successor board |
| Mcts.MCTSPlayer.FindNextMove | src/main/java/com/example/endofthetrack_project/Model/AI/MCTSPlayer.java:86-182 | the root is given to 3 − the current player's id; the board passed in is left as it was; the result is a legal successor board; it is safe whenever a safe one exists and the opponent threatens to win |
| Mcts.MCTSPlayer.Respond | src/main/java/com/example/endofthetrack_project/Model/AI/MCTSPlayer.java:93-181 | from a well-formed board: any result is a legal successor; a safe one when the guard fires and a safe successor exists; some result whenever a round runs on a game in progress with moves |
| Mcts.MCTSPlayer.NewSearchTree | src/main/java/com/example/endofthetrack_project/Model/AI/MCTSPlayer.java:95-98 | the search starts from one root holding the board, attributed to the opponent, with fresh counters |

## Left out

- Mcts.MCTSPlayer.Search: the clock loop `while (System.currentTimeMillis() < end)` is modelled as a given number of rounds (`iterations`); the deadline arithmetic itself is `Deadline`.
- Randomness is passed in: `Math.random()` in getRandomChildNode as `draws`, and `Random.nextInt` in the guard as `pick`.
- State.randomPlay and the playout loop of simulateGame are not modelled. Their result reaches the model as the parameter `playout`. They depend on Board methods that are not part of this model, and the loop need not terminate. State's private canOpponentWinNextMove (used only by randomPlay) goes with them.
- Board.getAvailablePositions, getDistanceToGoal, checkStatus, IN_PROGRESS, setCurrPlayer, the copy constructors Board(Board), Player(Player) and Piece(Piece), and Player.setPieces are not part of this model. The search receives the first four as the `Oracles` parameter. Copies are value copies.
- The `setPieces` call in findNextMove's search loop (MCTSPlayer.java:140-141) is left out: it aliases the black player's slots to the current player's array, which the value model cannot express.
- UCT's exploration term `1.41 * sqrt(log(totalVisit) / nodeVisit)` is floating point; it is the parameter `explore`. Win scores are Dafny `real`s, not IEEE doubles, so rounding is not modelled.
- The tree is an arena of indices, not a graph of references. Mcts.MCTSPlayer.Guard therefore clears only the root's child list, as Java does; the dropped children stay in the arena, unreachable from the root.
- The three-argument Node(State, Node, List) constructor, Node.setChildArray, the plain getters and setters with no logic, MCTSPlayer.getLevel and setLevel, Board.isWinner(p) (a call to p.isWinner), Board.getPieces/getBoard/getPlayers, and every toString are not modelled separately.
- `System.out.println` calls are left out.
- Mcts.PropagationCountsOneVisit: stated for visit counts below Integer.MAX_VALUE; at the maximum the count wraps, as States.IncrementVisit states.
- Java's two branches on canLoseNextMove (MCTSPlayer.java:155-180) are identical, so Mcts.MCTSPlayer.Choose models them once.
- Mcts.MCTSPlayer.Explore: Explore, Search, Decide, Respond and FindNextMove run the corrected simulateGame (Mcts.MCTSPlayer.SimulateGame), which writes the Integer.MIN_VALUE sentinel on the parent of the explored node in the tree. Java as written throws a null dereference at MCTSPlayer.java:317 on any round whose explored node is already won by that node's opponent (Mcts.SimulateGameAsWritten). So their promises hold only for the corrected program: a result whenever a round runs on a game in progress with moves, and a first round that gives the root its children.
- Mcts.MCTSPlayer.FindNextMove does not state the max-visit choice, because the tree is local to it; Mcts.MCTSPlayer.Decide states it on the tree it is given.
- Balls.Move: uses the corrected pass rule, as does everything built on it (Cell.movePiece, Player.makeMove, getAllPossibleStates, expand, findNextMove). Balls.MoveAsWritten models Java's move on the overwriting rule. By Balls.ValidPassIsStricter, the two differ only on passes over an opposing piece that a later friendly piece hides.
- CellMoves.MovePiece: the ball branch calls the corrected Balls.Move, so a pass like the one in Balls.OverwrittenBlock is refused here, though Java's movePiece accepts it.
- States.Successor: the move is looked up by position on the copied board. Java hands the parent board's own Cell objects (State.java:142, 145, 150) to makeMove on the copy, and what that does depends on Board(Board), Player(Player) and setCurrPlayer, which are not part of this model. The model assumes the copy moves as the positions say: the copy's source and destination cells change, and the copied player's slots and ball follow. Suppose the copy constructors make new cells and pieces. Then Java's text would behave differently in two ways. A pass would append the copy's ball but remove nothing, since Piece has no equals (Ball.java:45). And makeMove would read the parent's untouched destination cell (Player.java:80-91), so no record would change. The model does not capture either effect.
- States.Successor: the moved player replaces `players[cur]`, so `players` and `currPlayer` stay one. Java's setCurrPlayer is taken to set only `currPlayer`, and the re-sync at MCTSPlayer.java:140-141 suggests the two can diverge. The model does not capture that divergence.
- States.SuccessorValid: states well-formedness of the position-based successor above, not of the board Java's text may build.
- States.SuccessorKeeps: the piece multiset is kept by the position-based successor; a pass on a deep copy as described above would leave the ball on both cells.
- States.PossibleStatesSound: each listed board is the position-based successor, not necessarily the board Java's text builds.
- States.GetAllPossibleStates: the loop equals PossibleStates over the position-based successor.
- Players.Player.IsWinner: requires a ball cell. On a new Player (Player.java:27-31) the ball is null until setBall, and isWinner (Player.java:119) would throw. Every board buildBoard makes gives both players a ball cell.
- Cell.isEmpty on an empty list throws in Java; on well-formed boards every cell is non-empty, so the model requires it.
- Knight.move and Ball.move index the board before they validate the move, so out-of-board coordinates throw in Java. Both methods require on-board coordinates. The validMove predicates themselves accept any coordinates and answer false off the board.

## Findings

| source | as written | input that shows it | evidently intended | confidence | as-written member | corrected member |
|---|---|---|---|---|---|---|
| src/main/java/com/example/endofthetrack_project/Model/Ball.java:84-93 | `foundOpponent` is reassigned at every occupied inner square, so only the last occupied square decides whether the pass is blocked | white ball on (3, 7) passed to (3, 4) over a black knight on (3, 6) and a white knight on (3, 5): accepted although the black knight blocks the line | the pass is refused when any inner square has an opposing first piece | high (not executed) | Balls.ValidMoveAsWritten, Balls.MoveAsWritten, Balls.OverwrittenBlock | Balls.ValidMove, Balls.Move, CellMoves.MovePiece, Balls.ValidPassIsStricter |
| src/main/java/com/example/endofthetrack_project/Model/AI/MCTSPlayer.java:310-317 | the sentinel is written through `simulationNode.getParent()`, but `simulationNode` is a fresh `new Node(state)` with no parent | any explored node whose board `checkStatus` reports as won by the opponent: a null dereference | mark the explored node's parent dead with Integer.MIN_VALUE and return the opponent | high (not executed) | Mcts.SimulateGameAsWritten | Mcts.MCTSPlayer.SimulateGame, Mcts.PropagationKeepsSentinel |
