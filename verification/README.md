# Maze duel engine, modelled in Dafny

A model of the server side of a two-player maze duel. Each player builds a maze on a 10×10 grid: an entrance, an exit and walls between adjacent cells. Then each player walks through the opponent's maze and only learns about a wall by bumping into it. The first player to reach the opponent's exit wins.

The project has five modules, one per source file or component:

- `Types` (`types.dfy`) holds the records of `lib/types.ts`: positions, walls, boards, players, games and the submit-board payload.
- `GameLogic` (`game_logic.dfy`) models `lib/gameLogic.ts`. It covers position equality, the symmetric wall lookup and the authoritative move check `canMoveTo`. It also has `getAvailableMoves`, the loop that lists the moves a player believes are open, proved against a specification function.
- `Session` (`session.dfy`) gives, for each socket handler of `pages/api/socket.ts`, the game it stores as a function of the old game and the event. It states what each handler promises and the game invariant (`WellFormed`) that each handler keeps.
- `Server` (`server.dfy`) is the `games` table as a `Registry` class over a `map<string, Game>`. It has one method per handler, each written step by step like the source. Each method is proved to store exactly what `Session` prescribes and to keep every stored game well formed.
- `MazeEditor` (`maze_editor.dfy`) models the click handling of `components/BoardCreator.tsx` as an `Editor` class. Its placement rules form an invariant that every click keeps.

The model keeps the source's behaviour even where it is surprising:

- `make-move` never looks at the stage, and the turn is not cleared on a win. The winner can keep moving (`WinnerKeepsTheTurn`).
- `submit-board` never looks at the stage. A submission during play, or after the game has finished, seeds the positions again, appends the entrances to `visitedCells` again, gives the turn back to player1 and returns the game to PLAYING (`ResubmitRestartsPlay`).
- Every id other than `player1Id` resolves to the player2 seat. A stranger's submission rewrites player2's maze (`StrangerSubmitRewritesPlayer2`). A stranger leaving a game in play makes player1 the winner (`Forfeit`).
- `canMoveTo` has no bounds check, so stepping off the grid is accepted (`CanMoveToOffGrid`).
- A target that is not adjacent counts as blocked. It records a wall that does not exist and passes the turn (`FarTargetRecordsBogusWall`).
- `leave-game` on a finished game overwrites `winnerId` (`LeavingWinnerLoses`).
- `join-game` tests the player2 id for JavaScript truthiness, so the empty string counts as a free seat (`Truthy`). A player2 whose id is `""` is replaced by the next joiner, and a re-join with `""` is not idempotent (`EmptyIdRejoinReplaces`).

A design description of this system says that a player's spotted walls are always a subset of the opponent's real walls. The code does not keep that promise. The model follows the code: it proves that moves to adjacent cells keep the subset property (`MoveKeepsSpottedSound`). It also proves that three things break it. A non-adjacent target records a wall that does not exist (`FarTargetRecordsBogusWall`). A re-submission during play replaces a maze the opponent has already explored (`ResubmitForgetsSpottedWall`). A join under the empty id replaces a player2 whose id is `""` by a player with an empty maze (`EmptyIdJoinForgetsSpottedWalls`). The same description says the server rejects moves in a finished game. The code accepts them, and the model follows the code.

## Model

| member | source | states |
|---|---|---|
| `GameLogic.CreateEmptyBoard` | lib/gameLogic.ts:5-14 | entrance, exit and position are null; walls, visited cells and spotted walls are empty; the board is not a valid setup |
| `GameLogic.PositionsEqual` | lib/gameLogic.ts:16-19 | true exactly when both operands are non-null and equal as cells; a null operand never equals anything |
| `GameLogic.PositionsEqualSymmetric` | lib/gameLogic.ts:16-19 | position equality is symmetric and false whenever either side is null |
| `GameLogic.WallExists` | lib/gameLogic.ts:21-27 | true exactly when the list holds the wall (a,b) or the wall (b,a) |
| `GameLogic.WallExistsSymmetric` | lib/gameLogic.ts:21-27 | the wall lookup ignores orientation: asking about (a,b) and about (b,a) gives the same answer |
| `GameLogic.CollectedMembers` | lib/gameLogic.ts:41-56 | trying a list of offsets collects at most one cell per offset, and a cell is collected iff it is on the grid, not walled off, and one offset step away |
| `GameLogic.AdjacentIsStep` | lib/gameLogic.ts:34-45 | the four offsets reach exactly the orthogonal neighbours of a cell |
| `GameLogic.AvailableMovesExactly` | lib/gameLogic.ts:29-59 | the candidate moves are exactly the on-grid orthogonal neighbours with no spotted wall in between; there are at most four |
| `GameLogic.CollectedDropsBlocked` | lib/gameLogic.ts:41-56 | when one of the offsets tried leads to a cell that is not offered, fewer cells are collected than offsets tried |
| `GameLogic.CollectedFour` | lib/gameLogic.ts:41-56 | trying four offsets collects, in the order tried, exactly those of the four neighbours that are offered |
| `GameLogic.AvailableMovesOrder` | lib/gameLogic.ts:34-58 | for every cell and every list of spotted walls, the candidates are the neighbours up, right, down and left in that order, each present exactly when it is on the grid and not behind a spotted wall |
| `GameLogic.AvailableMovesInteriorOrder` | lib/gameLogic.ts:34-58 | with nothing spotted, an interior cell yields its four neighbours in the order up, right, down, left |
| `GameLogic.GetAvailableMoves` | lib/gameLogic.ts:29-59 | the loop returns the specified candidate list; each element is on the grid, adjacent and not behind a spotted wall, every such neighbour is included, and there are at most four |
| `GameLogic.CanMoveTo` | lib/gameLogic.ts:61-75 | a move is allowed exactly when the target is orthogonally adjacent and neither orientation of the wall between the two cells is among the opponent's walls |
| `GameLogic.CanMoveToSymmetric` | lib/gameLogic.ts:66-74 | the move check is symmetric in its two cells and never allows staying in place |
| `GameLogic.CanMoveToOffGrid` | lib/gameLogic.ts:61-75 | there is no bounds check: an unwalled step from (0,0) to (-1,0) is allowed |
| `GameLogic.LegalMovesAreOffered` | lib/gameLogic.ts:29-75 | while every spotted wall is a real wall, each legal on-grid move is among the candidate moves |
| `GameLogic.IsValidBoardSetup` | lib/gameLogic.ts:77-81 | a board is a valid setup exactly when both its entrance and its exit are set |
| `GameLogic.ValidSetupIgnoresPlacement` | lib/gameLogic.ts:77-81 | a board is a valid setup iff entrance and exit are both set, wherever they are and even on the same cell |
| `Session.NewGame` | pages/api/socket.ts:43-66 | the created game is well formed and WAITING, with the given id, name and creation time, the creator as an unready player1 on an empty board, no player2, and no turn or winner |
| `Session.Join` | pages/api/socket.ts:82-96 | a full game or a re-joining creator is left unchanged; an admitted joiner (not player1, and a falsy player2 id) becomes a fresh unready player2 and the stage becomes SETUP, with nothing else changed; afterwards the joiner takes part unless the game was full; well-formedness is kept |
| `Session.JoinIdempotent` | pages/api/socket.ts:82-96 | joining twice with the same non-empty id has the effect of joining once |
| `Session.EmptyIdRejoinReplaces` | pages/api/socket.ts:82-92 | the empty id is falsy, so joining again with it replaces the player2 it seated |
| `Session.StartPlay` | pages/api/socket.ts:115-130 | starting play keeps the seats and the authored mazes, places each player on the other's entrance, which is appended to its visited cells when set, leaves the spotted walls alone, and sets the stage to PLAYING with player1 to move; no other field changes |
| `Session.Submit` | pages/api/socket.ts:102-134 | an empty seat changes nothing; otherwise the resolved player holds the submitted entrance, exit and walls and is ready, while the other player's maze, the seats and the winner are kept; until both are ready, stage, turn and progress are unchanged; once both are ready, each player stands on the other's entrance, which is appended to its visited cells, the stage is PLAYING and player1 has the turn; spotted walls never change |
| `Session.SetupRace` | pages/api/socket.ts:109-130 | two submissions in a fresh SETUP game start play exactly once: after the first, stage and turn are unchanged; after the second, the game is PLAYING with player1 to move |
| `Session.SubmitOrderIrrelevant` | pages/api/socket.ts:102-130 | in a fresh SETUP game, the order of the two submissions does not change the resulting game |
| `Session.ResubmitRestartsPlay` | pages/api/socket.ts:115-130 | a submission by a participant during play or after the finish puts the game back in play, gives player1 the turn and appends the start cell to player1's visited cells again |
| `Session.StrangerSubmitRewritesPlayer2` | pages/api/socket.ts:106-112 | a sender who is not a participant resolves to the player2 seat and replaces player2's maze |
| `Session.Move` | pages/api/socket.ts:137-177 | a move without the turn, without both players, or without a placed mover changes nothing. A successful move puts the mover on the target and appends it to the visited cells, keeps the turn, and finishes the game with the mover as winner exactly when the target is the opponent's exit. A blocked move appends the wall (from, target) to the spotted walls, keeps the position and passes the turn to the other participant, and for an adjacent target that wall is a real wall of the opponent. The opponent and all mazes are untouched, and visited cells and spotted walls only grow |
| `Session.ResubmitForgetsSpottedWall` | pages/api/socket.ts:106-130 | during play, a participant's re-submission that leaves out a wall the opponent has spotted leaves that spotted wall without a real counterpart |
| `Session.EmptyIdJoinForgetsSpottedWalls` | pages/api/socket.ts:82-93 | in a game in play whose player2 id is `""`, a join under the empty id sends the game back to SETUP, and player1's spotted walls no longer lie in the maze it explores |
| `Session.WinnerKeepsTheTurn` | pages/api/socket.ts:153-162 | after a winning move the game is FINISHED but the winner still holds the turn and can move again |
| `Session.MoveKeepsSpottedSound` | pages/api/socket.ts:163-172 | if every spotted wall is a real wall of the explored maze, a move to an adjacent cell keeps it so |
| `Session.FarTargetRecordsBogusWall` | pages/api/socket.ts:147-169 | a non-adjacent target is recorded as a spotted wall that does not exist in a maze of adjacent walls |
| `Session.Forfeit` | pages/api/socket.ts:203-210 | leaving a game in play or finished changes only stage and winner: the stage is FINISHED and, in a two-player game, a leaving participant hands the win to the other one; any sender other than player1 makes player1 the winner |
| `Session.LeavingWinnerLoses` | pages/api/socket.ts:203-207 | the winner leaving a finished game loses the win |
| `Server.EnterMazes` | pages/api/socket.ts:115-130 | the start-of-play step yields exactly the specified started game: each player on the other's entrance, appended to its visited cells when set, the stage PLAYING and player1 to move |
| `Server.Registry.constructor` | pages/api/socket.ts:23 | the table starts empty |
| `Server.Registry.Listing` | pages/api/socket.ts:37-40 | every stored game is listed, and every listed game is the one stored under its own id |
| `Server.Registry.CreateGame` | pages/api/socket.ts:43-69 | the new game is stored under the given id and every other entry is unchanged; every stored game stays well formed |
| `Server.Registry.JoinGame` | pages/api/socket.ts:72-99 | an unknown id leaves the table unchanged and answers not-found; otherwise only that game changes, to its `Join` result, and its snapshot is sent |
| `Server.Registry.SubmitBoard` | pages/api/socket.ts:102-134 | only the named game changes, to its `Submit` result; a snapshot is sent exactly when the game exists and the seat is occupied |
| `Server.Registry.MakeMove` | pages/api/socket.ts:137-177 | only the named game changes, to its `Move` result; a snapshot is sent exactly when the move is accepted |
| `Server.Registry.LeaveGame` | pages/api/socket.ts:193-211 | an unknown id changes nothing; a WAITING or SETUP game is deleted and the other games are kept; any other game is replaced by its `Forfeit` result |
| `MazeEditor.IsOnBorder` | components/BoardCreator.tsx:78-80 | on the grid, a cell is on the border exactly when it is not an interior cell |
| `MazeEditor.BorderCellsOfferFewerMoves` | components/BoardCreator.tsx:78-80 | a grid cell is on the border exactly when it offers fewer than four moves on an empty board |
| `MazeEditor.AddWallKeepsWellFormed` | components/BoardCreator.tsx:53-64 | appending a new wall between adjacent cells keeps every wall between adjacent cells and no pair walled twice |
| `MazeEditor.Editor.constructor` | components/BoardCreator.tsx:29-33 | the editor opens on the stored entrance, exit and walls in entrance mode with no wall begun; from an empty board the placement rules hold |
| `MazeEditor.Editor.SetMode` | components/BoardCreator.tsx:89-122 | a mode button changes only the mode, and does nothing once the player is ready |
| `MazeEditor.Editor.HandleCellClick` | components/BoardCreator.tsx:35-66 | once the player is ready, nothing changes. Entrance or exit mode places that end only on a border cell and touches nothing else. The first wall click records its start. The second click always clears the start, and appends the wall iff the cells are adjacent and not yet walled in either orientation. The placement rules are kept |
| `MazeEditor.Editor.CanSubmit` | components/BoardCreator.tsx:82 | the Ready button is enabled exactly when the player is not ready and both ends are placed, i.e. the maze is a valid setup |
| `MazeEditor.Editor.HandleSubmitBoard` | components/BoardCreator.tsx:68-76 | with a connection, a payload is sent exactly when the Ready button would be enabled for an unready player; the payload is the editor's entrance, exit and walls and forms a valid setup |

## Left out

- Socket.io plumbing is not modelled: server setup, room joins and leaves, `emit` calls, `config` and `res.end`. A handler's result stands for the snapshot it broadcasts to the game's room. The lobby-wide `games-list` broadcasts are not modelled.
- `generateId`, the random `Player####` name and `Date.now` are parameters of the handler methods. An id that collides with a stored game overwrites that game, as `Map.set` does.
- `Server.Registry.Listing` gives the stored games as a set. The insertion order of `Array.from(games.values())` is not modelled.
- The chat relay (`send-message`) is not modelled. It is stateless forwarding.
- Concurrency is not modelled. Handlers run to completion one at a time on the JavaScript event loop, so each is one atomic method.
- Coordinates are JavaScript numbers but are modelled as integers. Fractional or non-numeric payload values are not modelled, and neither are missing payload fields.
- The `isCurrentTurn` player field is not modelled. It is set at creation and never read.
- React rendering, the SVG wall overlay, the game board's click forwarding and the lobby are not modelled. Neither are client identity storage and connection setup.
- The editor's `isReady` prop is a parameter of each click, and the socket's presence is the `connected` parameter of `HandleSubmitBoard`.
- `Session.Join`: the game invariant does not include "the turn holder is a participant". The empty-id replacement can break that property, so it is not claimed.
