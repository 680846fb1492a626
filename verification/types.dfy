/** The shared records of the maze duel (lib/types.ts). */
module Types {

  /** A nullable value: `T | null` in the source. */
  datatype Option<+T> = None | Some(value: T)

  /** A grid cell. The source's coordinates are JavaScript numbers; here they are integers. */
  datatype Position = Position(x: int, y: int)

  /** A wall between two cells, stored with an orientation that lookups ignore. */
  datatype Wall = Wall(from: Position, to: Position)

  /**
   * One player's board. `entrance`, `exit` and `walls` are the maze this player authored
   * (ground truth for the opponent); `playerPosition`, `visitedCells` and `spottedWalls`
   * are this player's progress through, and knowledge of, the opponent's maze.
   */
  datatype Board = Board(
    entrance: Option<Position>,
    exit: Option<Position>,
    walls: seq<Wall>,
    playerPosition: Option<Position>,
    visitedCells: seq<Position>,
    spottedWalls: seq<Wall>)

  datatype Player = Player(id: string, name: string, board: Board, ready: bool)

  datatype GameStage = WAITING | SETUP | PLAYING | FINISHED

  datatype Game = Game(
    id: string,
    name: string,
    player1Id: Option<string>,
    player2Id: Option<string>,
    player1: Option<Player>,
    player2: Option<Player>,
    stage: GameStage,
    currentTurnPlayerId: Option<string>,
    winnerId: Option<string>,
    createdAt: int)

  /** The `board` payload of a submit-board event: the authored part of a board. */
  datatype BoardSetup = BoardSetup(entrance: Option<Position>, exit: Option<Position>, walls: seq<Wall>)
}
