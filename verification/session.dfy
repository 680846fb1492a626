/**
 * The per-game state machine driven by the socket handlers (pages/api/socket.ts). Each
 * handler reads one stored game, validates the event against it and updates it; the
 * functions here give the updated game, and the server's handler methods are proved to
 * store exactly that.
 */
module Session {
  import opened Types
  import opened GameLogic

  function NewPlayer(id: string, name: string): Player {
    Player(id, name, CreateEmptyBoard(), false)
  }

  /** JavaScript truthiness of a nullable id: null and the empty string are both falsy. */
  predicate Truthy(id: Option<string>) {
    id.Some? && id.value != ""
  }

  predicate IsParticipant(g: Game, id: string) {
    g.player1Id == Some(id) || g.player2Id == Some(id)
  }

  /** A player that has not submitted a maze still holds the empty board it was seated with. */
  predicate PlayerWellFormed(p: Player) {
    !p.ready ==> p.board == CreateEmptyBoard()
  }

  predicate BothReady(g: Game) {
    g.player1.Some? && g.player1.value.ready && g.player2.Some? && g.player2.value.ready
  }

  /**
   * What every stored game satisfies: the seat ids agree with the players in them and
   * differ from each other, an unready player has an untouched board, a waiting game has
   * no second player, a game in play or finished has two ready players and a turn holder,
   * and a finished game has a winner.
   */
  predicate WellFormed(g: Game) {
    && g.player1Id.Some? && g.player1.Some? && g.player1.value.id == g.player1Id.value
    && (g.player2Id.Some? <==> g.player2.Some?)
    && (g.player2.Some? ==> g.player2.value.id == g.player2Id.value && g.player2Id != g.player1Id)
    && PlayerWellFormed(g.player1.value)
    && (g.player2.Some? ==> PlayerWellFormed(g.player2.value))
    && (g.stage == WAITING ==> g.player2.None?)
    && (g.stage == PLAYING || g.stage == FINISHED ==> BothReady(g) && g.currentTurnPlayerId.Some?)
    && (g.stage == FINISHED ==> g.winnerId.Some?)
  }

  // ---------------------------------------------------------------------------------------
  // Seats and their parts

  /** Handlers resolve an id to the player1 seat when it is player1's id, else to player2's. */
  predicate IsPlayer1(g: Game, playerId: string) {
    g.player1Id == Some(playerId)
  }

  function Slot(g: Game, first: bool): Option<Player> {
    if first then g.player1 else g.player2
  }

  function WithSlot(g: Game, first: bool, p: Player): Game {
    if first then g.(player1 := Some(p)) else g.(player2 := Some(p))
  }

  /** The maze a player authored. */
  function Authored(p: Player): BoardSetup {
    BoardSetup(p.board.entrance, p.board.exit, p.board.walls)
  }

  function OptionToSeq(o: Option<Position>): seq<Position> {
    if o.Some? then [o.value] else []
  }

  /** Both seats are occupied as in `g`, by players with the same ids and names. */
  predicate SameSeats(g: Game, r: Game) {
    SameSeat(g.player1, r.player1) && SameSeat(g.player2, r.player2)
  }

  predicate SameSeat(a: Option<Player>, b: Option<Player>) {
    a.Some? == b.Some? &&
    (a.Some? ==> b.value.id == a.value.id && b.value.name == a.value.name)
  }

  /** Each player's visited cells and spotted walls in `r` extend those in `g`. */
  predicate ProgressGrows(g: Game, r: Game) {
    SeatGrows(g.player1, r.player1) && SeatGrows(g.player2, r.player2)
  }

  predicate SeatGrows(a: Option<Player>, b: Option<Player>) {
    a.Some? && b.Some? ==>
      a.value.board.visitedCells <= b.value.board.visitedCells &&
      a.value.board.spottedWalls <= b.value.board.spottedWalls
  }

  /** The fields that no handler but `join-game` and `leave-game` writes are those of `g`. */
  predicate SameFrame(g: Game, r: Game) {
    r.id == g.id && r.name == g.name && r.createdAt == g.createdAt &&
    r.player1Id == g.player1Id && r.player2Id == g.player2Id
  }

  // ---------------------------------------------------------------------------------------
  // create-game

  /** The game `create-game` stores for a creator. */
  function NewGame(gameId: string, gameName: string, playerId: string, playerName: string, createdAt: int): (g: Game)
    ensures WellFormed(g) && g.id == gameId && g.stage == WAITING
    ensures g.player1Id == Some(playerId) && g.player1 == Some(NewPlayer(playerId, playerName))
    ensures g.player2Id.None? && g.player2.None? && g.currentTurnPlayerId.None? && g.winnerId.None?
    ensures g.name == gameName && g.createdAt == createdAt
  {
    Game(gameId, gameName, Some(playerId), None, Some(NewPlayer(playerId, playerName)), None,
         WAITING, None, None, createdAt)
  }

  // ---------------------------------------------------------------------------------------
  // join-game

  /** `join-game` seats the joiner when it is not player1 and the player2 id is falsy. */
  predicate Admits(g: Game, playerId: string) {
    g.player1Id != Some(playerId) && !Truthy(g.player2Id)
  }

  function Join(g: Game, playerId: string, playerName: string): (r: Game)
    // a full game and a rejoining creator leave the game as it was
    ensures Truthy(g.player2Id) || g.player1Id == Some(playerId) ==> r == g
    // an admitted joiner is seated as a fresh, unready player2 and the game moves to SETUP, nothing more
    ensures Admits(g, playerId) ==>
              r == g.(player2Id := Some(playerId), player2 := Some(NewPlayer(playerId, playerName)), stage := SETUP)
    // afterwards the joiner takes part, unless the game was full
    ensures IsParticipant(r, playerId) || Truthy(g.player2Id)
    ensures WellFormed(g) ==> WellFormed(r)
  {
    if Admits(g, playerId) then
      g.(player2Id := Some(playerId), player2 := Some(NewPlayer(playerId, playerName)), stage := SETUP)
    else
      g
  }

  /** Joining twice with the same non-empty id is joining once; the second name is ignored. */
  lemma JoinIdempotent(g: Game, playerId: string, name1: string, name2: string)
    requires playerId != ""
    ensures Join(Join(g, playerId, name1), playerId, name2) == Join(g, playerId, name1)
  {
  }

  /** The empty id is falsy, so a second join with it replaces the player it seated. */
  lemma EmptyIdRejoinReplaces(g: Game, name1: string, name2: string)
    requires Admits(g, "") && name1 != name2
    ensures Join(Join(g, "", name1), "", name2) != Join(g, "", name1)
  {
    assert Join(Join(g, "", name1), "", name2).player2.value.name == name2;
  }

  // ---------------------------------------------------------------------------------------
  // submit-board

  /** The submitting player after taking the payload as its maze. */
  function Author(p: Player, setup: BoardSetup): Player {
    p.(board := p.board.(entrance := setup.entrance, exit := setup.exit, walls := setup.walls), ready := true)
  }

  /** `p` placed at `start`, which is added to its visited cells when it is set. */
  function PlaceAt(p: Player, start: Option<Position>): Player {
    p.(board := p.board.(playerPosition := start, visitedCells := p.board.visitedCells + OptionToSeq(start)))
  }

  /** Play starting: each player enters the other's maze at its entrance; player1 moves first. */
  function StartPlay(g: Game): (r: Game)
    requires BothReady(g)
    ensures BothReady(r) && SameSeats(g, r) && Started(g, r)
    ensures r.stage == PLAYING && r.currentTurnPlayerId == Some(g.player1.value.id)
    ensures Authored(r.player1.value) == Authored(g.player1.value)
    ensures Authored(r.player2.value) == Authored(g.player2.value)
    ensures r.(player1 := g.player1, player2 := g.player2, stage := g.stage, currentTurnPlayerId := g.currentTurnPlayerId) == g
  {
    var p1 := g.player1.value;
    var p2 := g.player2.value;
    g.(player1 := Some(PlaceAt(p1, p2.board.entrance)),
       player2 := Some(PlaceAt(p2, p1.board.entrance)),
       stage := PLAYING,
       currentTurnPlayerId := Some(p1.id))
  }

  /** Each player stands at the other's entrance, added once more to its visited cells. */
  predicate Started(g: Game, r: Game)
    requires BothReady(r) && SameSeats(g, r)
  {
    var p1, p2 := r.player1.value, r.player2.value;
    && p1.board.playerPosition == p2.board.entrance
    && p2.board.playerPosition == p1.board.entrance
    && p1.board.visitedCells == g.player1.value.board.visitedCells + OptionToSeq(p2.board.entrance)
    && p2.board.visitedCells == g.player2.value.board.visitedCells + OptionToSeq(p1.board.entrance)
    && p1.board.spottedWalls == g.player1.value.board.spottedWalls
    && p2.board.spottedWalls == g.player2.value.board.spottedWalls
  }

  /** Every seated player's position, visited cells and spotted walls are those of `g`. */
  predicate SameProgress(g: Game, r: Game)
    requires SameSeats(g, r)
  {
    (g.player1.Some? ==> SameBoardProgress(g.player1.value, r.player1.value)) &&
    (g.player2.Some? ==> SameBoardProgress(g.player2.value, r.player2.value))
  }

  predicate SameBoardProgress(p: Player, q: Player) {
    q.board.playerPosition == p.board.playerPosition &&
    q.board.visitedCells == p.board.visitedCells &&
    q.board.spottedWalls == p.board.spottedWalls
  }

  /** The seat `submit-board` resolves the sender to holds a player. */
  predicate SubmitAccepted(g: Game, playerId: string) {
    Slot(g, IsPlayer1(g, playerId)).Some?
  }

  function Submit(g: Game, playerId: string, setup: BoardSetup): (r: Game)
    // a missing seat changes nothing
    ensures !SubmitAccepted(g, playerId) ==> r == g
    // the resolved player now holds the submitted maze and is ready
    ensures SubmitAccepted(g, playerId) ==>
              var first := IsPlayer1(g, playerId);
              Slot(r, first).Some? && Slot(r, first).value.ready && Authored(Slot(r, first).value) == setup
    // the other player's maze and readiness, the seats, the frame and the winner are kept
    ensures SubmitAccepted(g, playerId) && Slot(g, !IsPlayer1(g, playerId)).Some? ==>
              var other := !IsPlayer1(g, playerId);
              Slot(r, other).Some? &&
              Authored(Slot(r, other).value) == Authored(Slot(g, other).value) &&
              Slot(r, other).value.ready == Slot(g, other).value.ready
    ensures SameSeats(g, r) && SameFrame(g, r) && r.winnerId == g.winnerId
    // until both players are ready, stage, turn and progress stay as they were
    ensures !BothReady(r) ==>
              r.stage == g.stage && r.currentTurnPlayerId == g.currentTurnPlayerId && SameProgress(g, r)
    // once both are ready, play (re)starts at the opponents' entrances with player1 to move
    ensures SubmitAccepted(g, playerId) && BothReady(r) ==>
              r.stage == PLAYING && r.currentTurnPlayerId == Some(r.player1.value.id) && Started(g, r)
    ensures ProgressGrows(g, r)
    ensures WellFormed(g) ==> WellFormed(r)
  {
    var first := IsPlayer1(g, playerId);
    match Slot(g, first)
    case None => g
    case Some(p) =>
      var authored := WithSlot(g, first, Author(p, setup));
      if BothReady(authored) then StartPlay(authored) else authored
  }

  /**
   * Both players of a fresh SETUP game submitting one after the other starts play exactly
   * once: the first submission leaves stage and turn alone, the second starts play with
   * player1 to move.
   */
  lemma SetupRace(g: Game, setup1: BoardSetup, setup2: BoardSetup)
    requires WellFormed(g) && g.stage == SETUP && g.player2.Some?
    requires !g.player1.value.ready && !g.player2.value.ready
    ensures var once := Submit(g, g.player1Id.value, setup1);
            once.stage == SETUP && once.currentTurnPlayerId == g.currentTurnPlayerId &&
            var twice := Submit(once, g.player2Id.value, setup2);
            twice.stage == PLAYING && twice.currentTurnPlayerId == g.player1Id
  {
    var once := Submit(g, g.player1Id.value, setup1);
    assert !BothReady(once);
  }

  /** The order in which the two players submit does not matter. */
  lemma SubmitOrderIrrelevant(g: Game, setup1: BoardSetup, setup2: BoardSetup)
    requires WellFormed(g) && g.stage == SETUP && g.player2.Some?
    requires !g.player1.value.ready && !g.player2.value.ready
    ensures Submit(Submit(g, g.player1Id.value, setup1), g.player2Id.value, setup2) ==
            Submit(Submit(g, g.player2Id.value, setup2), g.player1Id.value, setup1)
  {
  }

  /**
   * `submit-board` does not look at the stage: a submission during play, or after the
   * game finished, re-seeds both positions, appends the entrances to the visited cells
   * again, gives the turn back to player1 and puts the game in play.
   */
  lemma ResubmitRestartsPlay(g: Game, playerId: string, setup: BoardSetup)
    requires WellFormed(g) && (g.stage == PLAYING || g.stage == FINISHED)
    requires IsParticipant(g, playerId)
    ensures var r := Submit(g, playerId, setup);
            r.stage == PLAYING && r.currentTurnPlayerId == g.player1Id && r.winnerId == g.winnerId &&
            |r.player1.value.board.visitedCells| ==
              |g.player1.value.board.visitedCells| + |OptionToSeq(r.player2.value.board.entrance)|
  {
  }

  /** Any id other than player1's resolves to the player2 seat, so a stranger rewrites player2's maze. */
  lemma StrangerSubmitRewritesPlayer2(g: Game, stranger: string, setup: BoardSetup)
    requires WellFormed(g) && g.player2.Some? && !IsParticipant(g, stranger)
    ensures Authored(Submit(g, stranger, setup).player2.value) == setup
    ensures Submit(g, stranger, setup).player2.value.ready
  {
  }

  // ---------------------------------------------------------------------------------------
  // make-move

  /**
   * `make-move` acts only for the sender holding the turn, with both seats filled and the
   * mover placed. The stage is not consulted.
   */
  predicate MoveAccepted(g: Game, playerId: string) {
    var first := IsPlayer1(g, playerId);
    && g.currentTurnPlayerId == Some(playerId)
    && Slot(g, first).Some? && Slot(g, !first).Some?
    && Slot(g, first).value.board.playerPosition.Some?
  }

  function Mover(g: Game, playerId: string): Player
    requires MoveAccepted(g, playerId)
  {
    Slot(g, IsPlayer1(g, playerId)).value
  }

  function Opponent(g: Game, playerId: string): Player
    requires MoveAccepted(g, playerId)
  {
    Slot(g, !IsPlayer1(g, playerId)).value
  }

  function From(g: Game, playerId: string): Position
    requires MoveAccepted(g, playerId)
  {
    Mover(g, playerId).board.playerPosition.value
  }

  /** The arbiter's verdict: the step is allowed by the opponent's real walls. */
  predicate MoveSucceeds(g: Game, playerId: string, target: Position)
    requires MoveAccepted(g, playerId)
  {
    CanMoveTo(From(g, playerId), target, Opponent(g, playerId).board.walls)
  }

  function Move(g: Game, playerId: string, target: Position): (r: Game)
    // a rejected event changes nothing
    ensures !MoveAccepted(g, playerId) ==> r == g
    // only the mover's progress changes; the opponent, the seats and the mazes are kept
    ensures MoveAccepted(g, playerId) ==>
              var first := IsPlayer1(g, playerId);
              Slot(r, !first) == Slot(g, !first) &&
              Slot(r, first).Some? &&
              Slot(r, first).value == Mover(g, playerId).(board := Slot(r, first).value.board) &&
              Authored(Slot(r, first).value) == Authored(Mover(g, playerId))
    // a successful step moves the mover, keeps the turn, and wins exactly on the opponent's exit
    ensures MoveAccepted(g, playerId) && MoveSucceeds(g, playerId, target) ==>
              var m, q := Mover(g, playerId).board, Slot(r, IsPlayer1(g, playerId)).value.board;
              q.playerPosition == Some(target) && q.visitedCells == m.visitedCells + [target] &&
              q.spottedWalls == m.spottedWalls &&
              r.currentTurnPlayerId == g.currentTurnPlayerId &&
              if Some(target) == Opponent(g, playerId).board.exit
              then r.stage == FINISHED && r.winnerId == Some(playerId)
              else r.stage == g.stage && r.winnerId == g.winnerId
    // a blocked step records the wall the mover bumped into and passes the turn
    ensures MoveAccepted(g, playerId) && !MoveSucceeds(g, playerId, target) ==>
              var m, q := Mover(g, playerId).board, Slot(r, IsPlayer1(g, playerId)).value.board;
              q.spottedWalls == m.spottedWalls + [Wall(From(g, playerId), target)] &&
              q.playerPosition == m.playerPosition && q.visitedCells == m.visitedCells &&
              r.currentTurnPlayerId == Some(Opponent(g, playerId).id) &&
              r.stage == g.stage && r.winnerId == g.winnerId
    // between adjacent cells, a blocked step is blocked by a real wall of the opponent's maze
    ensures MoveAccepted(g, playerId) && !MoveSucceeds(g, playerId, target) &&
            Adjacent(From(g, playerId), target) ==>
              WallExists(Opponent(g, playerId).board.walls, From(g, playerId), target)
    // in a well-formed game, a blocked step hands the turn to the other participant
    ensures WellFormed(g) && MoveAccepted(g, playerId) && !MoveSucceeds(g, playerId, target) ==>
              r.currentTurnPlayerId.Some? && r.currentTurnPlayerId != Some(playerId) &&
              IsParticipant(r, r.currentTurnPlayerId.value)
    ensures SameSeats(g, r) && SameFrame(g, r) && ProgressGrows(g, r)
    ensures WellFormed(g) ==> WellFormed(r)
  {
    if !MoveAccepted(g, playerId) then g
    else
      var first := IsPlayer1(g, playerId);
      var mover, opponent := Mover(g, playerId), Opponent(g, playerId);
      var from := From(g, playerId);
      if CanMoveTo(from, target, opponent.board.walls) then
        var moved := WithSlot(g, first, mover.(board := mover.board.(
                       playerPosition := Some(target),
                       visitedCells := mover.board.visitedCells + [target])));
        if PositionsEqual(Some(target), opponent.board.exit) then
          moved.(stage := FINISHED, winnerId := Some(playerId))
        else
          moved
      else
        var bumped := WithSlot(g, first, mover.(board := mover.board.(
                        spottedWalls := mover.board.spottedWalls + [Wall(from, target)])));
        bumped.(currentTurnPlayerId := Some(opponent.id))
  }

  /** The turn is not cleared on a win, so the winner may go on moving in the finished game. */
  lemma WinnerKeepsTheTurn(g: Game, playerId: string, target: Position)
    requires MoveAccepted(g, playerId) && MoveSucceeds(g, playerId, target)
    requires Some(target) == Opponent(g, playerId).board.exit
    ensures Move(g, playerId, target).stage == FINISHED
    ensures MoveAccepted(Move(g, playerId, target), playerId)
  {
  }

  /** Every wall either player has spotted is a wall of the maze it explores. */
  predicate SpottedSound(g: Game) {
    g.player1.Some? && g.player2.Some? ==>
      KnownWallsSound(g.player1.value.board.spottedWalls, g.player2.value.board.walls) &&
      KnownWallsSound(g.player2.value.board.spottedWalls, g.player1.value.board.walls)
  }

  /** Moves to adjacent cells keep every spotted wall a real wall. */
  lemma {:induction false} MoveKeepsSpottedSound(g: Game, playerId: string, target: Position)
    requires SpottedSound(g)
    requires MoveAccepted(g, playerId) ==> Adjacent(From(g, playerId), target)
    ensures SpottedSound(Move(g, playerId, target))
  {
    var r := Move(g, playerId, target);
    if MoveAccepted(g, playerId) && !MoveSucceeds(g, playerId, target) {
      var first := IsPlayer1(g, playerId);
      var m, q := Mover(g, playerId).board, Slot(r, first).value.board;
      var walls := Opponent(g, playerId).board.walls;
      assert KnownWallsSound(m.spottedWalls, walls);
      assert q.spottedWalls == m.spottedWalls + [Wall(From(g, playerId), target)];
      assert KnownWallsSound(q.spottedWalls, walls) by {
        forall i | 0 <= i < |q.spottedWalls|
          ensures WallExists(walls, q.spottedWalls[i].from, q.spottedWalls[i].to)
        {
          if i < |m.spottedWalls| {
            assert q.spottedWalls[i] == m.spottedWalls[i];
          }
        }
      }
    }
  }

  /**
   * A target that is not adjacent is treated as blocked and recorded as a spotted wall
   * although no such wall exists, so the fog of war stops being a subset of the truth.
   */
  lemma FarTargetRecordsBogusWall(g: Game, playerId: string, target: Position)
    requires MoveAccepted(g, playerId) && !Adjacent(From(g, playerId), target)
    requires forall w :: w in Opponent(g, playerId).board.walls ==> Adjacent(w.from, w.to)
    ensures !SpottedSound(Move(g, playerId, target))
  {
    var r := Move(g, playerId, target);
    var first := IsPlayer1(g, playerId);
    var q := Slot(r, first).value.board;
    var walls := Opponent(g, playerId).board.walls;
    var last := |q.spottedWalls| - 1;
    assert q.spottedWalls[last] == Wall(From(g, playerId), target);
    assert !WallExists(walls, From(g, playerId), target);
    if first {
      assert !KnownWallsSound(r.player1.value.board.spottedWalls, r.player2.value.board.walls);
    } else {
      assert !KnownWallsSound(r.player2.value.board.spottedWalls, r.player1.value.board.walls);
    }
  }

  /**
   * `submit-board` replaces a maze whatever the stage, so a re-submission during play that
   * leaves out a wall the opponent has already bumped into breaks the subset property.
   */
  lemma ResubmitForgetsSpottedWall(g: Game, playerId: string, setup: BoardSetup, k: nat)
    requires WellFormed(g) && g.stage == PLAYING && IsParticipant(g, playerId)
    requires var spotted := Slot(g, !IsPlayer1(g, playerId)).value.board.spottedWalls;
             k < |spotted| && !WallExists(setup.walls, spotted[k].from, spotted[k].to)
    ensures !SpottedSound(Submit(g, playerId, setup))
  {
    var first := IsPlayer1(g, playerId);
    var r := Submit(g, playerId, setup);
    var explorer := Slot(r, !first).value.board;
    assert explorer.spottedWalls == Slot(g, !first).value.board.spottedWalls;
    assert Slot(r, first).value.board.walls == setup.walls;
    if first {
      assert !KnownWallsSound(r.player2.value.board.spottedWalls, r.player1.value.board.walls);
    } else {
      assert !KnownWallsSound(r.player1.value.board.spottedWalls, r.player2.value.board.walls);
    }
  }

  /**
   * A player2 seated under the empty id can be replaced mid-game by a fresh player with an
   * empty maze, so player1's spotted walls no longer lie in the maze it explores, and the
   * game falls back to SETUP.
   */
  lemma EmptyIdJoinForgetsSpottedWalls(g: Game, name: string)
    requires WellFormed(g) && g.stage == PLAYING && g.player2Id == Some("")
    requires g.player1.value.board.spottedWalls != []
    ensures var r := Join(g, "", name);
            r.stage == SETUP && !SpottedSound(r)
  {
    var r := Join(g, "", name);
    assert r.player2.value.board.walls == [];
    assert !WallExists([], r.player1.value.board.spottedWalls[0].from, r.player1.value.board.spottedWalls[0].to);
  }

  // ---------------------------------------------------------------------------------------
  // leave-game

  /** `leave-game` deletes a game that has not started play. */
  predicate RemovedOnLeave(g: Game) {
    g.stage == WAITING || g.stage == SETUP
  }

  /** The game `leave-game` stores after a departure from a game in play or finished. */
  function Forfeit(g: Game, playerId: string): (r: Game)
    // only stage and winner change, and the game is over
    ensures r == g.(stage := FINISHED, winnerId := r.winnerId)
    // a participant leaving hands the win to the other participant
    ensures WellFormed(g) && g.player2.Some? && IsParticipant(g, playerId) ==>
              r.winnerId.Some? && r.winnerId != Some(playerId) && IsParticipant(g, r.winnerId.value)
    // the sender is matched against player1 only: any other sender makes player1 the winner
    ensures !IsPlayer1(g, playerId) ==> r.winnerId == g.player1Id
    ensures WellFormed(g) && !RemovedOnLeave(g) ==> WellFormed(r)
  {
    var winnerId := if g.player1Id == Some(playerId) then g.player2Id else g.player1Id;
    g.(winnerId := winnerId, stage := FINISHED)
  }

  /** Leaving a finished game overwrites its winner: a winner who leaves loses. */
  lemma LeavingWinnerLoses(g: Game, playerId: string)
    requires WellFormed(g) && g.stage == FINISHED && g.winnerId == Some(playerId)
    requires IsParticipant(g, playerId)
    ensures Forfeit(g, playerId).winnerId != Some(playerId)
  {
  }
}
