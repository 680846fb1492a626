/**
 * The in-memory game table and the socket handlers that update it (pages/api/socket.ts).
 * Each handler runs to completion before the next event is taken, so each is one method.
 * The generated game id, the random player name and the clock reading are parameters;
 * a handler's result is the `game-update` snapshot it broadcasts, if any.
 */
module Server {
  import opened Types
  import opened GameLogic
  import opened Session

  /** Every game is stored under its own id and is well formed. */
  ghost predicate TableValid(games: map<string, Game>) {
    forall id :: id in games ==> games[id].id == id && WellFormed(games[id])
  }

  /** Storing a well-formed game under its own id keeps the table valid. */
  lemma StoreKeepsValid(games: map<string, Game>, id: string, game: Game)
    requires TableValid(games) && game.id == id && WellFormed(game)
    ensures TableValid(games[id := game])
  {
  }

  /**
   * The start of play inside `submit-board`: each player is placed on the other's entrance,
   * which is appended to its visited cells when set; the stage becomes PLAYING and player1
   * moves first.
   */
  method EnterMazes(game: Game) returns (started: Game)
    requires BothReady(game)
    ensures started == StartPlay(game)
  {
    var p1, p2 := game.player1.value, game.player2.value;
    p1 := p1.(board := p1.board.(playerPosition := p2.board.entrance));
    p2 := p2.(board := p2.board.(playerPosition := p1.board.entrance));
    if p1.board.playerPosition.Some? {
      p1 := p1.(board := p1.board.(visitedCells := p1.board.visitedCells + [p1.board.playerPosition.value]));
    }
    if p2.board.playerPosition.Some? {
      p2 := p2.(board := p2.board.(visitedCells := p2.board.visitedCells + [p2.board.playerPosition.value]));
    }
    assert p1 == PlaceAt(game.player1.value, game.player2.value.board.entrance);
    assert p2 == PlaceAt(game.player2.value, game.player1.value.board.entrance);
    started := game.(player1 := Some(p1), player2 := Some(p2));
    started := started.(stage := PLAYING);
    started := started.(currentTurnPlayerId := Some(p1.id));
  }

  class Registry {
    /** The `games` table, from game id to game. */
    var games: map<string, Game>

    ghost predicate Valid()
      reads this
    {
      TableValid(games)
    }

    constructor ()
      ensures Valid() && games == map[]
    {
      games := map[];
    }

    /** `get-games`: the stored games, each listed once under its own id. */
    function Listing(): (list: set<Game>)
      reads this
      requires Valid()
      ensures forall id :: id in games ==> games[id] in list
      ensures forall g :: g in list ==> g.id in games && games[g.id] == g
    {
      games.Values
    }

    /**
     * `create-game`: stores a new waiting game under `gameId` with the creator as player1.
     * A colliding id overwrites the game stored under it; every other game is kept.
     */
    method CreateGame(gameId: string, playerId: string, playerName: string, gameName: string, now: int)
      returns (game: Game)
      requires Valid()
      modifies this
      ensures Valid()
      ensures game == NewGame(gameId, gameName, playerId, playerName, now)
      ensures games == old(games)[gameId := game]
    {
      var player := Player(playerId, playerName, CreateEmptyBoard(), false);
      game := Game(gameId, gameName, Some(playerId), None, Some(player), None, WAITING, None, None, now);
      games := games[gameId := game];
    }

    /**
     * `join-game`: an unknown id changes nothing and answers `game-not-found` (None);
     * otherwise the game becomes `Join` of itself and its snapshot is sent.
     */
    method JoinGame(gameId: string, playerId: string, playerName: string) returns (sent: Option<Game>)
      requires Valid()
      modifies this
      ensures Valid()
      ensures gameId !in old(games) ==> games == old(games) && sent.None?
      ensures gameId in old(games) ==>
                games == old(games)[gameId := Join(old(games)[gameId], playerId, playerName)] &&
                sent == Some(games[gameId])
    {
      if gameId !in games {
        return None;
      }
      var game := games[gameId];
      if game.player1Id != Some(playerId) && !Truthy(game.player2Id) {
        var player := Player(playerId, playerName, CreateEmptyBoard(), false);
        game := game.(player2Id := Some(playerId));
        game := game.(player2 := Some(player));
        game := game.(stage := SETUP);
        games := games[gameId := game];
      }
      sent := Some(game);
    }

    /**
     * `submit-board`: an unknown game or an empty seat changes nothing and sends nothing;
     * otherwise the game becomes `Submit` of itself and its snapshot is sent.
     */
    method SubmitBoard(gameId: string, playerId: string, board: BoardSetup) returns (sent: Option<Game>)
      requires Valid()
      modifies this
      ensures Valid()
      ensures gameId !in old(games) ==> games == old(games)
      ensures gameId in old(games) ==> games == old(games)[gameId := Submit(old(games)[gameId], playerId, board)]
      ensures sent.Some? <==> gameId in old(games) && SubmitAccepted(old(games)[gameId], playerId)
      ensures sent.Some? ==> sent == Some(games[gameId])
    {
      if gameId !in games {
        return None;
      }
      var game := games[gameId];
      var isPlayer1 := game.player1Id == Some(playerId);
      var seat := if isPlayer1 then game.player1 else game.player2;
      if seat.None? {
        return None;
      }
      var player := seat.value;
      player := player.(board := player.board.(entrance := board.entrance));
      player := player.(board := player.board.(exit := board.exit));
      player := player.(board := player.board.(walls := board.walls));
      player := player.(ready := true);
      assert player == Author(seat.value, board);
      game := if isPlayer1 then game.(player1 := Some(player)) else game.(player2 := Some(player));
      assert game == WithSlot(games[gameId], isPlayer1, Author(seat.value, board));

      if game.player1.Some? && game.player1.value.ready && game.player2.Some? && game.player2.value.ready {
        game := EnterMazes(game);
      }
      assert game == Submit(games[gameId], playerId, board);
      StoreKeepsValid(games, gameId, game);

      games := games[gameId := game];
      sent := Some(game);
    }

    /**
     * `make-move`: an unknown game or a rejected event changes nothing and sends nothing;
     * otherwise the game becomes `Move` of itself and its snapshot is sent.
     */
    method MakeMove(gameId: string, playerId: string, targetPosition: Position) returns (sent: Option<Game>)
      requires Valid()
      modifies this
      ensures Valid()
      ensures gameId !in old(games) ==> games == old(games)
      ensures gameId in old(games) ==>
                games == old(games)[gameId := Move(old(games)[gameId], playerId, targetPosition)]
      ensures sent.Some? <==> gameId in old(games) && MoveAccepted(old(games)[gameId], playerId)
      ensures sent.Some? ==> sent == Some(games[gameId])
    {
      if gameId !in games {
        return None;
      }
      var game := games[gameId];
      if game.currentTurnPlayerId != Some(playerId) {
        return None;
      }
      var isPlayer1 := game.player1Id == Some(playerId);
      var current := if isPlayer1 then game.player1 else game.player2;
      var opponent := if isPlayer1 then game.player2 else game.player1;
      if current.None? || opponent.None? || current.value.board.playerPosition.None? {
        return None;
      }
      var mover := current.value;
      var from := mover.board.playerPosition.value;

      if CanMoveTo(from, targetPosition, opponent.value.board.walls) {
        mover := mover.(board := mover.board.(playerPosition := Some(targetPosition)));
        mover := mover.(board := mover.board.(visitedCells := mover.board.visitedCells + [targetPosition]));
        game := if isPlayer1 then game.(player1 := Some(mover)) else game.(player2 := Some(mover));
        if PositionsEqual(Some(targetPosition), opponent.value.board.exit) {
          game := game.(stage := FINISHED);
          game := game.(winnerId := Some(playerId));
        }
      } else {
        var wall := Wall(from, targetPosition);
        mover := mover.(board := mover.board.(spottedWalls := mover.board.spottedWalls + [wall]));
        game := if isPlayer1 then game.(player1 := Some(mover)) else game.(player2 := Some(mover));
        game := game.(currentTurnPlayerId := Some(opponent.value.id));
      }
      assert game == Move(games[gameId], playerId, targetPosition);
      StoreKeepsValid(games, gameId, game);

      games := games[gameId := game];
      sent := Some(game);
    }

    /**
     * `leave-game`: an unknown id changes nothing; a game not yet in play is deleted and
     * nothing is sent to its room; any other game is forfeited and its snapshot sent.
     */
    method LeaveGame(gameId: string, playerId: string) returns (sent: Option<Game>)
      requires Valid()
      modifies this
      ensures Valid()
      ensures gameId !in old(games) ==> games == old(games) && sent.None?
      ensures gameId in old(games) && RemovedOnLeave(old(games)[gameId]) ==>
                games == old(games) - {gameId} && gameId !in games && sent.None?
      ensures gameId in old(games) && !RemovedOnLeave(old(games)[gameId]) ==>
                games == old(games)[gameId := Forfeit(old(games)[gameId], playerId)] &&
                sent == Some(games[gameId])
    {
      if gameId !in games {
        return None;
      }
      var game := games[gameId];
      if game.stage == WAITING || game.stage == SETUP {
        games := games - {gameId};
        sent := None;
      } else {
        var winnerId := if game.player1Id == Some(playerId) then game.player2Id else game.player1Id;
        game := game.(winnerId := winnerId);
        game := game.(stage := FINISHED);
        games := games[gameId := game];
        sent := Some(game);
      }
    }
  }
}
