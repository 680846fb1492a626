/**
 * The maze editor's click handling (components/BoardCreator.tsx): the entrance and the exit
 * go on border cells, and walls are drawn by clicking two orthogonally adjacent cells.
 */
module MazeEditor {
  import opened Types
  import opened GameLogic

  datatype PlacementMode = ENTRANCE | EXIT | WALL

  /** `isOnBorder`: the cell lies in the outermost row or column of the grid. */
  function IsOnBorder(x: int, y: int): (r: bool)
    ensures InBounds(Position(x, y)) ==> (r <==> !(1 <= x < BOARD_SIZE - 1 && 1 <= y < BOARD_SIZE - 1))
  {
    x == 0 || x == BOARD_SIZE - 1 || y == 0 || y == BOARD_SIZE - 1
  }

  /** On the grid, the border cells are exactly those that offer fewer than four moves. */
  lemma BorderCellsOfferFewerMoves(p: Position)
    requires InBounds(p)
    ensures IsOnBorder(p.x, p.y) <==> |AvailableMoves(p, [])| < 4
  {
    if p.y == 0 {
      CollectedDropsBlocked(p, DIRECTIONS, [], 0);
    } else if p.x == BOARD_SIZE - 1 {
      CollectedDropsBlocked(p, DIRECTIONS, [], 1);
    } else if p.y == BOARD_SIZE - 1 {
      CollectedDropsBlocked(p, DIRECTIONS, [], 2);
    } else if p.x == 0 {
      CollectedDropsBlocked(p, DIRECTIONS, [], 3);
    } else {
      AvailableMovesInteriorOrder(p);
    }
  }

  /** Every wall joins orthogonally adjacent cells, and no two walls join the same pair. */
  predicate WallsWellFormed(walls: seq<Wall>) {
    && (forall i :: 0 <= i < |walls| ==> Adjacent(walls[i].from, walls[i].to))
    && (forall i, j :: 0 <= i < j < |walls| ==> !Joins(walls[j], walls[i].from, walls[i].to))
  }

  /** Appending a wall between adjacent cells that no wall joins yet keeps the walls well formed. */
  lemma AddWallKeepsWellFormed(walls: seq<Wall>, a: Position, b: Position)
    requires WallsWellFormed(walls) && Adjacent(a, b) && !WallExists(walls, a, b)
    ensures WallsWellFormed(walls + [Wall(a, b)])
  {
    var ws := walls + [Wall(a, b)];
    forall i, j | 0 <= i < j < |ws|
      ensures !Joins(ws[j], ws[i].from, ws[i].to)
    {
      if j == |walls| {
        assert ws[i] == walls[i];
      }
    }
  }

  class Editor {
    var mode: PlacementMode
    var entrance: Option<Position>
    var exit: Option<Position>
    var walls: seq<Wall>
    /** The first cell of a wall being drawn. */
    var wallStart: Option<Position>

    /** The placement rules hold: placed ends lie on the border and the walls are well formed. */
    ghost predicate Valid()
      reads this
    {
      && (entrance.Some? ==> IsOnBorder(entrance.value.x, entrance.value.y))
      && (exit.Some? ==> IsOnBorder(exit.value.x, exit.value.y))
      && WallsWellFormed(walls)
    }

    /** The editor opens on the player's stored maze, in entrance mode, with no wall begun. */
    constructor (playerBoard: Board)
      ensures mode == ENTRANCE && wallStart.None?
      ensures entrance == playerBoard.entrance && exit == playerBoard.exit && walls == playerBoard.walls
      ensures playerBoard == CreateEmptyBoard() ==> Valid()
    {
      mode := ENTRANCE;
      entrance := playerBoard.entrance;
      exit := playerBoard.exit;
      walls := playerBoard.walls;
      wallStart := None;
    }

    /** A mode button; the buttons are disabled once the player is ready. */
    method SetMode(m: PlacementMode, isReady: bool)
      modifies this
      ensures mode == (if isReady then old(mode) else m)
      ensures entrance == old(entrance) && exit == old(exit) && walls == old(walls) && wallStart == old(wallStart)
      ensures old(Valid()) ==> Valid()
    {
      if !isReady {
        mode := m;
      }
    }

    /** `handleCellClick` for the cell at column `x`, row `y`. */
    method HandleCellClick(x: int, y: int, isReady: bool)
      modifies this
      ensures mode == old(mode)
      // once ready, a click changes nothing
      ensures isReady ==>
                entrance == old(entrance) && exit == old(exit) && walls == old(walls) && wallStart == old(wallStart)
      // entrance mode places the entrance on a border cell only, and touches nothing else
      ensures !isReady && old(mode) == ENTRANCE ==>
                entrance == (if IsOnBorder(x, y) then Some(Position(x, y)) else old(entrance)) &&
                exit == old(exit) && walls == old(walls) && wallStart == old(wallStart)
      // exit mode likewise places the exit; it may share the entrance's cell
      ensures !isReady && old(mode) == EXIT ==>
                exit == (if IsOnBorder(x, y) then Some(Position(x, y)) else old(exit)) &&
                entrance == old(entrance) && walls == old(walls) && wallStart == old(wallStart)
      // the first click of a wall remembers where it starts
      ensures !isReady && old(mode) == WALL && old(wallStart).None? ==>
                wallStart == Some(Position(x, y)) &&
                entrance == old(entrance) && exit == old(exit) && walls == old(walls)
      // the second click always clears the start, and adds the wall iff it is new and joins adjacent cells
      ensures !isReady && old(mode) == WALL && old(wallStart).Some? ==>
                var start, pos := old(wallStart).value, Position(x, y);
                wallStart.None? && entrance == old(entrance) && exit == old(exit) &&
                walls == if Adjacent(start, pos) && !WallExists(old(walls), start, pos)
                         then old(walls) + [Wall(start, pos)]
                         else old(walls)
      ensures old(Valid()) ==> Valid()
    {
      if isReady {
        return;
      }
      var pos := Position(x, y);
      if mode == ENTRANCE {
        if x == 0 || x == BOARD_SIZE - 1 || y == 0 || y == BOARD_SIZE - 1 {
          entrance := Some(pos);
        }
      } else if mode == EXIT {
        if x == 0 || x == BOARD_SIZE - 1 || y == 0 || y == BOARD_SIZE - 1 {
          exit := Some(pos);
        }
      } else {
        if wallStart.None? {
          wallStart := Some(pos);
        } else {
          var start := wallStart.value;
          var dx := Abs(pos.x - start.x);
          var dy := Abs(pos.y - start.y);
          if (dx == 1 && dy == 0) || (dx == 0 && dy == 1) {
            var newWall := Wall(start, pos);
            if !WallExists(walls, start, pos) {
              if old(Valid()) {
                AddWallKeepsWellFormed(walls, start, pos);
              }
              walls := walls + [newWall];
            }
          }
          wallStart := None;
        }
      }
    }

    /** `canSubmit`: the Ready button is enabled. */
    function CanSubmit(isReady: bool): (r: bool)
      reads this
      ensures r ==> !isReady && IsValidBoardSetup(CreateEmptyBoard().(entrance := entrance, exit := exit))
      ensures !isReady && entrance.Some? && exit.Some? ==> r
    {
      entrance.Some? && exit.Some? && !isReady
    }

    /**
     * `handleSubmitBoard`: with a connection and both ends placed, the editor's maze is
     * sent as a submit-board payload; otherwise nothing is sent. Readiness is not checked
     * here, only by the button.
     */
    method HandleSubmitBoard(connected: bool) returns (payload: Option<BoardSetup>)
      ensures connected ==> (payload.Some? <==> CanSubmit(false))
      ensures !connected ==> payload.None?
      ensures payload.Some? ==>
                payload.value == BoardSetup(entrance, exit, walls) &&
                IsValidBoardSetup(CreateEmptyBoard().(entrance := payload.value.entrance, exit := payload.value.exit))
    {
      if !connected || entrance.None? || exit.None? {
        return None;
      }
      payload := Some(BoardSetup(entrance, exit, walls));
    }
  }
}
