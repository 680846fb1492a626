/**
 * Grid, wall and move rules (lib/gameLogic.ts): total functions over cells and wall lists,
 * and the loop that collects the moves a player believes are open.
 */
module GameLogic {
  import opened Types

  /** Side length of the square grid. */
  const BOARD_SIZE: int := 10

  /** The offsets `getAvailableMoves` tries, in this order: up, right, down, left. */
  const DIRECTIONS: seq<Position> := [Position(0, -1), Position(1, 0), Position(0, 1), Position(-1, 0)]

  function CreateEmptyBoard(): (b: Board)
    ensures b.entrance.None? && b.exit.None? && b.playerPosition.None?
    ensures b.walls == [] && b.visitedCells == [] && b.spottedWalls == []
    ensures !IsValidBoardSetup(b)
  {
    Board(None, None, [], None, [], [])
  }

  /** Componentwise equality of two nullable cells; a null operand never equals anything. */
  function PositionsEqual(p1: Option<Position>, p2: Option<Position>): (r: bool)
    ensures r <==> p1.Some? && p1 == p2
  {
    if p1.None? || p2.None? then false
    else p1.value.x == p2.value.x && p1.value.y == p2.value.y
  }

  lemma PositionsEqualSymmetric(p1: Option<Position>, p2: Option<Position>)
    ensures PositionsEqual(p1, p2) == PositionsEqual(p2, p1)
    ensures !PositionsEqual(None, p2) && !PositionsEqual(p1, None)
  {
  }

  /** Whether wall `w` joins `a` and `b`, in one orientation or the other. */
  predicate Joins(w: Wall, a: Position, b: Position) {
    (PositionsEqual(Some(w.from), Some(a)) && PositionsEqual(Some(w.to), Some(b))) ||
    (PositionsEqual(Some(w.from), Some(b)) && PositionsEqual(Some(w.to), Some(a)))
  }

  /** Whether some wall of `walls` separates `a` from `b`, whichever way it was stored. */
  function WallExists(walls: seq<Wall>, a: Position, b: Position): (r: bool)
    ensures r <==> Wall(a, b) in walls || Wall(b, a) in walls
  {
    if walls == [] then false
    else Joins(walls[0], a, b) || WallExists(walls[1..], a, b)
  }

  lemma WallExistsSymmetric(walls: seq<Wall>, a: Position, b: Position)
    ensures WallExists(walls, a, b) == WallExists(walls, b, a)
  {
  }

  function Abs(n: int): nat {
    if n < 0 then -n else n
  }

  /** Orthogonal adjacency: the two cells differ by one in exactly one coordinate. */
  predicate Adjacent(a: Position, b: Position) {
    var dx := Abs(b.x - a.x);
    var dy := Abs(b.y - a.y);
    (dx == 1 && dy == 0) || (dx == 0 && dy == 1)
  }

  predicate InBounds(p: Position) {
    0 <= p.x < BOARD_SIZE && 0 <= p.y < BOARD_SIZE
  }

  function Step(p: Position, dir: Position): Position {
    Position(p.x + dir.x, p.y + dir.y)
  }

  /** Whether `getAvailableMoves` keeps the neighbour `next` of `current`. */
  predicate Offered(current: Position, next: Position, spotted: seq<Wall>) {
    InBounds(next) && !WallExists(spotted, current, next)
  }

  /** The neighbour `next` as a one-element list when it is offered, else nothing. */
  function Kept(current: Position, next: Position, spotted: seq<Wall>): seq<Position> {
    if Offered(current, next, spotted) then [next] else []
  }

  /** The moves collected after trying the offsets `dirs`, in order, from `current`. */
  function Collected(current: Position, dirs: seq<Position>, spotted: seq<Wall>): seq<Position>
  {
    if dirs == [] then []
    else Collected(current, dirs[..|dirs| - 1], spotted) + Kept(current, Step(current, dirs[|dirs| - 1]), spotted)
  }

  /** What `getAvailableMoves` returns: the offered neighbours in the order up, right, down, left. */
  function AvailableMoves(current: Position, spotted: seq<Wall>): seq<Position> {
    Collected(current, DIRECTIONS, spotted)
  }

  lemma {:induction false} CollectedMembers(current: Position, dirs: seq<Position>, spotted: seq<Wall>, p: Position)
    ensures |Collected(current, dirs, spotted)| <= |dirs|
    ensures p in Collected(current, dirs, spotted) <==>
              Offered(current, p, spotted) && exists i :: 0 <= i < |dirs| && p == Step(current, dirs[i])
  {
    if dirs != [] {
      var n := |dirs| - 1;
      var init := dirs[..n];
      CollectedMembers(current, init, spotted, p);
      if p in Collected(current, dirs, spotted) && p !in Collected(current, init, spotted) {
        assert p == Step(current, dirs[n]);
      }
      if Offered(current, p, spotted) && exists i :: 0 <= i < |dirs| && p == Step(current, dirs[i]) {
        var i :| 0 <= i < |dirs| && p == Step(current, dirs[i]);
        if i < n {
          assert p == Step(current, init[i]);
        }
      }
    }
  }

  /** Trying offsets of which one leads nowhere collects fewer moves than offsets tried. */
  lemma {:induction false} CollectedDropsBlocked(current: Position, dirs: seq<Position>, spotted: seq<Wall>, k: nat)
    requires k < |dirs| && !Offered(current, Step(current, dirs[k]), spotted)
    ensures |Collected(current, dirs, spotted)| < |dirs|
  {
    var n := |dirs| - 1;
    CollectedMembers(current, dirs[..n], spotted, current);
    if k < n {
      assert dirs[..n][k] == dirs[k];
      CollectedDropsBlocked(current, dirs[..n], spotted, k);
    }
  }

  /** The four offsets reach exactly the orthogonal neighbours. */
  lemma AdjacentIsStep(a: Position, b: Position)
    ensures Adjacent(a, b) <==> exists i :: 0 <= i < |DIRECTIONS| && b == Step(a, DIRECTIONS[i])
  {
    if Adjacent(a, b) {
      if b.y == a.y - 1 {
        assert b == Step(a, DIRECTIONS[0]);
      } else if b.x == a.x + 1 {
        assert b == Step(a, DIRECTIONS[1]);
      } else if b.y == a.y + 1 {
        assert b == Step(a, DIRECTIONS[2]);
      } else {
        assert b == Step(a, DIRECTIONS[3]);
      }
    }
  }

  /**
   * The candidate moves are exactly the in-bounds orthogonal neighbours that no spotted
   * wall separates from the current cell; there are at most four.
   */
  lemma AvailableMovesExactly(current: Position, spotted: seq<Wall>, p: Position)
    ensures |AvailableMoves(current, spotted)| <= 4
    ensures p in AvailableMoves(current, spotted) <==>
              InBounds(p) && Adjacent(current, p) && !WallExists(spotted, current, p)
  {
    CollectedMembers(current, DIRECTIONS, spotted, p);
    AdjacentIsStep(current, p);
  }

  /** Trying one offset more appends its neighbour when that neighbour is offered. */
  lemma CollectedStep(current: Position, dirs: seq<Position>, i: nat, spotted: seq<Wall>)
    requires i < |dirs|
    ensures Collected(current, dirs[..i + 1], spotted) ==
              Collected(current, dirs[..i], spotted) + Kept(current, Step(current, dirs[i]), spotted)
  {
    assert dirs[..i + 1][..i] == dirs[..i] && dirs[..i + 1][i] == dirs[i];
  }

  /** Trying four offsets keeps each neighbour in the order tried, when it is offered. */
  lemma CollectedFour(current: Position, dirs: seq<Position>, spotted: seq<Wall>)
    requires |dirs| == 4
    ensures Collected(current, dirs, spotted) ==
              Kept(current, Step(current, dirs[0]), spotted) + Kept(current, Step(current, dirs[1]), spotted) +
              Kept(current, Step(current, dirs[2]), spotted) + Kept(current, Step(current, dirs[3]), spotted)
  {
    var k0, k1 := Kept(current, Step(current, dirs[0]), spotted), Kept(current, Step(current, dirs[1]), spotted);
    var k2, k3 := Kept(current, Step(current, dirs[2]), spotted), Kept(current, Step(current, dirs[3]), spotted);
    assert dirs[..1][..0] == [] && dirs[..1][0] == dirs[0];
    assert Collected(current, dirs[..1], spotted) == k0;
    assert dirs[..2][..1] == dirs[..1] && dirs[..2][1] == dirs[1];
    assert Collected(current, dirs[..2], spotted) == k0 + k1;
    assert dirs[..3][..2] == dirs[..2] && dirs[..3][2] == dirs[2];
    assert Collected(current, dirs[..3], spotted) == k0 + k1 + k2;
    assert dirs[..3] == dirs[..|dirs| - 1];
  }

  /**
   * For every cell and every set of spotted walls, the candidate moves are the neighbours
   * up, right, down and left, in that order, each kept only when it is offered.
   */
  lemma AvailableMovesOrder(current: Position, spotted: seq<Wall>)
    ensures AvailableMoves(current, spotted) ==
              Kept(current, Position(current.x, current.y - 1), spotted) +
              Kept(current, Position(current.x + 1, current.y), spotted) +
              Kept(current, Position(current.x, current.y + 1), spotted) +
              Kept(current, Position(current.x - 1, current.y), spotted)
  {
    var up, right := Position(current.x, current.y - 1), Position(current.x + 1, current.y);
    var down, left := Position(current.x, current.y + 1), Position(current.x - 1, current.y);
    assert Step(current, DIRECTIONS[0]) == up && Step(current, DIRECTIONS[1]) == right;
    assert Step(current, DIRECTIONS[2]) == down && Step(current, DIRECTIONS[3]) == left;
    CollectedFour(current, DIRECTIONS, spotted);
  }

  /** `AvailableMovesExactly` for every cell at once. */
  lemma AvailableMovesCharacterised(current: Position, spotted: seq<Wall>)
    ensures |AvailableMoves(current, spotted)| <= 4
    ensures forall p :: p in AvailableMoves(current, spotted) <==>
              InBounds(p) && Adjacent(current, p) && !WallExists(spotted, current, p)
  {
    forall p
      ensures p in AvailableMoves(current, spotted) <==>
                InBounds(p) && Adjacent(current, p) && !WallExists(spotted, current, p)
    {
      AvailableMovesExactly(current, spotted, p);
    }
    AvailableMovesExactly(current, spotted, current);
  }

  /** With nothing spotted yet, an interior cell offers all four neighbours, up, right, down, left. */
  lemma AvailableMovesInteriorOrder(current: Position)
    requires 1 <= current.x < BOARD_SIZE - 1 && 1 <= current.y < BOARD_SIZE - 1
    ensures AvailableMoves(current, []) ==
              [Position(current.x, current.y - 1), Position(current.x + 1, current.y),
               Position(current.x, current.y + 1), Position(current.x - 1, current.y)]
  {
    AvailableMovesOrder(current, []);
  }

  /**
   * `getAvailableMoves`: tries the four offsets in order and keeps each neighbour that lies
   * on the grid and is not separated from the current cell by a spotted wall.
   */
  method GetAvailableMoves(currentPosition: Position, spottedWalls: seq<Wall>) returns (moves: seq<Position>)
    ensures moves == AvailableMoves(currentPosition, spottedWalls)
    ensures |moves| <= 4
    ensures forall p :: p in moves <==>
              InBounds(p) && Adjacent(currentPosition, p) && !WallExists(spottedWalls, currentPosition, p)
  {
    moves := [];
    for i := 0 to |DIRECTIONS|
      invariant moves == Collected(currentPosition, DIRECTIONS[..i], spottedWalls)
    {
      var dir := DIRECTIONS[i];
      var newPos := Position(currentPosition.x + dir.x, currentPosition.y + dir.y);
      if !(newPos.x < 0 || newPos.x >= BOARD_SIZE || newPos.y < 0 || newPos.y >= BOARD_SIZE) {
        if !WallExists(spottedWalls, currentPosition, newPos) {
          moves := moves + [newPos];
        }
      }
      CollectedStep(currentPosition, DIRECTIONS, i, spottedWalls);
    }
    assert DIRECTIONS[..|DIRECTIONS|] == DIRECTIONS;
    AvailableMovesCharacterised(currentPosition, spottedWalls);
  }

  /**
   * `canMoveTo`: the authoritative check against the opponent's real walls. The target must
   * be an orthogonal neighbour with no wall between; nothing checks that it is on the grid.
   */
  function CanMoveTo(currentPosition: Position, targetPosition: Position, opponentWalls: seq<Wall>): (r: bool)
    ensures r <==> Adjacent(currentPosition, targetPosition) &&
                   Wall(currentPosition, targetPosition) !in opponentWalls &&
                   Wall(targetPosition, currentPosition) !in opponentWalls
  {
    var dx := Abs(targetPosition.x - currentPosition.x);
    var dy := Abs(targetPosition.y - currentPosition.y);
    if !((dx == 1 && dy == 0) || (dx == 0 && dy == 1)) then false
    else !WallExists(opponentWalls, currentPosition, targetPosition)
  }

  lemma CanMoveToSymmetric(a: Position, b: Position, walls: seq<Wall>)
    ensures CanMoveTo(a, b, walls) == CanMoveTo(b, a, walls)
    ensures !CanMoveTo(a, a, walls)
  {
  }

  /** No bounds check: stepping off the grid through an unwalled side is accepted. */
  lemma CanMoveToOffGrid()
    ensures CanMoveTo(Position(0, 0), Position(-1, 0), []) && !InBounds(Position(-1, 0))
  {
  }

  /** Every wall a player has spotted is one of the walls of the maze being explored. */
  predicate KnownWallsSound(spotted: seq<Wall>, walls: seq<Wall>) {
    forall i :: 0 <= i < |spotted| ==> WallExists(walls, spotted[i].from, spotted[i].to)
  }

  /**
   * The candidate moves may overstate what is legal, but never understate it: while every
   * spotted wall is real, each legal on-grid move is among the candidates.
   */
  lemma LegalMovesAreOffered(current: Position, target: Position, spotted: seq<Wall>, walls: seq<Wall>)
    requires KnownWallsSound(spotted, walls)
    requires InBounds(target) && CanMoveTo(current, target, walls)
    ensures target in AvailableMoves(current, spotted)
  {
    AvailableMovesExactly(current, spotted, target);
  }

  /** `isValidBoardSetup`: entrance and exit both placed; walls and progress play no part. */
  function IsValidBoardSetup(board: Board): (r: bool)
    ensures r <==> board.entrance.Some? && board.exit.Some?
  {
    board.entrance.Some? && board.exit.Some?
  }

  /** Validity asks only that both ends are placed: anywhere, even on one cell or off the grid. */
  lemma ValidSetupIgnoresPlacement(board: Board, entrance: Position, exit: Position)
    ensures IsValidBoardSetup(board.(entrance := Some(entrance), exit := Some(exit)))
    ensures !IsValidBoardSetup(board.(entrance := None)) && !IsValidBoardSetup(board.(exit := None))
  {
  }
}
