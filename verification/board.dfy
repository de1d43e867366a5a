/** The game board: a 28-wide diamond split into the opponent's half (rows
    14..27) and our own half (rows 0..13), and the per-turn snapshot of the
    stationary structures standing on it, as the engine reports it. */
module GameMap {

  /** Number of columns of the board; the gap scan stops at this column. */
  const Width: int := 28

  datatype Option<+T> = None | Some(value: T)

  datatype Cell = Cell(x: int, y: int)

  /** The engine's tag for a stationary structure: FF is a wall, EF a support
      and DF a turret. Any other tag is one the strategy does not recognise. */
  datatype Tag = FF | EF | DF | OtherTag(name: string)

  /** What the snapshot holds at one cell. */
  datatype Unit = Unit(tag: Tag, health: nat, upgraded: bool)

  /** A structure as the strategy sees it: the unit together with its cell. */
  datatype Structure = Structure(at: Cell, tag: Tag, health: nat, upgraded: bool)

  /** The snapshot of one turn: the stationary unit standing at each cell. */
  datatype Board = Board(units: map<Cell, Unit>)

  /** The opponent's half (the cells of ENEMY_MAP). */
  predicate InEnemyHalf(c: Cell) {
    14 <= c.y <= 27 && c.y - 14 <= c.x <= 41 - c.y
  }

  /** Our own half (the cells of FRIENDLY_MAP). */
  predicate InFriendlyHalf(c: Cell) {
    0 <= c.y <= 13 && 13 - c.y <= c.x <= 14 + c.y
  }

  predicate OnBoard(c: Cell) {
    InEnemyHalf(c) || InFriendlyHalf(c)
  }

  /** The engine's stationary-unit query: the structure at `c`, or nothing
      when the cell is empty or off the board. */
  function StationaryAt(b: Board, c: Cell): (r: Option<Structure>)
    ensures r.Some? <==> OnBoard(c) && c in b.units
    ensures r.Some? ==> r.value.at == c && r.value.tag == b.units[c].tag
                        && r.value.health == b.units[c].health
                        && r.value.upgraded == b.units[c].upgraded
  {
    if OnBoard(c) && c in b.units then
      var u := b.units[c];
      Some(Structure(c, u.tag, u.health, u.upgraded))
    else
      None
  }

  predicate Occupied(b: Board, c: Cell) {
    StationaryAt(b, c).Some?
  }

  /** The cells of the opponent's half in column `x`, as a set. */
  function EnemyColumn(x: int): (r: set<Cell>)
    ensures forall c {:trigger c in r} :: c in r <==> InEnemyHalf(c) && c.x == x
  {
    var r := set y | 14 <= y <= 27 && InEnemyHalf(Cell(x, y)) :: Cell(x, y);
    assert forall c: Cell {:trigger c in r} :: InEnemyHalf(c) && c.x == x ==> c == Cell(x, c.y) && c in r;
    r
  }

  /** Row `y` of our own half, left to right. */
  function FriendlyRow(y: int): (r: seq<Cell>)
    requires 0 <= y <= 13
    ensures forall c {:trigger c in r} :: c in r <==> c.y == y && 13 - y <= c.x <= 14 + y
  {
    var r := seq(2 * y + 2, i requires 0 <= i < 2 * y + 2 => Cell(13 - y + i, y));
    assert forall c: Cell :: c.y == y && 13 - y <= c.x <= 14 + y ==> r[c.x - (13 - y)] == c;
    r
  }

  /** Rows `y` down to 0 of our own half, each left to right. */
  function FriendlyRowsFrom(y: int): seq<Cell>
    requires y <= 13
    decreases y + 1
  {
    if y < 0 then [] else FriendlyRow(y) + FriendlyRowsFrom(y - 1)
  }

  /** FRIENDLY_MAP: our own half in the order the triage walks it. */
  function FriendlyMap(): seq<Cell> {
    FriendlyRowsFrom(13)
  }

  lemma {:induction false} FriendlyRowsMembers(y: int, c: Cell)
    requires y <= 13
    ensures c in FriendlyRowsFrom(y) <==> InFriendlyHalf(c) && c.y <= y
    decreases y + 1
  {
    if y >= 0 {
      FriendlyRowsMembers(y - 1, c);
    }
  }

  /** FRIENDLY_MAP lists exactly the cells of our own half. */
  lemma FriendlyMapIsFriendlyHalf(c: Cell)
    ensures c in FriendlyMap() <==> InFriendlyHalf(c)
  {
    FriendlyRowsMembers(13, c);
  }
}
