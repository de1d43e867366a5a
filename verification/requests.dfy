/** The requests the strategy queues with the engine during a turn. The engine
    is a sink: it receives the requests in the order they are issued and
    decides on its own which of them it can afford. */
module Requests {
  import opened GameMap

  datatype UnitKind = Wall | Support | Turret | Scout | Demolisher | Interceptor

  /** One engine call: `attempt_spawn(kind, cells, count)`,
      `attempt_upgrade(cells)` or `attempt_remove(cells)`. */
  datatype Request =
    | Spawn(kind: UnitKind, cells: seq<Cell>, count: nat)
    | Upgrade(cells: seq<Cell>)
    | Remove(cells: seq<Cell>)

  predicate SpawnsKind(q: Request, k: UnitKind) {
    q.Spawn? && q.kind == k
  }

  /** The number of spawn requests for units of kind `k` in a request log. */
  function CountSpawns(log: seq<Request>, k: UnitKind): (n: nat)
    ensures n <= |log|
    decreases |log|
  {
    if log == [] then 0
    else (if SpawnsKind(log[0], k) then 1 else 0) + CountSpawns(log[1..], k)
  }

  /** No spawn of kind `k` is counted exactly when the log has none. */
  lemma {:induction false} CountSpawnsZero(log: seq<Request>, k: UnitKind)
    ensures CountSpawns(log, k) == 0 <==> forall i :: 0 <= i < |log| ==> !SpawnsKind(log[i], k)
    decreases |log|
  {
    if log != [] {
      CountSpawnsZero(log[1..], k);
      assert forall i :: 1 <= i < |log| ==> log[i] == log[1..][i - 1];
    }
  }

  lemma {:induction false} CountSpawnsConcat(a: seq<Request>, b: seq<Request>, k: UnitKind)
    ensures CountSpawns(a + b, k) == CountSpawns(a, k) + CountSpawns(b, k)
    decreases |a|
  {
    if a == [] {
      assert a + b == b;
    } else {
      assert (a + b)[1..] == a[1..] + b;
      CountSpawnsConcat(a[1..], b, k);
    }
  }

  /** Every cell a request names lies in our own half. */
  predicate InOwnHalf(q: Request) {
    CellsInOwnHalf(q.cells)
  }

  predicate CellsInOwnHalf(cells: seq<Cell>) {
    forall i :: 0 <= i < |cells| ==> InFriendlyHalf(cells[i])
  }

  /** Reflection of a cell in the board's vertical axis: column x and column
      27 - x face each other. */
  function MirrorCell(c: Cell): (m: Cell)
    ensures m.y == c.y && m.x + c.x == Width - 1
  {
    Cell(Width - 1 - c.x, c.y)
  }

  function MirrorCells(cells: seq<Cell>): (r: seq<Cell>)
    ensures |r| == |cells|
    ensures forall i :: 0 <= i < |cells| ==> r[i] == MirrorCell(cells[i])
  {
    seq(|cells|, i requires 0 <= i < |cells| => MirrorCell(cells[i]))
  }

  /** The same request issued on the other side of the board. */
  function MirrorRequest(q: Request): (m: Request)
    ensures m.cells == MirrorCells(q.cells)
  {
    match q
    case Spawn(k, cells, n) => Spawn(k, MirrorCells(cells), n)
    case Upgrade(cells) => Upgrade(MirrorCells(cells))
    case Remove(cells) => Remove(MirrorCells(cells))
  }

  function MirrorLog(log: seq<Request>): (r: seq<Request>)
    ensures |r| == |log|
    ensures forall i :: 0 <= i < |log| ==> r[i] == MirrorRequest(log[i])
  {
    seq(|log|, i requires 0 <= i < |log| => MirrorRequest(log[i]))
  }

  /** Reflection is its own inverse and maps each half of the board onto
      itself. */
  lemma MirrorCellInvolution(c: Cell)
    ensures MirrorCell(MirrorCell(c)) == c
    ensures InFriendlyHalf(MirrorCell(c)) <==> InFriendlyHalf(c)
    ensures InEnemyHalf(MirrorCell(c)) <==> InEnemyHalf(c)
  {
  }

  /** Reflecting a request log twice gives the log back. */
  lemma MirrorLogInvolution(log: seq<Request>)
    ensures MirrorLog(MirrorLog(log)) == log
  {
    forall i | 0 <= i < |log|
      ensures MirrorLog(MirrorLog(log))[i] == log[i]
    {
      var q := log[i];
      MirrorCellsInvolution(q.cells);
    }
  }

  lemma MirrorCellsInvolution(cells: seq<Cell>)
    ensures MirrorCells(MirrorCells(cells)) == cells
  {
    forall i | 0 <= i < |cells|
      ensures MirrorCells(MirrorCells(cells))[i] == cells[i]
    {
      MirrorCellInvolution(cells[i]);
    }
  }

  /** A reflected log spawns the same number of units of every kind. */
  lemma {:induction false} MirrorLogCounts(log: seq<Request>, k: UnitKind)
    ensures CountSpawns(MirrorLog(log), k) == CountSpawns(log, k)
    decreases |log|
  {
    if log != [] {
      MirrorLogCounts(log[1..], k);
      assert MirrorLog(log)[1..] == MirrorLog(log[1..]);
    }
  }

  lemma MirrorLogConcat(a: seq<Request>, b: seq<Request>)
    ensures MirrorLog(a + b) == MirrorLog(a) + MirrorLog(b)
  {
  }

  /** Mirroring keeps a request in our own half. */
  lemma MirrorInOwnHalf(q: Request)
    requires InOwnHalf(q)
    ensures InOwnHalf(MirrorRequest(q))
  {
  }

  /** A log of spawns of kind `k` only counts every request. */
  lemma {:induction false} AllOfKind(log: seq<Request>, k: UnitKind)
    requires forall i :: 0 <= i < |log| ==> SpawnsKind(log[i], k)
    ensures CountSpawns(log, k) == |log|
    decreases |log|
  {
    if log != [] {
      assert forall i :: 1 <= i < |log| ==> log[1..][i - 1] == log[i];
      AllOfKind(log[1..], k);
    }
  }

  /** `a` can be obtained from `b` by deleting requests: every request of `a`
      is also issued by `b`, in the same relative order. */
  predicate IsSubsequence<T(==)>(a: seq<T>, b: seq<T>)
    decreases |b|
  {
    if b == [] then a == []
    else (a != [] && a[0] == b[0] && IsSubsequence(a[1..], b[1..]))
         || IsSubsequence(a, b[1..])
  }

  lemma {:induction false} SubsequenceRefl<T>(a: seq<T>)
    ensures IsSubsequence(a, a)
    decreases |a|
  {
    if a != [] {
      SubsequenceRefl(a[1..]);
    }
  }

  lemma {:induction false} EmptySubsequence<T>(b: seq<T>)
    ensures IsSubsequence([], b)
    decreases |b|
  {
    if b != [] {
      EmptySubsequence(b[1..]);
    }
  }

  lemma {:induction false} SubsequenceConcat<T>(a1: seq<T>, b1: seq<T>, a2: seq<T>, b2: seq<T>)
    requires IsSubsequence(a1, b1) && IsSubsequence(a2, b2)
    ensures IsSubsequence(a1 + a2, b1 + b2)
    decreases |b1|
  {
    if b1 == [] {
      assert a1 + a2 == a2 && b1 + b2 == b2;
    } else {
      assert (b1 + b2)[1..] == b1[1..] + b2;
      if a1 != [] && a1[0] == b1[0] && IsSubsequence(a1[1..], b1[1..]) {
        SubsequenceConcat(a1[1..], b1[1..], a2, b2);
        assert (a1 + a2)[1..] == a1[1..] + a2;
      } else {
        SubsequenceConcat(a1, b1[1..], a2, b2);
      }
    }
  }
}
