/** The fixed defensive layout and `cf_build_core`: the base every turn, then
    the reactive part that depends on which half of the opponent's defence
    is open. Opening on the opponent's right half (columns 0..13, our left)
    walls the left interceptor path and, after turn 12, grows the left
    support block; the left half (columns 14..27) does the same on our
    right. */
module BuildPlanner {
  import opened GameMap
  import opened Requests

  const WallBuildCore: seq<Cell> := [
    Cell(0, 13), Cell(1, 13), Cell(26, 13), Cell(27, 13), Cell(2, 12), Cell(4, 12), Cell(5, 12),
    Cell(22, 12), Cell(23, 12), Cell(25, 12), Cell(2, 11), Cell(6, 11), Cell(21, 11), Cell(25, 11),
    Cell(7, 10), Cell(20, 10), Cell(7, 9), Cell(20, 9), Cell(7, 8), Cell(20, 8), Cell(8, 7),
    Cell(19, 7), Cell(9, 6), Cell(18, 6), Cell(10, 5), Cell(11, 5), Cell(12, 5), Cell(13, 5),
    Cell(14, 5), Cell(15, 5), Cell(16, 5), Cell(17, 5)]
  const TurretBuildCore: seq<Cell> := [Cell(4, 11), Cell(1, 12), Cell(26, 12), Cell(23, 11)]
  const WallUpgradeCore1: seq<Cell> := [Cell(4, 12), Cell(5, 12), Cell(22, 12), Cell(23, 12), Cell(6, 11), Cell(21, 11)]
  const WallUpgradeCore2: seq<Cell> := [Cell(0, 13), Cell(1, 13), Cell(26, 13), Cell(27, 13), Cell(2, 12), Cell(25, 12), Cell(2, 11), Cell(25, 11)]
  const WallUpgradeCore3: seq<Cell> := [Cell(7, 10), Cell(20, 10), Cell(7, 9), Cell(20, 9), Cell(7, 8), Cell(20, 8)]
  const TurretBuildS1: seq<Cell> := [Cell(5, 11), Cell(22, 11)]
  const WallBuildCore2: seq<Cell> := [Cell(2, 13), Cell(25, 13), Cell(6, 12), Cell(21, 12)]

  const InterceptorPathLeft: seq<Cell> := [Cell(5, 10), Cell(5, 9), Cell(9, 5)]
  const InterceptorPathRight: seq<Cell> := [Cell(22, 10), Cell(22, 9), Cell(18, 5)]

  /** The four support blocks of each side, in the order they are built. */
  const LeftSupportCores: seq<seq<Cell>> := [
    [Cell(7, 11), Cell(8, 11), Cell(9, 11), Cell(10, 11)],
    [Cell(8, 10), Cell(9, 10), Cell(10, 10)],
    [Cell(8, 9), Cell(9, 9), Cell(10, 9)],
    [Cell(8, 8), Cell(9, 8), Cell(10, 8)]]
  /** The right blocks as the layout table writes them. The last block ends
      on (17, 9), a cell of the third block, where the reflection of the
      left blocks has (17, 8). */
  const RightSupportCores: seq<seq<Cell>> := [
    [Cell(20, 11), Cell(19, 11), Cell(18, 11), Cell(17, 11)],
    [Cell(19, 10), Cell(18, 10), Cell(17, 10)],
    [Cell(19, 9), Cell(18, 9), Cell(17, 9)],
    [Cell(19, 8), Cell(18, 8), Cell(17, 9)]]
  /** The right blocks as the layout intends them: the left blocks reflected. */
  const RightSupportCoresMirrored: seq<seq<Cell>> := [
    [Cell(20, 11), Cell(19, 11), Cell(18, 11), Cell(17, 11)],
    [Cell(19, 10), Cell(18, 10), Cell(17, 10)],
    [Cell(19, 9), Cell(18, 9), Cell(17, 9)],
    [Cell(19, 8), Cell(18, 8), Cell(17, 8)]]

  /** A spawn of one unit per listed cell (`attempt_spawn` with its default
      count). */
  function Place(k: UnitKind, cells: seq<Cell>): Request {
    Spawn(k, cells, 1)
  }

  /** Spawn then upgrade each support block in turn. */
  function SupportRequests(cores: seq<seq<Cell>>): (r: seq<Request>)
    ensures |r| == 2 * |cores|
    ensures forall q {:trigger q in r} :: q in r <==>
      exists i :: 0 <= i < |cores| && (q == Place(Support, cores[i]) || q == Upgrade(cores[i]))
    decreases |cores|
  {
    if cores == [] then []
    else
      var rest := SupportRequests(cores[1..]);
      assert forall i :: 1 <= i < |cores| ==> cores[i] == cores[1..][i - 1];
      [Place(Support, cores[0]), Upgrade(cores[0])] + rest
  }

  /** The fixed part of the build, issued whatever the scan found (the lane
      walls in the middle are repeated by the reactive part). */
  function BaseBuild(leftOpen: bool, rightOpen: bool): seq<Request> {
    [Place(Wall, WallBuildCore), Place(Turret, TurretBuildCore), Place(Turret, TurretBuildS1)]
    + (if rightOpen then [Place(Wall, InterceptorPathLeft)] else [])
    + (if leftOpen then [Place(Wall, InterceptorPathRight)] else [])
    + [Upgrade(WallUpgradeCore2), Upgrade(WallUpgradeCore1), Upgrade(TurretBuildCore),
       Upgrade(TurretBuildS1), Place(Wall, WallBuildCore2), Upgrade(WallBuildCore2)]
  }

  /** The reactive build of one lane: wall its interceptor path and, after
      turn 12, build its support blocks when the facing half is open;
      otherwise clear the path. */
  function LaneBuild(open: bool, path: seq<Cell>, cores: seq<seq<Cell>>, turn: nat): seq<Request> {
    if open then [Place(Wall, path)] + (if turn > 12 then SupportRequests(cores) else [])
    else [Remove(path)]
  }

  /** The late upgrade of the inner walls, after turn 20. */
  function LateUpgrade(turn: nat): seq<Request> {
    if turn > 20 then [Upgrade(WallUpgradeCore3)] else []
  }

  /** `cf_build_core` with the right support blocks as a parameter. */
  function BuildWith(rightCores: seq<seq<Cell>>, leftOpen: bool, rightOpen: bool, turn: nat): seq<Request> {
    BaseBuild(leftOpen, rightOpen)
    + LaneBuild(rightOpen, InterceptorPathLeft, LeftSupportCores, turn)
    + LaneBuild(leftOpen, InterceptorPathRight, rightCores, turn)
    + LateUpgrade(turn)
  }

  /** `cf_build_core`, with the right blocks of the layout table. The flags
      are named after the opponent's halves, as the gap scan reports them. */
  function BuildCore(leftOpen: bool, rightOpen: bool, turn: nat): (r: seq<Request>)
    ensures Place(Wall, InterceptorPathLeft) in r <==> rightOpen
    ensures Remove(InterceptorPathLeft) in r <==> !rightOpen
    ensures Place(Wall, InterceptorPathRight) in r <==> leftOpen
    ensures Remove(InterceptorPathRight) in r <==> !leftOpen
    ensures Upgrade(WallUpgradeCore3) in r <==> turn > 20
  {
    LeftLaneIsExclusive(leftOpen, rightOpen, turn);
    RightLaneIsExclusive(leftOpen, rightOpen, turn);
    LateUpgradeOnlyLate(leftOpen, rightOpen, turn);
    BuildWith(RightSupportCores, leftOpen, rightOpen, turn)
  }

  /** `cf_build_core` as the layout intends it, with the right blocks
      mirroring the left ones. */
  function BuildCoreMirrored(leftOpen: bool, rightOpen: bool, turn: nat): seq<Request> {
    BuildWith(RightSupportCoresMirrored, leftOpen, rightOpen, turn)
  }

  /** The pieces of a build, as a membership fact about one request. */
  lemma BuildPieces(rightCores: seq<seq<Cell>>, leftOpen: bool, rightOpen: bool, turn: nat, q: Request)
    ensures q in BuildWith(rightCores, leftOpen, rightOpen, turn) <==>
      q in BaseBuild(leftOpen, rightOpen) || q in LaneBuild(rightOpen, InterceptorPathLeft, LeftSupportCores, turn) ||
      q in LaneBuild(leftOpen, InterceptorPathRight, rightCores, turn) || q in LateUpgrade(turn)
  {
  }

  /** A lane build walls or clears its own path only: a wall on, or a
      removal of, any other cell list is not part of it. */
  lemma LaneWallsOwnPath(open: bool, path: seq<Cell>, cores: seq<seq<Cell>>, turn: nat, cells: seq<Cell>)
    ensures Place(Wall, cells) in LaneBuild(open, path, cores, turn) <==> open && cells == path
    ensures Remove(cells) in LaneBuild(open, path, cores, turn) <==> !open && cells == path
  {
    LaneMembers(open, path, cores, turn);
  }

  /** The left interceptor path is walled iff the opponent's right half is
      open, and cleared otherwise. */
  lemma LeftLaneIsExclusive(leftOpen: bool, rightOpen: bool, turn: nat)
    ensures Place(Wall, InterceptorPathLeft) in BuildWith(RightSupportCores, leftOpen, rightOpen, turn) <==> rightOpen
    ensures Remove(InterceptorPathLeft) in BuildWith(RightSupportCores, leftOpen, rightOpen, turn) <==> !rightOpen
  {
    BuildPieces(RightSupportCores, leftOpen, rightOpen, turn, Place(Wall, InterceptorPathLeft));
    BuildPieces(RightSupportCores, leftOpen, rightOpen, turn, Remove(InterceptorPathLeft));
    BaseMembers(leftOpen, rightOpen);
    assert InterceptorPathLeft[0] != InterceptorPathRight[0];
    LaneWallsOwnPath(rightOpen, InterceptorPathLeft, LeftSupportCores, turn, InterceptorPathLeft);
    LaneWallsOwnPath(leftOpen, InterceptorPathRight, RightSupportCores, turn, InterceptorPathLeft);
  }

  /** The right interceptor path is walled iff the opponent's left half is
      open, and cleared otherwise. */
  lemma RightLaneIsExclusive(leftOpen: bool, rightOpen: bool, turn: nat)
    ensures Place(Wall, InterceptorPathRight) in BuildWith(RightSupportCores, leftOpen, rightOpen, turn) <==> leftOpen
    ensures Remove(InterceptorPathRight) in BuildWith(RightSupportCores, leftOpen, rightOpen, turn) <==> !leftOpen
  {
    BuildPieces(RightSupportCores, leftOpen, rightOpen, turn, Place(Wall, InterceptorPathRight));
    BuildPieces(RightSupportCores, leftOpen, rightOpen, turn, Remove(InterceptorPathRight));
    BaseMembers(leftOpen, rightOpen);
    assert InterceptorPathLeft[0] != InterceptorPathRight[0];
    LaneWallsOwnPath(rightOpen, InterceptorPathLeft, LeftSupportCores, turn, InterceptorPathRight);
    LaneWallsOwnPath(leftOpen, InterceptorPathRight, RightSupportCores, turn, InterceptorPathRight);
  }

  /** The inner walls are upgraded only after turn 20. */
  lemma LateUpgradeOnlyLate(leftOpen: bool, rightOpen: bool, turn: nat)
    ensures Upgrade(WallUpgradeCore3) in BuildWith(RightSupportCores, leftOpen, rightOpen, turn) <==> turn > 20
  {
    BuildPieces(RightSupportCores, leftOpen, rightOpen, turn, Upgrade(WallUpgradeCore3));
    BaseMembers(leftOpen, rightOpen);
    LaneMembers(rightOpen, InterceptorPathLeft, LeftSupportCores, turn);
    LaneMembers(leftOpen, InterceptorPathRight, RightSupportCores, turn);
    PathsAreNotBlocks();
  }

  /** What the fixed part contains: the lane walls exactly for the open
      halves, no removal and no late upgrade. */
  lemma BaseMembers(leftOpen: bool, rightOpen: bool)
    ensures Place(Wall, InterceptorPathLeft) in BaseBuild(leftOpen, rightOpen) <==> rightOpen
    ensures Place(Wall, InterceptorPathRight) in BaseBuild(leftOpen, rightOpen) <==> leftOpen
    ensures forall q {:trigger q in BaseBuild(leftOpen, rightOpen)} :: q in BaseBuild(leftOpen, rightOpen) ==> !q.Remove? && q != Upgrade(WallUpgradeCore3)
  {
    var fixed1 := [Place(Wall, WallBuildCore), Place(Turret, TurretBuildCore), Place(Turret, TurretBuildS1)];
    var fixed2 := [Upgrade(WallUpgradeCore2), Upgrade(WallUpgradeCore1), Upgrade(TurretBuildCore),
       Upgrade(TurretBuildS1), Place(Wall, WallBuildCore2), Upgrade(WallBuildCore2)];
    assert WallBuildCore[0] != InterceptorPathLeft[0] && WallBuildCore[0] != InterceptorPathRight[0];
    assert WallBuildCore2[0] != InterceptorPathLeft[0] && WallBuildCore2[0] != InterceptorPathRight[0];
    assert InterceptorPathLeft[0] != InterceptorPathRight[0];
    assert WallUpgradeCore3 != WallUpgradeCore2 && WallUpgradeCore3 != WallUpgradeCore1 && WallUpgradeCore3 != TurretBuildCore;
    assert WallUpgradeCore3 != TurretBuildS1 && WallUpgradeCore3 != WallBuildCore2;
    assert Place(Wall, InterceptorPathLeft) !in fixed1 + fixed2;
    assert Place(Wall, InterceptorPathRight) !in fixed1 + fixed2;
  }

  /** What a lane build contains: its path wall or its removal, and support
      spawns and upgrades of its blocks exactly when the half is open and
      the turn is past 12. */
  lemma LaneMembers(open: bool, path: seq<Cell>, cores: seq<seq<Cell>>, turn: nat)
    ensures forall q {:trigger q in LaneBuild(open, path, cores, turn)} :: q in LaneBuild(open, path, cores, turn) <==>
      (open && q == Place(Wall, path)) || (!open && q == Remove(path)) ||
      (open && turn > 12 && exists i :: 0 <= i < |cores| && (q == Place(Support, cores[i]) || q == Upgrade(cores[i])))
  {
  }

  /** No support block is an interceptor path or the late upgrade list. */
  lemma PathsAreNotBlocks()
    ensures forall i :: 0 <= i < |LeftSupportCores| ==>
      LeftSupportCores[i] != InterceptorPathLeft && LeftSupportCores[i] != InterceptorPathRight && LeftSupportCores[i] != WallUpgradeCore3
    ensures forall i :: 0 <= i < |RightSupportCores| ==>
      RightSupportCores[i] != InterceptorPathLeft && RightSupportCores[i] != InterceptorPathRight && RightSupportCores[i] != WallUpgradeCore3
  {
    forall i | 0 <= i < |LeftSupportCores|
      ensures LeftSupportCores[i] != InterceptorPathLeft && LeftSupportCores[i] != InterceptorPathRight && LeftSupportCores[i] != WallUpgradeCore3
    {
      assert LeftSupportCores[i][0].x in {7, 8};
    }
    forall i | 0 <= i < |RightSupportCores|
      ensures RightSupportCores[i] != InterceptorPathLeft && RightSupportCores[i] != InterceptorPathRight && RightSupportCores[i] != WallUpgradeCore3
    {
      assert RightSupportCores[i][0].x in {19, 20};
    }
  }

  /** The number of support spawns a list of blocks issues: one per block. */
  lemma {:induction false} SupportSpawnCount(cores: seq<seq<Cell>>)
    ensures CountSpawns(SupportRequests(cores), Support) == |cores|
    decreases |cores|
  {
    if cores != [] {
      SupportSpawnCount(cores[1..]);
      var head := [Place(Support, cores[0]), Upgrade(cores[0])];
      CountSpawnsConcat(head, SupportRequests(cores[1..]), Support);
      assert head[1..] == [Upgrade(cores[0])];
    }
  }

  /** A lane issues one support spawn per block when its half is open after
      turn 12, and none otherwise. */
  lemma LaneSupportCount(open: bool, path: seq<Cell>, cores: seq<seq<Cell>>, turn: nat)
    ensures CountSpawns(LaneBuild(open, path, cores, turn), Support) == if open && turn > 12 then |cores| else 0
  {
    if open && turn > 12 {
      SupportSpawnCount(cores);
      CountSpawnsConcat([Place(Wall, path)], SupportRequests(cores), Support);
    }
  }

  function Ones(b: bool): nat {
    if b then 1 else 0
  }

  /** Supports are built only after turn 12, four blocks per open half. */
  lemma SupportsAfterTwelve(leftOpen: bool, rightOpen: bool, turn: nat)
    ensures CountSpawns(BuildCore(leftOpen, rightOpen, turn), Support) ==
      if turn > 12 then 4 * (Ones(leftOpen) + Ones(rightOpen)) else 0
  {
    BuildSupportCount(RightSupportCores, leftOpen, rightOpen, turn);
  }

  lemma BuildSupportCount(rightCores: seq<seq<Cell>>, leftOpen: bool, rightOpen: bool, turn: nat)
    ensures CountSpawns(BuildWith(rightCores, leftOpen, rightOpen, turn), Support) ==
      if turn > 12 then 4 * Ones(rightOpen) + (if leftOpen then |rightCores| else 0) else 0
  {
    var base := BaseBuild(leftOpen, rightOpen);
    var left := LaneBuild(rightOpen, InterceptorPathLeft, LeftSupportCores, turn);
    var right := LaneBuild(leftOpen, InterceptorPathRight, rightCores, turn);
    var late := LateUpgrade(turn);
    BaseHasNoSupports(leftOpen, rightOpen);
    assert forall i :: 0 <= i < |late| ==> !SpawnsKind(late[i], Support);
    CountSpawnsZero(late, Support);
    LaneSupportCount(rightOpen, InterceptorPathLeft, LeftSupportCores, turn);
    LaneSupportCount(leftOpen, InterceptorPathRight, rightCores, turn);
    CountSpawnsOfFour(base, left, right, late, Support);
  }

  lemma CountSpawnsOfFour(a: seq<Request>, b: seq<Request>, c: seq<Request>, d: seq<Request>, k: UnitKind)
    ensures CountSpawns(a + b + c + d, k) == CountSpawns(a, k) + CountSpawns(b, k) + CountSpawns(c, k) + CountSpawns(d, k)
  {
    CountSpawnsConcat(a, b, k);
    CountSpawnsConcat(a + b, c, k);
    CountSpawnsConcat(a + b + c, d, k);
  }

  lemma BaseHasNoSupports(leftOpen: bool, rightOpen: bool)
    ensures CountSpawns(BaseBuild(leftOpen, rightOpen), Support) == 0
  {
    var base := BaseBuild(leftOpen, rightOpen);
    forall i | 0 <= i < |base|
      ensures !SpawnsKind(base[i], Support)
    {
      assert base[i].Spawn? ==> base[i].kind in {Wall, Turret};
    }
    CountSpawnsZero(base, Support);
  }

  /** A later turn only adds requests: the build of turn t is a subsequence
      of the build of any later turn with the same gap state. */
  lemma BuildCoreGrowsWithTurn(leftOpen: bool, rightOpen: bool, t1: nat, t2: nat)
    requires t1 <= t2
    ensures IsSubsequence(BuildCore(leftOpen, rightOpen, t1), BuildCore(leftOpen, rightOpen, t2))
  {
    var base := BaseBuild(leftOpen, rightOpen);
    SubsequenceRefl(base);
    LaneGrows(rightOpen, InterceptorPathLeft, LeftSupportCores, t1, t2);
    LaneGrows(leftOpen, InterceptorPathRight, RightSupportCores, t1, t2);
    if t1 > 20 {
      SubsequenceRefl(LateUpgrade(t1));
    } else {
      EmptySubsequence(LateUpgrade(t2));
    }
    SubsequenceConcat(base, base,
      LaneBuild(rightOpen, InterceptorPathLeft, LeftSupportCores, t1),
      LaneBuild(rightOpen, InterceptorPathLeft, LeftSupportCores, t2));
    SubsequenceConcat(base + LaneBuild(rightOpen, InterceptorPathLeft, LeftSupportCores, t1),
      base + LaneBuild(rightOpen, InterceptorPathLeft, LeftSupportCores, t2),
      LaneBuild(leftOpen, InterceptorPathRight, RightSupportCores, t1),
      LaneBuild(leftOpen, InterceptorPathRight, RightSupportCores, t2));
    SubsequenceConcat(base + LaneBuild(rightOpen, InterceptorPathLeft, LeftSupportCores, t1)
        + LaneBuild(leftOpen, InterceptorPathRight, RightSupportCores, t1),
      base + LaneBuild(rightOpen, InterceptorPathLeft, LeftSupportCores, t2)
        + LaneBuild(leftOpen, InterceptorPathRight, RightSupportCores, t2),
      LateUpgrade(t1), LateUpgrade(t2));
  }

  lemma LaneGrows(open: bool, path: seq<Cell>, cores: seq<seq<Cell>>, t1: nat, t2: nat)
    requires t1 <= t2
    ensures IsSubsequence(LaneBuild(open, path, cores, t1), LaneBuild(open, path, cores, t2))
  {
    var a := LaneBuild(open, path, cores, t1);
    var b := LaneBuild(open, path, cores, t2);
    if open && t1 <= 12 < t2 {
      EmptySubsequence(SupportRequests(cores));
      SubsequenceConcat([Place(Wall, path)], [Place(Wall, path)], [], SupportRequests(cores));
      assert a == [Place(Wall, path)] + [];
    } else {
      SubsequenceRefl(a);
    }
  }

  /** Every cell of the fixed layout lies in our own half. */
  lemma LayoutInOwnHalf()
    ensures CellsInOwnHalf(WallBuildCore) && CellsInOwnHalf(TurretBuildCore) && CellsInOwnHalf(TurretBuildS1)
    ensures CellsInOwnHalf(WallUpgradeCore1) && CellsInOwnHalf(WallUpgradeCore2) && CellsInOwnHalf(WallUpgradeCore3)
    ensures CellsInOwnHalf(WallBuildCore2) && CellsInOwnHalf(InterceptorPathLeft) && CellsInOwnHalf(InterceptorPathRight)
    ensures forall i :: 0 <= i < |LeftSupportCores| ==> CellsInOwnHalf(LeftSupportCores[i])
    ensures forall i :: 0 <= i < |RightSupportCores| ==> CellsInOwnHalf(RightSupportCores[i])
    ensures forall i :: 0 <= i < |RightSupportCoresMirrored| ==> CellsInOwnHalf(RightSupportCoresMirrored[i])
  {
  }

  /** Every request of the fixed part names cells of our own half only. */
  lemma BaseInOwnHalf(leftOpen: bool, rightOpen: bool)
    ensures forall q {:trigger q in BaseBuild(leftOpen, rightOpen)} :: q in BaseBuild(leftOpen, rightOpen) ==> InOwnHalf(q)
  {
    LayoutInOwnHalf();
    var base := BaseBuild(leftOpen, rightOpen);
    assert forall j :: 0 <= j < |base| ==> InOwnHalf(base[j]);
  }

  /** A lane built from own-half parts names cells of our own half only. */
  lemma LaneInOwnHalf(open: bool, path: seq<Cell>, cores: seq<seq<Cell>>, turn: nat)
    requires CellsInOwnHalf(path)
    requires forall i :: 0 <= i < |cores| ==> CellsInOwnHalf(cores[i])
    ensures forall q {:trigger q in LaneBuild(open, path, cores, turn)} :: q in LaneBuild(open, path, cores, turn) ==> InOwnHalf(q)
  {
    LaneMembers(open, path, cores, turn);
  }

  /** Every request of the build names cells of our own half only. */
  lemma BuildInOwnHalf(leftOpen: bool, rightOpen: bool, turn: nat)
    ensures forall q {:trigger q in BuildCore(leftOpen, rightOpen, turn)} :: q in BuildCore(leftOpen, rightOpen, turn) ==> InOwnHalf(q)
  {
    LayoutInOwnHalf();
    forall q | q in BuildCore(leftOpen, rightOpen, turn)
      ensures q in BaseBuild(leftOpen, rightOpen) || q in LaneBuild(rightOpen, InterceptorPathLeft, LeftSupportCores, turn) ||
        q in LaneBuild(leftOpen, InterceptorPathRight, RightSupportCores, turn) || q in LateUpgrade(turn)
    {
      BuildPieces(RightSupportCores, leftOpen, rightOpen, turn, q);
    }
    BaseInOwnHalf(leftOpen, rightOpen);
    LaneInOwnHalf(rightOpen, InterceptorPathLeft, LeftSupportCores, turn);
    LaneInOwnHalf(leftOpen, InterceptorPathRight, RightSupportCores, turn);
  }

  /** Each block of a list reflected in the board's axis. */
  function MirrorBlocks(cores: seq<seq<Cell>>): (r: seq<seq<Cell>>)
    ensures |r| == |cores|
    ensures forall i :: 0 <= i < |cores| ==> r[i] == MirrorCells(cores[i])
  {
    seq(|cores|, i requires 0 <= i < |cores| => MirrorCells(cores[i]))
  }

  /** Building reflected blocks issues the reflected requests. */
  lemma {:induction false} SupportRequestsMirror(cores: seq<seq<Cell>>)
    ensures SupportRequests(MirrorBlocks(cores)) == MirrorLog(SupportRequests(cores))
    decreases |cores|
  {
    if cores != [] {
      SupportRequestsMirror(cores[1..]);
      assert MirrorBlocks(cores)[1..] == MirrorBlocks(cores[1..]);
      var tail := SupportRequests(cores[1..]);
      assert SupportRequests(cores) == [Place(Support, cores[0]), Upgrade(cores[0])] + tail;
      assert MirrorLog([Place(Support, cores[0]), Upgrade(cores[0])] + tail)
          == [Place(Support, MirrorCells(cores[0])), Upgrade(MirrorCells(cores[0]))] + MirrorLog(tail);
    }
  }

  /** A lane built from reflected parts is the reflected lane. */
  lemma LaneBuildMirror(open: bool, path: seq<Cell>, cores: seq<seq<Cell>>, turn: nat)
    ensures LaneBuild(open, MirrorCells(path), MirrorBlocks(cores), turn) == MirrorLog(LaneBuild(open, path, cores, turn))
  {
    if open {
      SupportRequestsMirror(cores);
      if turn > 12 {
        assert MirrorLog([Place(Wall, path)] + SupportRequests(cores))
            == [Place(Wall, MirrorCells(path))] + MirrorLog(SupportRequests(cores));
      }
    }
  }

  /** The right path and the intended right blocks are the left ones
      reflected. */
  lemma RightSupportsMirrorLeft()
    ensures InterceptorPathRight == MirrorCells(InterceptorPathLeft)
    ensures RightSupportCoresMirrored == MirrorBlocks(LeftSupportCores)
  {
    assert RightSupportCoresMirrored[0] == MirrorCells(LeftSupportCores[0]);
    assert RightSupportCoresMirrored[1] == MirrorCells(LeftSupportCores[1]);
    assert RightSupportCoresMirrored[2] == MirrorCells(LeftSupportCores[2]);
    assert RightSupportCoresMirrored[3] == MirrorCells(LeftSupportCores[3]);
  }

  /** With the intended blocks, the two lanes of the reactive build are
      mirror images: whatever the
      left lane issues for an open half on a turn, the right lane issues
      reflected for the other half on the same turn. */
  lemma LanesMirror(open: bool, turn: nat)
    ensures LaneBuild(open, InterceptorPathRight, RightSupportCoresMirrored, turn)
         == MirrorLog(LaneBuild(open, InterceptorPathLeft, LeftSupportCores, turn))
  {
    RightSupportsMirrorLeft();
    LaneBuildMirror(open, InterceptorPathLeft, LeftSupportCores, turn);
  }

  /** A list of cells that contains the reflection of each of its cells. */
  predicate Symmetric(cells: seq<Cell>) {
    forall i :: 0 <= i < |cells| ==> MirrorCell(cells[i]) in cells
  }

  /** The fixed part of the layout is symmetric in the board's axis, list by
      list. */
  lemma FixedLayoutIsSymmetric()
    ensures Symmetric(WallBuildCore) && Symmetric(TurretBuildCore) && Symmetric(TurretBuildS1)
    ensures Symmetric(WallUpgradeCore1) && Symmetric(WallUpgradeCore2) && Symmetric(WallUpgradeCore3)
    ensures Symmetric(WallBuildCore2)
  {
  }

  /** The blocks as written are not the reflected left blocks: the last one
      repeats (17, 9) from the third block and never names (17, 8), the
      reflection of (10, 8). */
  lemma SupportRightCore4BreaksMirror()
    ensures RightSupportCores != MirrorBlocks(LeftSupportCores)
    ensures Cell(17, 9) in RightSupportCores[2] && Cell(17, 9) in RightSupportCores[3]
    ensures MirrorCell(Cell(10, 8)) == Cell(17, 8) && Cell(10, 8) in LeftSupportCores[3]
    ensures forall i :: 0 <= i < |RightSupportCores| ==> Cell(17, 8) !in RightSupportCores[i]
  {
    assert MirrorBlocks(LeftSupportCores)[3][2] == Cell(17, 8);
    assert RightSupportCores[3][2] == Cell(17, 9);
  }

  /** As written, the right lane after turn 12 is not the reflection of the
      left lane. */
  lemma AsWrittenLanesDiffer()
    ensures LaneBuild(true, InterceptorPathRight, RightSupportCores, 13)
         != MirrorLog(LaneBuild(true, InterceptorPathLeft, LeftSupportCores, 13))
  {
    LanesMirror(true, 13);
    var intended := LaneBuild(true, InterceptorPathRight, RightSupportCoresMirrored, 13);
    var written := LaneBuild(true, InterceptorPathRight, RightSupportCores, 13);
    assert intended[7] == Place(Support, RightSupportCoresMirrored[3]);
    assert written[7] == Place(Support, RightSupportCores[3]);
    assert RightSupportCoresMirrored[3][2] != RightSupportCores[3][2];
  }

  /** The intended build issues, on our right, the reflection of what it
      issues on our left for the same half's openness. */
  lemma MirroredBuildReflectsLeftLane(leftOpen: bool, rightOpen: bool, turn: nat)
    ensures BuildCoreMirrored(leftOpen, rightOpen, turn) ==
      BaseBuild(leftOpen, rightOpen)
      + LaneBuild(rightOpen, InterceptorPathLeft, LeftSupportCores, turn)
      + MirrorLog(LaneBuild(leftOpen, InterceptorPathLeft, LeftSupportCores, turn))
      + LateUpgrade(turn)
  {
    LanesMirror(leftOpen, turn);
  }

  /** With both halves open on turn 13 the program's build differs from the
      intended one: its last right support spawn names (17, 9) twice over. */
  lemma AsWrittenBuildDiffers()
    ensures BuildCore(true, true, 13) != BuildCoreMirrored(true, true, 13)
  {
    var prefix := BaseBuild(true, true) + LaneBuild(true, InterceptorPathLeft, LeftSupportCores, 13);
    assert |prefix| == 20;
    var written := LaneBuild(true, InterceptorPathRight, RightSupportCores, 13);
    var intended := LaneBuild(true, InterceptorPathRight, RightSupportCoresMirrored, 13);
    assert written[7] == Place(Support, RightSupportCores[3]);
    assert intended[7] == Place(Support, RightSupportCoresMirrored[3]);
    assert BuildCore(true, true, 13)[27] == written[7];
    assert BuildCoreMirrored(true, true, 13)[27] == intended[7];
    assert RightSupportCoresMirrored[3][2] != RightSupportCores[3][2];
  }
}
