/** `cf_deploy_core` and `cf_deploy_destructive_interceptors`: the mobile
    units of a turn. The first five turns open with two demolishers; after
    that nothing is sent against a fully closed defence, interceptors are
    sent down the lanes facing the open halves (more of them as the game
    goes on), and on a turn cadence a burst of demolishers and scouts
    follows. */
module Deployment {
  import opened GameMap
  import opened Requests

  const InterceptorAttackRight: seq<Cell> := [Cell(21, 7), Cell(20, 6), Cell(19, 5)]
  const InterceptorAttackLeft: seq<Cell> := [Cell(6, 7), Cell(7, 6), Cell(8, 5)]

  const SpawnRightFast: seq<Cell> := [Cell(24, 10)]
  const SpawnRightSlow: seq<Cell> := [Cell(23, 9)]
  const SpawnLeftFast: seq<Cell> := [Cell(3, 10)]
  const SpawnLeftSlow: seq<Cell> := [Cell(4, 9)]

  /** Scouts asked for by a burst: far more than can be afforded, so the
      engine spends all remaining mobile points. */
  const ScoutFlood: nat := 1000

  /** A Python slice bound: negative bounds count from the end, and bounds
      are clamped to the list. */
  function SliceBound(i: int, n: nat): (r: nat)
    ensures r <= n
    ensures 0 <= i <= n ==> r == i
    ensures i > n ==> r == n
    ensures i < 0 ==> r == (if i + n < 0 then 0 else i + n)
  {
    if i < 0 then (if i + n < 0 then 0 else i + n)
    else if i > n then n
    else i
  }

  /** `s[lo:hi]` with Python's slice semantics. */
  function PySlice<T>(s: seq<T>, lo: int, hi: int): (r: seq<T>)
    ensures 0 <= lo <= hi <= |s| ==> r == s[lo..hi]
    ensures |r| <= |s|
    ensures forall i :: 0 <= i < |r| ==> r[i] in s
  {
    var a := SliceBound(lo, |s|);
    var b := SliceBound(hi, |s|);
    if a <= b then s[a..b] else []
  }

  /** `cf_deploy_destructive_interceptors(side, pos)`: one interceptor at
      position `pos` (1 close, 2 mid, 3 far) of the left lane for side 0 and
      of the right lane for any other side. */
  function InterceptorAt(side: int, pos: int): (q: Request)
    ensures q.Spawn? && q.kind == Interceptor && q.count == 1
    ensures 1 <= pos <= 3 ==> q.cells == [(if side != 0 then InterceptorAttackRight else InterceptorAttackLeft)[pos - 1]]
  {
    var lane := if side != 0 then InterceptorAttackRight else InterceptorAttackLeft;
    Spawn(Interceptor, PySlice(lane, pos - 1, pos), 1)
  }

  /** The position used by escalation round `i`: far, close, mid, far, ... */
  function RotatingPos(i: nat): (p: int)
    ensures 1 <= p <= 3
  {
    (i + 2) % 3 + 1
  }

  /** How an escalation round sends one interceptor: by side and position. */
  type Fire = (int, int) -> Request

  /** One escalation round: an interceptor for each side, in order. */
  function Round(fire: Fire, sides: seq<int>, i: nat): (r: seq<Request>)
    ensures |r| == |sides|
    ensures forall j :: 0 <= j < |sides| ==> r[j] == fire(sides[j], RotatingPos(i))
  {
    seq(|sides|, j requires 0 <= j < |sides| => fire(sides[j], RotatingPos(i)))
  }

  /** Escalation rounds 0 .. n-1, in order. */
  function Rounds(fire: Fire, sides: seq<int>, n: nat): seq<Request>
    decreases n
  {
    if n == 0 then [] else Rounds(fire, sides, n - 1) + Round(fire, sides, n - 1)
  }

  function Min(a: int, b: int): int {
    if a <= b then a else b
  }

  /** The burst fires on turns with `turn % (turn / 20 + 5) == 1`. */
  predicate BurstTurn(turn: nat) {
    turn % (turn / 20 + 5) == 1
  }

  /** The number of demolishers in a burst: two, one more every twenty turns,
      at most four. */
  function BurstDemolishers(turn: nat): (n: nat)
    ensures 2 <= n <= 4
  {
    Min(4, turn / 20 + 2)
  }

  /** On a burst turn, demolishers from the slow spawn point and a flood of
      scouts from the fast one. */
  function Burst(turn: nat, slow: seq<Cell>, fast: seq<Cell>): seq<Request> {
    if BurstTurn(turn) then [Spawn(Demolisher, slow, BurstDemolishers(turn)), Spawn(Scout, fast, ScoutFlood)]
    else []
  }

  /** Escalation of a lane (or of both) after turn 10. */
  function Escalation(sides: seq<int>, turn: nat, cap: nat, per: nat): seq<Request>
    requires per > 0
  {
    if turn > 10 then Rounds(InterceptorAt, sides, Min(cap, turn / per)) else []
  }

  /** One attacking branch of the deployment: the opening interceptors, the
      escalation rounds and the burst. */
  function Attack(turn: nat, head: seq<Request>, sides: seq<int>, cap: nat, per: nat, slow: seq<Cell>, fast: seq<Cell>): seq<Request>
    requires per > 0
  {
    head + Escalation(sides, turn, cap, per) + Burst(turn, slow, fast)
  }

  /** `cf_deploy_core`. The flags are named after the opponent's halves, as
      the gap scan reports them: an open right half is attacked down our
      left lane (side 0), an open left half down our right lane (side 1). */
  function DeployCore(turn: nat, leftOpen: bool, rightOpen: bool): (r: seq<Request>)
    ensures turn <= 5 ==> r == [Spawn(Demolisher, SpawnLeftSlow, 2)]
    ensures turn > 5 && !leftOpen && !rightOpen ==> r == []
  {
    if turn <= 5 then [Spawn(Demolisher, SpawnLeftSlow, 2)]
    else if !leftOpen && !rightOpen then []
    else if leftOpen && rightOpen then
      Attack(turn, [Spawn(Interceptor, PySlice(InterceptorAttackLeft, 1, 2), 1), Spawn(Interceptor, PySlice(InterceptorAttackRight, 1, 2), 1)],
        [0, 1], 2, 15, SpawnLeftSlow, SpawnLeftFast)
    else if rightOpen then
      Attack(turn, [InterceptorAt(0, 2)], [0], 4, 12, SpawnLeftSlow, SpawnLeftFast)
    else
      Attack(turn, [InterceptorAt(1, 2)], [1], 4, 12, SpawnRightSlow, SpawnRightFast)
  }

  /** The two lanes are mirror images of each other, spawn points included. */
  lemma LanesMirror()
    ensures InterceptorAttackRight == MirrorCells(InterceptorAttackLeft)
    ensures SpawnRightFast == MirrorCells(SpawnLeftFast) && SpawnRightSlow == MirrorCells(SpawnLeftSlow)
  {
  }

  /** Both-open interceptors are the lanes' mid positions. */
  lemma BothOpenUsesMid()
    ensures Spawn(Interceptor, PySlice(InterceptorAttackLeft, 1, 2), 1) == InterceptorAt(0, 2)
    ensures Spawn(Interceptor, PySlice(InterceptorAttackRight, 1, 2), 1) == InterceptorAt(1, 2)
  {
  }

  /** Any three consecutive escalation rounds use all three positions. */
  lemma RotationCoversLane(i: nat)
    ensures {RotatingPos(i), RotatingPos(i + 1), RotatingPos(i + 2)} == {1, 2, 3}
  {
    assert RotatingPos(i + 1) == RotatingPos(i) % 3 + 1;
    assert RotatingPos(i + 2) == RotatingPos(i + 1) % 3 + 1;
  }

  /** Escalation rounds 0 .. n-1 issue exactly the interceptors of each
      side at each round's position. */
  lemma {:induction false} RoundsMembers(fire: Fire, sides: seq<int>, n: nat, q: Request)
    ensures q in Rounds(fire, sides, n) <==>
      exists i, j :: 0 <= i < n && 0 <= j < |sides| && q == fire(sides[j], RotatingPos(i))
    decreases n
  {
    if n > 0 {
      RoundsMembers(fire, sides, n - 1, q);
      var r := Round(fire, sides, n - 1);
      if q in r {
        var j :| 0 <= j < |r| && r[j] == q;
        assert q == fire(sides[j], RotatingPos(n - 1));
      }
    }
  }

  lemma {:induction false} RoundCount(fire: Fire, sides: seq<int>, i: nat, k: UnitKind)
    requires forall side, pos :: SpawnsKind(fire(side, pos), k)
    ensures CountSpawns(Round(fire, sides, i), k) == |sides|
    decreases |sides|
  {
    if sides != [] {
      RoundCount(fire, sides[1..], i, k);
      assert Round(fire, sides, i) == [fire(sides[0], RotatingPos(i))] + Round(fire, sides[1..], i);
      CountSpawnsConcat([fire(sides[0], RotatingPos(i))], Round(fire, sides[1..], i), k);
    }
  }

  /** n rounds issue n interceptors per side. */
  lemma {:induction false} RoundsCount(fire: Fire, sides: seq<int>, n: nat, k: UnitKind)
    requires forall side, pos :: SpawnsKind(fire(side, pos), k)
    ensures CountSpawns(Rounds(fire, sides, n), k) == n * |sides|
    decreases n
  {
    if n > 0 {
      RoundsCount(fire, sides, n - 1, k);
      RoundCount(fire, sides, n - 1, k);
      CountSpawnsConcat(Rounds(fire, sides, n - 1), Round(fire, sides, n - 1), k);
      MulStep(n, |sides|);
    }
  }

  lemma MulStep(n: nat, m: nat)
    requires n > 0
    ensures n * m == (n - 1) * m + m
  {
  }

  /** The interceptors of a turn: none in the opening or against a closed
      defence; two per turn with both halves open plus two per escalation
      round (at most two rounds, one per 15 turns); one with a single half
      open plus one per escalation round (at most four, one per 12 turns). */
  lemma InterceptorCount(turn: nat, leftOpen: bool, rightOpen: bool)
    ensures CountSpawns(DeployCore(turn, leftOpen, rightOpen), Interceptor) ==
      if turn <= 5 || (!leftOpen && !rightOpen) then 0
      else if leftOpen && rightOpen then 2 + 2 * (if turn > 10 then Min(2, turn / 15) else 0)
      else 1 + (if turn > 10 then Min(4, turn / 12) else 0)
  {
    if turn > 5 && leftOpen && rightOpen {
      AttackInterceptors(turn, [Spawn(Interceptor, PySlice(InterceptorAttackLeft, 1, 2), 1), Spawn(Interceptor, PySlice(InterceptorAttackRight, 1, 2), 1)],
        [0, 1], 2, 15, SpawnLeftSlow, SpawnLeftFast);
    } else if turn > 5 && rightOpen {
      AttackInterceptors(turn, [InterceptorAt(0, 2)], [0], 4, 12, SpawnLeftSlow, SpawnLeftFast);
    } else if turn > 5 && leftOpen {
      AttackInterceptors(turn, [InterceptorAt(1, 2)], [1], 4, 12, SpawnRightSlow, SpawnRightFast);
    }
  }

  /** The interceptors of one attacking branch: the opening ones plus one per
      side and escalation round. */
  lemma AttackInterceptors(turn: nat, head: seq<Request>, sides: seq<int>, cap: nat, per: nat, slow: seq<Cell>, fast: seq<Cell>)
    requires per > 0
    requires forall i :: 0 <= i < |head| ==> SpawnsKind(head[i], Interceptor)
    ensures CountSpawns(Attack(turn, head, sides, cap, per, slow, fast), Interceptor) ==
      |head| + (if turn > 10 then Min(cap, turn / per) * |sides| else 0)
  {
    var esc := Escalation(sides, turn, cap, per);
    var burst := Burst(turn, slow, fast);
    if turn > 10 {
      RoundsCount(InterceptorAt, sides, Min(cap, turn / per), Interceptor);
    }
    AllOfKind(head, Interceptor);
    assert forall i :: 0 <= i < |burst| ==> !SpawnsKind(burst[i], Interceptor);
    CountSpawnsZero(burst, Interceptor);
    CountSpawnsConcat(head, esc, Interceptor);
    CountSpawnsConcat(head + esc, burst, Interceptor);
  }

  /** Every interceptor of an attacking branch is an opening one or is sent
      by an escalation round for one of the branch's sides. */
  lemma AttackInterceptorMembers(turn: nat, head: seq<Request>, sides: seq<int>, cap: nat, per: nat,
                                 slow: seq<Cell>, fast: seq<Cell>, q: Request)
    requires per > 0
    requires q in Attack(turn, head, sides, cap, per, slow, fast) && SpawnsKind(q, Interceptor)
    ensures q in head || exists j, p :: 0 <= j < |sides| && 1 <= p <= 3 && q == InterceptorAt(sides[j], p)
  {
    var esc := Escalation(sides, turn, cap, per);
    var burst := Burst(turn, slow, fast);
    assert q in head || q in esc || q in burst;
    if q in esc {
      var n := Min(cap, turn / per);
      assert turn > 10 && esc == Rounds(InterceptorAt, sides, n);
      RoundsMembers(InterceptorAt, sides, n, q);
      var i, j :| 0 <= i < n && 0 <= j < |sides| && q == InterceptorAt(sides[j], RotatingPos(i));
      var p := RotatingPos(i);
      assert 0 <= j < |sides| && 1 <= p <= 3 && q == InterceptorAt(sides[j], p);
    }
  }


  /** Interceptors go only down the lanes facing the open halves: our left
      lane for the opponent's right half, our right lane for its left half,
      one unit at one of the lane's three positions. */
  lemma InterceptorsFaceOpenHalves(turn: nat, leftOpen: bool, rightOpen: bool, q: Request)
    requires q in DeployCore(turn, leftOpen, rightOpen) && SpawnsKind(q, Interceptor)
    ensures turn > 5
    ensures (rightOpen && exists c :: c in InterceptorAttackLeft && q.cells == [c])
         || (leftOpen && exists c :: c in InterceptorAttackRight && q.cells == [c])
  {
    if leftOpen && rightOpen {
      BothOpenInterceptor(turn, q);
    } else if rightOpen {
      AttackInterceptorMembers(turn, [InterceptorAt(0, 2)], [0], 4, 12, SpawnLeftSlow, SpawnLeftFast, q);
      var p :| 1 <= p <= 3 && q == InterceptorAt(0, p);
      FiredFromLane(0, p);
    } else {
      AttackInterceptorMembers(turn, [InterceptorAt(1, 2)], [1], 4, 12, SpawnRightSlow, SpawnRightFast, q);
      var p :| 1 <= p <= 3 && q == InterceptorAt(1, p);
      FiredFromLane(1, p);
    }
  }

  lemma BothOpenInterceptor(turn: nat, q: Request)
    requires q in DeployCore(turn, true, true) && SpawnsKind(q, Interceptor)
    ensures turn > 5
    ensures (exists c :: c in InterceptorAttackLeft && q.cells == [c]) || (exists c :: c in InterceptorAttackRight && q.cells == [c])
  {
    var heads := [Spawn(Interceptor, PySlice(InterceptorAttackLeft, 1, 2), 1), Spawn(Interceptor, PySlice(InterceptorAttackRight, 1, 2), 1)];
    AttackInterceptorMembers(turn, heads, [0, 1], 2, 15, SpawnLeftSlow, SpawnLeftFast, q);
    if q in heads {
      BothOpenUsesMid();
      FiredFromLane(0, 2);
      FiredFromLane(1, 2);
    } else {
      var j, p :| 0 <= j < 2 && 1 <= p <= 3 && q == InterceptorAt([0, 1][j], p);
      FiredFromLane([0, 1][j], p);
    }
  }

  /** An interceptor sent from a side stands on that side's lane. */
  lemma FiredFromLane(side: int, p: int)
    requires 1 <= p <= 3
    ensures side == 0 ==> exists c :: c in InterceptorAttackLeft && InterceptorAt(side, p).cells == [c]
    ensures side != 0 ==> exists c :: c in InterceptorAttackRight && InterceptorAt(side, p).cells == [c]
  {
    var lane := if side != 0 then InterceptorAttackRight else InterceptorAttackLeft;
    assert lane[p - 1] in lane;
  }

  /** Scouts and burst demolishers come exactly on the cadence turns of an
      attacking turn; the opening sends two demolishers and no scout. */
  lemma BurstOnCadence(turn: nat, leftOpen: bool, rightOpen: bool)
    ensures CountSpawns(DeployCore(turn, leftOpen, rightOpen), Scout) ==
      if turn > 5 && (leftOpen || rightOpen) && BurstTurn(turn) then 1 else 0
    ensures CountSpawns(DeployCore(turn, leftOpen, rightOpen), Demolisher) ==
      if turn <= 5 || ((leftOpen || rightOpen) && BurstTurn(turn)) then 1 else 0
  {
    if turn > 5 && leftOpen && rightOpen {
      AttackBurst(turn, [Spawn(Interceptor, PySlice(InterceptorAttackLeft, 1, 2), 1), Spawn(Interceptor, PySlice(InterceptorAttackRight, 1, 2), 1)],
        [0, 1], 2, 15, SpawnLeftSlow, SpawnLeftFast);
    } else if turn > 5 && rightOpen {
      AttackBurst(turn, [InterceptorAt(0, 2)], [0], 4, 12, SpawnLeftSlow, SpawnLeftFast);
    } else if turn > 5 && leftOpen {
      AttackBurst(turn, [InterceptorAt(1, 2)], [1], 4, 12, SpawnRightSlow, SpawnRightFast);
    }
  }

  lemma AttackBurst(turn: nat, head: seq<Request>, sides: seq<int>, cap: nat, per: nat, slow: seq<Cell>, fast: seq<Cell>)
    requires per > 0
    requires forall i :: 0 <= i < |head| ==> SpawnsKind(head[i], Interceptor)
    ensures CountSpawns(Attack(turn, head, sides, cap, per, slow, fast), Scout) == if BurstTurn(turn) then 1 else 0
    ensures CountSpawns(Attack(turn, head, sides, cap, per, slow, fast), Demolisher) == if BurstTurn(turn) then 1 else 0
  {
    var esc := Escalation(sides, turn, cap, per);
    var burst := Burst(turn, slow, fast);
    NoOtherSpawns(head, sides, turn, cap, per, Scout);
    NoOtherSpawns(head, sides, turn, cap, per, Demolisher);
    CountSpawnsConcat(head, esc, Scout);
    CountSpawnsConcat(head + esc, burst, Scout);
    CountSpawnsConcat(head, esc, Demolisher);
    CountSpawnsConcat(head + esc, burst, Demolisher);
    if BurstTurn(turn) {
      assert burst[1..][1..] == [];
    }
  }

  /** The interceptor part of a branch spawns no unit of another kind. */
  lemma NoOtherSpawns(head: seq<Request>, sides: seq<int>, turn: nat, cap: nat, per: nat, k: UnitKind)
    requires per > 0 && k != Interceptor
    requires forall i :: 0 <= i < |head| ==> SpawnsKind(head[i], Interceptor)
    ensures CountSpawns(head, k) == 0 && CountSpawns(Escalation(sides, turn, cap, per), k) == 0
  {
    CountSpawnsZero(head, k);
    var esc := Escalation(sides, turn, cap, per);
    forall i | 0 <= i < |esc|
      ensures !SpawnsKind(esc[i], k)
    {
      RoundsMembers(InterceptorAt, sides, Min(cap, turn / per), esc[i]);
    }
    CountSpawnsZero(esc, k);
  }

  /** The scouts of a burst start from the left fast spawn point unless only
      the opponent's left half is open, when they start from the right one. */
  lemma ScoutSpawnPoint(turn: nat, leftOpen: bool, rightOpen: bool)
    requires turn > 5 && (leftOpen || rightOpen) && BurstTurn(turn)
    ensures Spawn(Scout, SpawnLeftFast, ScoutFlood) in DeployCore(turn, leftOpen, rightOpen) <==> rightOpen
    ensures Spawn(Scout, SpawnRightFast, ScoutFlood) in DeployCore(turn, leftOpen, rightOpen) <==> !rightOpen
    ensures Spawn(Demolisher, SpawnLeftSlow, BurstDemolishers(turn)) in DeployCore(turn, leftOpen, rightOpen) <==> rightOpen
    ensures Spawn(Demolisher, SpawnRightSlow, BurstDemolishers(turn)) in DeployCore(turn, leftOpen, rightOpen) <==> !rightOpen
  {
    var r := DeployCore(turn, leftOpen, rightOpen);
    BurstOnCadence(turn, leftOpen, rightOpen);
    var slow := if rightOpen then SpawnLeftSlow else SpawnRightSlow;
    var fast := if rightOpen then SpawnLeftFast else SpawnRightFast;
    var other := if rightOpen then SpawnRightFast else SpawnLeftFast;
    var otherSlow := if rightOpen then SpawnRightSlow else SpawnLeftSlow;
    assert other[0] != fast[0] && otherSlow[0] != slow[0];
    assert Spawn(Scout, fast, ScoutFlood) in r;
    assert Spawn(Demolisher, slow, BurstDemolishers(turn)) in r;
    OnlyCountedSpawn(r, Scout, Spawn(Scout, fast, ScoutFlood), Spawn(Scout, other, ScoutFlood));
    OnlyCountedSpawn(r, Demolisher, Spawn(Demolisher, slow, BurstDemolishers(turn)), Spawn(Demolisher, otherSlow, BurstDemolishers(turn)));
  }

  /** A log with a single spawn of kind `k` cannot hold two different ones. */
  lemma OnlyCountedSpawn(log: seq<Request>, k: UnitKind, a: Request, b: Request)
    requires CountSpawns(log, k) == 1 && a in log && SpawnsKind(a, k) && SpawnsKind(b, k) && a != b
    ensures b !in log
  {
    if b in log {
      var i :| 0 <= i < |log| && log[i] == a;
      var j :| 0 <= j < |log| && log[j] == b;
      TwoSpawnsCount(log, k, i, j);
    }
  }

  lemma {:induction false} TwoSpawnsCount(log: seq<Request>, k: UnitKind, i: int, j: int)
    requires 0 <= i < |log| && 0 <= j < |log| && i != j
    requires SpawnsKind(log[i], k) && SpawnsKind(log[j], k)
    ensures CountSpawns(log, k) >= 2
    decreases |log|
  {
    if i > 0 && j > 0 {
      TwoSpawnsCount(log[1..], k, i - 1, j - 1);
    } else {
      var other := if i == 0 then j else i;
      CountSpawnsZero(log[1..], k);
      assert log[1..][other - 1] == log[other];
    }
  }

  /** The burst grows by one demolisher every twenty turns, up to four. */
  lemma BurstGrows(t1: nat, t2: nat)
    requires t1 <= t2
    ensures BurstDemolishers(t1) <= BurstDemolishers(t2)
    ensures BurstDemolishers(t1) == if t1 < 20 then 2 else if t1 < 40 then 3 else 4
  {
    assert t1 / 20 <= t2 / 20;
  }

  /** The cadence period is five turns before turn 20, six up to turn 39,
      seven up to turn 59, and so on. */
  lemma CadenceExamples()
    ensures BurstTurn(6) && BurstTurn(11) && BurstTurn(16) && !BurstTurn(21)
    ensures BurstTurn(25) && BurstTurn(31) && BurstTurn(37) && !BurstTurn(41)
    ensures BurstTurn(43) && BurstTurn(50) && BurstTurn(57) && !BurstTurn(61) && BurstTurn(65)
  {
  }

  /** Before turn 20 the burst fires every five turns. */
  lemma EarlyCadence(turn: nat)
    requires turn < 20
    ensures BurstTurn(turn) <==> turn % 5 == 1
  {
    assert turn / 20 == 0;
  }

  lemma BurstMirror(turn: nat, slow: seq<Cell>, fast: seq<Cell>)
    ensures MirrorLog(Burst(turn, slow, fast)) == Burst(turn, MirrorCells(slow), MirrorCells(fast))
  {
  }

  /** Reflected escalation: if firing from each side reflects to firing from
      its counterpart, the rounds reflect too. */
  lemma {:induction false} RoundsMirror(fire: Fire, sides: seq<int>, mirrored: seq<int>, n: nat)
    requires |sides| == |mirrored|
    requires forall j, p :: 0 <= j < |sides| && 1 <= p <= 3 ==> MirrorRequest(fire(sides[j], p)) == fire(mirrored[j], p)
    ensures MirrorLog(Rounds(fire, sides, n)) == Rounds(fire, mirrored, n)
    decreases n
  {
    if n > 0 {
      RoundsMirror(fire, sides, mirrored, n - 1);
      MirrorLogConcat(Rounds(fire, sides, n - 1), Round(fire, sides, n - 1));
      assert MirrorLog(Round(fire, sides, n - 1)) == Round(fire, mirrored, n - 1);
    }
  }

  /** Firing from the right lane is firing from the left lane, reflected. */
  lemma InterceptorMirror(p: int)
    requires 1 <= p <= 3
    ensures MirrorRequest(InterceptorAt(0, p)) == InterceptorAt(1, p)
  {
    LanesMirror();
  }

  /** With one half open after the opening, the deployment for the
      opponent's left half is the reflection of the one for its right half. */
  lemma DeployMirror(turn: nat)
    requires turn > 5
    ensures DeployCore(turn, true, false) == MirrorLog(DeployCore(turn, false, true))
  {
    LeftSideMirrors();
    LanesMirror();
    OneHalfBranches(turn);
    AttackMirror(turn, [InterceptorAt(0, 2)], [0], [1], 4, 12, SpawnLeftSlow, SpawnLeftFast);
  }

  /** Side 0 firing reflects to side 1 firing, and so does the opening
      interceptor of a one-half branch. */
  lemma LeftSideMirrors()
    ensures forall j, p :: 0 <= j < |[0]| && 1 <= p <= 3 ==> MirrorRequest(InterceptorAt([0][j], p)) == InterceptorAt([1][j], p)
    ensures MirrorLog([InterceptorAt(0, 2)]) == [InterceptorAt(1, 2)]
  {
    forall j, p | 0 <= j < |[0]| && 1 <= p <= 3
      ensures MirrorRequest(InterceptorAt([0][j], p)) == InterceptorAt([1][j], p)
    {
      InterceptorMirror(p);
    }
    InterceptorMirror(2);
  }

  /** The two one-half branches of the deployment after the opening. */
  lemma OneHalfBranches(turn: nat)
    requires turn > 5
    ensures DeployCore(turn, false, true) == Attack(turn, [InterceptorAt(0, 2)], [0], 4, 12, SpawnLeftSlow, SpawnLeftFast)
    ensures DeployCore(turn, true, false) == Attack(turn, [InterceptorAt(1, 2)], [1], 4, 12, SpawnRightSlow, SpawnRightFast)
  {
  }

  /** An attacking branch reflects to the branch with reflected opening,
      reflected sides and reflected spawn points. */
  lemma AttackMirror(turn: nat, head: seq<Request>, sides: seq<int>, mirrored: seq<int>, cap: nat, per: nat,
                     slow: seq<Cell>, fast: seq<Cell>)
    requires per > 0 && |sides| == |mirrored|
    requires forall j, p :: 0 <= j < |sides| && 1 <= p <= 3 ==> MirrorRequest(InterceptorAt(sides[j], p)) == InterceptorAt(mirrored[j], p)
    ensures MirrorLog(Attack(turn, head, sides, cap, per, slow, fast))
         == Attack(turn, MirrorLog(head), mirrored, cap, per, MirrorCells(slow), MirrorCells(fast))
  {
    var esc := Escalation(sides, turn, cap, per);
    if turn > 10 {
      RoundsMirror(InterceptorAt, sides, mirrored, Min(cap, turn / per));
    }
    assert MirrorLog(esc) == Escalation(mirrored, turn, cap, per);
    BurstMirror(turn, slow, fast);
    MirrorLogConcat(head, esc);
    MirrorLogConcat(head + esc, Burst(turn, slow, fast));
  }

  /** Everything in an attacking branch that is not an interceptor belongs
      to its burst. */
  lemma AttackRestIsBurst(turn: nat, head: seq<Request>, sides: seq<int>, cap: nat, per: nat,
                          slow: seq<Cell>, fast: seq<Cell>, q: Request)
    requires per > 0
    requires forall i :: 0 <= i < |head| ==> SpawnsKind(head[i], Interceptor)
    requires q in Attack(turn, head, sides, cap, per, slow, fast) && !SpawnsKind(q, Interceptor)
    ensures q in Burst(turn, slow, fast)
  {
    if q in Escalation(sides, turn, cap, per) {
      RoundsMembers(InterceptorAt, sides, Min(cap, turn / per), q);
    }
  }

  /** Every request of the deployment names cells of our own half only. */
  lemma DeployInOwnHalf(turn: nat, leftOpen: bool, rightOpen: bool, q: Request)
    requires q in DeployCore(turn, leftOpen, rightOpen)
    ensures InOwnHalf(q)
  {
    if turn > 5 {
      if SpawnsKind(q, Interceptor) {
        InterceptorsFaceOpenHalves(turn, leftOpen, rightOpen, q);
      } else if leftOpen && rightOpen {
        AttackRestIsBurst(turn, [Spawn(Interceptor, PySlice(InterceptorAttackLeft, 1, 2), 1), Spawn(Interceptor, PySlice(InterceptorAttackRight, 1, 2), 1)],
          [0, 1], 2, 15, SpawnLeftSlow, SpawnLeftFast, q);
      } else if rightOpen {
        AttackRestIsBurst(turn, [InterceptorAt(0, 2)], [0], 4, 12, SpawnLeftSlow, SpawnLeftFast, q);
      } else {
        AttackRestIsBurst(turn, [InterceptorAt(1, 2)], [1], 4, 12, SpawnRightSlow, SpawnRightFast, q);
      }
    }
  }
}
