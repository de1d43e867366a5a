/** `cloverfield_strategy`: one turn of the strategy. The preflight rebuilds
    what the previous turn removed, removes what is worn out now and scans
    the opponent's defence for gaps; then the build and the deployment are
    planned from the two gap flags. The only state carried from one turn to
    the next is the list of structures removed, to be rebuilt. */
module Turn {
  import opened GameMap
  import opened Requests
  import opened GapScanner
  import opened Triage
  import opened BuildPlanner
  import opened Deployment

  /** What the strategy object keeps between turns. */
  datatype Memory = Memory(rebuild: seq<Structure>)

  /** What one turn produces: the requests in issue order, the memory for
      the next turn and the gap state it acted on. */
  datatype Outcome = Outcome(requests: seq<Request>, memory: Memory, gaps: GapState)

  /** The moves of a turn after the preflight: the build for the gap state,
      then the deployment for it. */
  function Plan(g: GapState, turn: nat): seq<Request> {
    BuildCore(g.leftOpen, g.rightOpen, turn) + DeployCore(turn, g.leftOpen, g.rightOpen)
  }

  /** The requests of a turn, in issue order, for a given destroy list `d`
      and gap state `g`: rebuild the remembered structures, remove the
      destroyed ones, then build and deploy. */
  function TurnRequests(m: Memory, d: seq<Structure>, g: GapState, turn: nat): seq<Request> {
    Rebuild(m.rebuild) + RemoveRequests(d) + Plan(g, turn)
  }

  /** One turn, from the memory of the previous turn, the snapshot of this
      one and the turn number. */
  function CloverfieldTurn(m: Memory, b: Board, turn: nat): (o: Outcome)
    ensures forall s {:trigger s in o.memory.rebuild} :: s in o.memory.rebuild <==>
      InFriendlyHalf(s.at) && StationaryAt(b, s.at) == Some(s) && ShouldRemove(s)
    ensures o.gaps.rightOpen <==> exists k :: 0 <= k < 14 && !ColumnClosed(b, k)
    ensures o.gaps.leftOpen <==> exists k :: 14 <= k < Width && !ColumnClosed(b, k)
  {
    var destroyed := DestroyList(b);
    forall s ensures s in destroyed <==> InFriendlyHalf(s.at) && StationaryAt(b, s.at) == Some(s) && ShouldRemove(s) {
      TriageMembers(b, s);
    }
    var g := ScanGaps(b);
    Outcome(TurnRequests(m, destroyed, g, turn), Memory(destroyed), g)
  }

  /** The memory a turn leaves depends on its own snapshot only. */
  lemma MemoryForgetsPrevious(m1: Memory, m2: Memory, b: Board, t1: nat, t2: nat)
    ensures CloverfieldTurn(m1, b, t1).memory == CloverfieldTurn(m2, b, t2).memory
  {
  }

  /** Whatever the destroy list and the gap state, the requests start with
      the rebuild of the memory. */
  lemma RequestsStartWithRebuild(m: Memory, d: seq<Structure>, g: GapState, turn: nat)
    ensures |Rebuild(m.rebuild)| <= |TurnRequests(m, d, g, turn)|
    ensures Decode(TurnRequests(m, d, g, turn)[..|Rebuild(m.rebuild)|]) == Some(Known(m.rebuild))
  {
    var log := TurnRequests(m, d, g, turn);
    assert log[..|Rebuild(m.rebuild)|] == Rebuild(m.rebuild);
    RebuildDecodes(m.rebuild);
  }

  /** A turn begins with the rebuild of what the memory holds, and reading
      that prefix back gives the recognised remembered structures. */
  lemma TurnStartsWithRebuild(m: Memory, b: Board, turn: nat)
    ensures |Rebuild(m.rebuild)| <= |CloverfieldTurn(m, b, turn).requests|
    ensures Decode(CloverfieldTurn(m, b, turn).requests[..|Rebuild(m.rebuild)|]) == Some(Known(m.rebuild))
  {
    RequestsStartWithRebuild(m, DestroyList(b), ScanGaps(b), turn);
  }

  /** Rebuild round trip over two turns: the next turn rebuilds exactly the
      structures this turn removes, each with its own kind, cell and
      upgrade, in the order they were removed. */
  lemma RemovedAreRebuiltNextTurn(m: Memory, b1: Board, t1: nat, b2: Board, t2: nat)
    ensures Decode(CloverfieldTurn(CloverfieldTurn(m, b1, t1).memory, b2, t2).requests[..|Rebuild(DestroyList(b1))|])
         == Some(Known(DestroyList(b1)))
    ensures |Known(DestroyList(b1))| == |DestroyList(b1)|
    ensures forall i :: 0 <= i < |DestroyList(b1)| ==>
      RebuildKind(DestroyList(b1)[i].tag) == Some(Known(DestroyList(b1))[i].kind) &&
      Known(DestroyList(b1))[i].at == DestroyList(b1)[i].at && Known(DestroyList(b1))[i].upgraded == DestroyList(b1)[i].upgraded
  {
    TurnStartsWithRebuild(CloverfieldTurn(m, b1, t1).memory, b2, t2);
    TriagedAreKnown(b1);
  }

  /** Each entry of the destroy list is removed by the requests. */
  lemma RequestsRemove(m: Memory, d: seq<Structure>, g: GapState, turn: nat, i: int)
    requires 0 <= i < |d|
    ensures Remove([d[i].at]) in TurnRequests(m, d, g, turn)
  {
    var log := TurnRequests(m, d, g, turn);
    assert log[|Rebuild(m.rebuild)| + i] == RemoveRequests(d)[i];
  }

  /** Every worn-out structure of our own half is removed during the turn. */
  lemma WornStructuresRemoved(m: Memory, b: Board, turn: nat, s: Structure)
    requires InFriendlyHalf(s.at) && StationaryAt(b, s.at) == Some(s) && ShouldRemove(s)
    ensures Remove([s.at]) in CloverfieldTurn(m, b, turn).requests
  {
    TriageMembers(b, s);
    var d := DestroyList(b);
    var i :| 0 <= i < |d| && d[i] == s;
    RequestsRemove(m, d, ScanGaps(b), turn, i);
  }

  /** A memory whose structures all stand in our own half. */
  predicate OwnHalfMemory(m: Memory) {
    forall i :: 0 <= i < |m.rebuild| ==> InFriendlyHalf(m.rebuild[i].at)
  }

  lemma {:induction false} RebuildInOwnHalf(list: seq<Structure>)
    requires forall i :: 0 <= i < |list| ==> InFriendlyHalf(list[i].at)
    ensures forall q {:trigger q in Rebuild(list)} :: q in Rebuild(list) ==> InOwnHalf(q)
    decreases |list|
  {
    if list != [] {
      RebuildInOwnHalf(list[1..]);
      assert Rebuild(list) == RebuildOne(list[0]) + Rebuild(list[1..]);
    }
  }

  lemma {:induction false} RemoveRequestsInOwnHalf(d: seq<Structure>)
    requires forall i :: 0 <= i < |d| ==> InFriendlyHalf(d[i].at)
    ensures forall q {:trigger q in RemoveRequests(d)} :: q in RemoveRequests(d) ==> InOwnHalf(q)
  {
    forall q | q in RemoveRequests(d)
      ensures InOwnHalf(q)
    {
      var i :| 0 <= i < |d| && RemoveRequests(d)[i] == q;
    }
  }

  /** The build and the deployment name own-half cells only. */
  lemma PlanInOwnHalf(g: GapState, turn: nat)
    ensures forall q {:trigger q in Plan(g, turn)} :: q in Plan(g, turn) ==> InOwnHalf(q)
  {
    var build := BuildCore(g.leftOpen, g.rightOpen, turn);
    var deploy := DeployCore(turn, g.leftOpen, g.rightOpen);
    BuildInOwnHalf(g.leftOpen, g.rightOpen, turn);
    forall q | q in deploy
      ensures InOwnHalf(q)
    {
      DeployInOwnHalf(turn, g.leftOpen, g.rightOpen, q);
    }
    assert forall q {:trigger q in Plan(g, turn)} :: q in Plan(g, turn) ==> q in build || q in deploy;
  }

  /** Own-half memory and an own-half destroy list give own-half requests,
      whatever the gap state. */
  lemma RequestsInOwnHalf(m: Memory, d: seq<Structure>, g: GapState, turn: nat)
    requires OwnHalfMemory(m)
    requires forall i :: 0 <= i < |d| ==> InFriendlyHalf(d[i].at)
    ensures forall q {:trigger q in TurnRequests(m, d, g, turn)} :: q in TurnRequests(m, d, g, turn) ==> InOwnHalf(q)
  {
    RebuildInOwnHalf(m.rebuild);
    RemoveRequestsInOwnHalf(d);
    PlanInOwnHalf(g, turn);
    var pre := Rebuild(m.rebuild) + RemoveRequests(d);
    assert forall q {:trigger q in pre} :: q in pre ==> q in Rebuild(m.rebuild) || q in RemoveRequests(d);
    assert forall q {:trigger q in TurnRequests(m, d, g, turn)} :: q in TurnRequests(m, d, g, turn) ==> q in pre || q in Plan(g, turn);
  }

  /** The destroy list holds structures of our own half only. */
  lemma DestroyListInOwnHalf(b: Board)
    ensures forall i :: 0 <= i < |DestroyList(b)| ==> InFriendlyHalf(DestroyList(b)[i].at)
  {
    var d := DestroyList(b);
    forall i | 0 <= i < |d|
      ensures InFriendlyHalf(d[i].at)
    {
      assert d[i] in d;
      TriageMembers(b, d[i]);
    }
  }

  /** A turn keeps the strategy in its own half: starting from a memory of
      own-half structures, every request names own-half cells only, and the
      memory left for the next turn again holds own-half structures. */
  lemma TurnStaysInOwnHalf(m: Memory, b: Board, turn: nat)
    requires OwnHalfMemory(m)
    ensures forall q {:trigger q in CloverfieldTurn(m, b, turn).requests} :: q in CloverfieldTurn(m, b, turn).requests ==> InOwnHalf(q)
    ensures OwnHalfMemory(CloverfieldTurn(m, b, turn).memory)
  {
    DestroyListInOwnHalf(b);
    RequestsInOwnHalf(m, DestroyList(b), ScanGaps(b), turn);
  }

  /** Against an empty opponent half both lanes are walled, and after turn
      5 the deployment attacks. */
  lemma EmptyOpponentHalf(m: Memory, b: Board, turn: nat)
    requires forall c :: InEnemyHalf(c) ==> !Occupied(b, c)
    ensures CloverfieldTurn(m, b, turn).gaps == GapState(true, true)
    ensures Place(Wall, InterceptorPathLeft) in CloverfieldTurn(m, b, turn).requests
    ensures Place(Wall, InterceptorPathRight) in CloverfieldTurn(m, b, turn).requests
  {
    EmptyHalfAllOpen(b);
    var build := BuildCore(true, true, turn);
    var log := TurnRequests(m, DestroyList(b), GapState(true, true), turn);
    assert forall q {:trigger q in build} :: q in build ==> q in log;
  }
}
