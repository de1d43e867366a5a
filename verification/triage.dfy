/** Structural triage and the one-turn rebuild (the third and fourth steps of
    `cf_preflight`). Every turn the strategy walks its own half, removes each
    structure whose health has fallen to 60% of its maximum or below, and
    remembers what it removed; at the start of the next turn it queues a
    spawn (and, for an upgraded structure, an upgrade) at each remembered
    cell. */
module Triage {
  import opened GameMap
  import opened Requests

  /** The maximum health the triage assumes for a structure, or nothing for
      a tag it does not recognise. An upgraded wall that still reports
      health 12 (the engine's first-round report) is measured against 12. */
  function MaxHealth(s: Structure): (m: Option<nat>)
    ensures m.Some? <==> !s.tag.OtherTag?
    ensures m.Some? ==> m.value in {12, 30, 75, 120}
  {
    match s.tag
    case FF => if s.upgraded then (if s.health == 12 then Some(12) else Some(120)) else Some(12)
    case EF => Some(30)
    case DF => Some(75)
    case OtherTag(_) => None
  }

  /** `health / maxhealth <= 0.6`, in integers: the structure is worn out
      and gets removed. (For integer health against these maxima the float
      quotient is on the same side of 0.6 as the exact one, and exactly 0.6
      counts as worn out.) The contract reads the rule as a table of health
      thresholds, one per kind. */
  function ShouldRemove(s: Structure): (r: bool)
    ensures s.tag == FF && !s.upgraded ==> (r <==> s.health <= 7)
    ensures s.tag == FF && s.upgraded ==> (r <==> s.health != 12 && s.health <= 72)
    ensures s.tag == EF ==> (r <==> s.health <= 18)
    ensures s.tag == DF ==> (r <==> s.health <= 45)
    ensures s.tag.OtherTag? ==> !r
  {
    var m := MaxHealth(s);
    m.Some? && s.health * 5 <= m.value * 3
  }

  /** The boundary is inclusive: a structure at exactly 60% is removed, one
      health point more keeps it. */
  lemma SixtyPercentIsRemoved(at: Cell)
    ensures ShouldRemove(Structure(at, EF, 18, false)) && !ShouldRemove(Structure(at, EF, 19, false))
    ensures ShouldRemove(Structure(at, DF, 45, true)) && !ShouldRemove(Structure(at, DF, 46, true))
    ensures ShouldRemove(Structure(at, FF, 72, true)) && !ShouldRemove(Structure(at, FF, 73, true))
    ensures !ShouldRemove(Structure(at, FF, 12, true))
  {
  }

  /** The structures standing on `cells`, in order (`current_structure_map`
      with the empty cells skipped). */
  function StructuresOn(b: Board, cells: seq<Cell>): (r: seq<Structure>)
    ensures |r| <= |cells|
    ensures forall s :: s in r <==> exists i :: 0 <= i < |cells| && StationaryAt(b, cells[i]) == Some(s)
    decreases |cells|
  {
    if cells == [] then []
    else
      var rest := StructuresOn(b, cells[1..]);
      assert forall i :: 0 < i < |cells| ==> cells[i] == cells[1..][i - 1];
      assert forall s :: (exists i :: 0 <= i < |cells| - 1 && StationaryAt(b, cells[1..][i]) == Some(s)) ==>
        (exists i :: 0 <= i < |cells| && StationaryAt(b, cells[i]) == Some(s)) by {
        forall s | exists i :: 0 <= i < |cells| - 1 && StationaryAt(b, cells[1..][i]) == Some(s)
          ensures exists i :: 0 <= i < |cells| && StationaryAt(b, cells[i]) == Some(s)
        {
          var i :| 0 <= i < |cells| - 1 && StationaryAt(b, cells[1..][i]) == Some(s);
          assert StationaryAt(b, cells[i + 1]) == Some(s);
        }
      }
      match StationaryAt(b, cells[0])
      case Some(s) => [s] + rest
      case None => rest
  }

  /** The destroy list for `cells`: the worn-out structures among those
      standing on them, in order. */
  function TriageCells(b: Board, cells: seq<Cell>): (r: seq<Structure>)
    ensures forall s :: s in r <==> s in StructuresOn(b, cells) && ShouldRemove(s)
    ensures IsSubsequence(r, StructuresOn(b, cells))
    decreases |cells|
  {
    if cells == [] then []
    else
      var rest := TriageCells(b, cells[1..]);
      match StationaryAt(b, cells[0])
      case Some(s) =>
        assert StructuresOn(b, cells) == [s] + StructuresOn(b, cells[1..]);
        assert ([s] + rest)[1..] == rest;
        if ShouldRemove(s) then [s] + rest else rest
      case None => rest
  }

  /** `preemptive_destroying_location` after the triage: the worn-out
      structures of our own half in FRIENDLY_MAP order. */
  function DestroyList(b: Board): seq<Structure> {
    TriageCells(b, FriendlyMap())
  }

  /** A structure is on the destroy list iff it stands in our own half and is
      worn out. */
  lemma TriageMembers(b: Board, s: Structure)
    ensures s in DestroyList(b) <==>
            InFriendlyHalf(s.at) && StationaryAt(b, s.at) == Some(s) && ShouldRemove(s)
  {
    var cells := FriendlyMap();
    if s in DestroyList(b) {
      var i :| 0 <= i < |cells| && StationaryAt(b, cells[i]) == Some(s);
      FriendlyMapIsFriendlyHalf(cells[i]);
    }
    if InFriendlyHalf(s.at) && StationaryAt(b, s.at) == Some(s) && ShouldRemove(s) {
      FriendlyMapIsFriendlyHalf(s.at);
      var i :| 0 <= i < |cells| && cells[i] == s.at;
      assert s in StructuresOn(b, cells);
    }
  }

  /** The `attempt_remove` calls of the triage, one per destroyed structure,
      in the same order. */
  function RemoveRequests(d: seq<Structure>): (r: seq<Request>)
    ensures |r| == |d|
    ensures forall i :: 0 <= i < |d| ==> r[i] == Remove([d[i].at])
    decreases |d|
  {
    if d == [] then [] else [Remove([d[0].at])] + RemoveRequests(d[1..])
  }

  /** The unit kind a remembered structure is rebuilt as (FF a wall, EF a
      support, DF a turret); an unknown tag is skipped with a warning. */
  function RebuildKind(t: Tag): (k: Option<UnitKind>)
    ensures k.Some? <==> !t.OtherTag?
  {
    match t
    case FF => Some(Wall)
    case EF => Some(Support)
    case DF => Some(Turret)
    case OtherTag(_) => None
  }

  /** The requests that rebuild one remembered structure: a spawn of one unit
      at its cell, then an upgrade there iff it was upgraded. */
  function RebuildOne(s: Structure): (r: seq<Request>)
    ensures RebuildKind(s.tag).None? ==> r == []
    ensures RebuildKind(s.tag).Some? ==>
      |r| == (if s.upgraded then 2 else 1) &&
      r[0] == Spawn(RebuildKind(s.tag).value, [s.at], 1) &&
      (s.upgraded ==> r[1] == Upgrade([s.at]))
  {
    match RebuildKind(s.tag)
    case None => []
    case Some(k) => [Spawn(k, [s.at], 1)] + (if s.upgraded then [Upgrade([s.at])] else [])
  }

  /** Step 3 of `cf_preflight`: the rebuild requests for the remembered list. */
  function Rebuild(list: seq<Structure>): (r: seq<Request>)
    decreases |list|
  {
    if list == [] then [] else RebuildOne(list[0]) + Rebuild(list[1..])
  }

  /** What one rebuild achieves: a unit of a kind, at a cell, upgraded or not. */
  datatype Rebuilt = Rebuilt(kind: UnitKind, at: Cell, upgraded: bool)

  /** The rebuilds a remembered list asks for: the recognised entries, in
      order. */
  function Known(list: seq<Structure>): (r: seq<Rebuilt>)
    ensures |r| <= |list|
    decreases |list|
  {
    if list == [] then []
    else
      match RebuildKind(list[0].tag)
      case None => Known(list[1..])
      case Some(k) => [Rebuilt(k, list[0].at, list[0].upgraded)] + Known(list[1..])
  }

  /** Reads a request log back as rebuilds: a one-unit spawn at a single cell,
      optionally followed by an upgrade of that same cell. Anything else is
      not a rebuild log. */
  function Decode(log: seq<Request>): Option<seq<Rebuilt>>
    decreases |log|
  {
    if log == [] then Some([])
    else if !log[0].Spawn? || |log[0].cells| != 1 || log[0].count != 1 then None
    else
      var q := log[0];
      var upgraded := |log| > 1 && log[1] == Upgrade(q.cells);
      var rest := if upgraded then Decode(log[2..]) else Decode(log[1..]);
      if rest.None? then None
      else Some([Rebuilt(q.kind, q.cells[0], upgraded)] + rest.value)
  }

  /** Rebuild round trip: reading the rebuild requests back gives exactly
      the recognised entries of the remembered list, in order. */
  lemma {:induction false} RebuildDecodes(list: seq<Structure>)
    ensures Decode(Rebuild(list)) == Some(Known(list))
    decreases |list|
  {
    if list != [] {
      var s := list[0];
      RebuildDecodes(list[1..]);
      var tail := Rebuild(list[1..]);
      assert Rebuild(list) == RebuildOne(s) + tail;
      match RebuildKind(s.tag)
      case None =>
        assert Rebuild(list) == tail;
      case Some(k) =>
        var log := RebuildOne(s) + tail;
        if s.upgraded {
          assert log[1] == Upgrade([s.at]);
          assert log[2..] == tail;
        } else {
          assert log[1..] == tail;
          if |log| > 1 {
            assert log[1] != Upgrade([s.at]) by {
              RebuildStartsWithSpawn(list[1..]);
            }
          }
        }
    }
  }

  /** Reading back the requests for one remembered structure gives its
      rebuild: the kind it is rebuilt as, its cell and its upgrade; an
      unknown tag gives nothing to read. */
  lemma RebuildOneDecodes(s: Structure)
    ensures Decode(RebuildOne(s)) == Some(Known([s]))
  {
    var r := RebuildOne(s);
    assert [s][1..] == [];
    if RebuildKind(s.tag).Some? {
      if s.upgraded {
        assert r[2..] == [];
      } else {
        assert r[1..] == [];
      }
    }
  }

  /** A non-empty rebuild log starts with a spawn. */
  lemma {:induction false} RebuildStartsWithSpawn(list: seq<Structure>)
    ensures Rebuild(list) != [] ==> Rebuild(list)[0].Spawn?
    decreases |list|
  {
    if list != [] {
      RebuildStartsWithSpawn(list[1..]);
      assert Rebuild(list) == RebuildOne(list[0]) + Rebuild(list[1..]);
    }
  }

  /** A list whose tags are all recognised is rebuilt entry for entry. */
  lemma {:induction false} KnownAllRecognised(list: seq<Structure>)
    requires forall i :: 0 <= i < |list| ==> !list[i].tag.OtherTag?
    ensures |Known(list)| == |list|
    ensures forall i :: 0 <= i < |list| ==>
      Known(list)[i] == Rebuilt(RebuildKind(list[i].tag).value, list[i].at, list[i].upgraded)
    decreases |list|
  {
    if list != [] {
      KnownAllRecognised(list[1..]);
    }
  }

  /** Everything on a destroy list has a recognised tag, so every removed
      structure is rebuilt, at its own cell and with its upgrade. */
  lemma TriagedAreKnown(b: Board)
    ensures |Known(DestroyList(b))| == |DestroyList(b)|
    ensures forall i :: 0 <= i < |DestroyList(b)| ==>
      RebuildKind(DestroyList(b)[i].tag) == Some(Known(DestroyList(b))[i].kind) &&
      Known(DestroyList(b))[i].at == DestroyList(b)[i].at && Known(DestroyList(b))[i].upgraded == DestroyList(b)[i].upgraded
  {
    var d := DestroyList(b);
    assert forall i :: 0 <= i < |d| ==> d[i] in d && ShouldRemove(d[i]);
    KnownAllRecognised(d);
  }
}
