/** What a wall withstands: over every run its HP are 750 less the damage reported while it stood. */
module WallHits {
  import opened Walls

  /** How much of a damage report counts: its low 16 bits, and 25 where they say nothing. */
  function Counted(damage: nat): nat {
    if damage % 65536 == 0 then 25 else damage % 65536
  }

  predicate Stands(w: World, id: nat) {
    exists i :: 0 <= i < |w.walls| && w.walls[i].id == id
  }

  /** The damage reported for the wall while it stood. */
  ghost function Suffered(run: seq<Timed>, id: nat): nat {
    if |run| == 0 then 0
    else
      var init, ev := run[..|run| - 1], run[|run| - 1].event;
      Suffered(init, id) + if ev.DamageEvent? && ev.id == id && Stands(Run(init), id) then Counted(ev.damage) else 0
  }

  // ---------------------------------------------------------------- one report

  lemma FindsTheWall(w: World, id: nat)
    ensures Find(w.walls, id) == -1 <==> !Stands(w, id)
  {
    FindNone(w.walls, id);
  }

  lemma {:induction false} FindNone(walls: seq<Wall>, id: nat)
    ensures Find(walls, id) == -1 <==> forall i :: 0 <= i < |walls| ==> walls[i].id != id
  {
    if |walls| > 0 && walls[0].id != id {
      FindNone(walls[1..], id);
      forall i | 0 < i < |walls| ensures walls[i] == walls[1..][i - 1] {}
    }
  }

  /** A report takes what counts of it from the wall it names, which falls exactly when that is all it has
      left, and is cracked from 330 HP down; every other wall stays as it is, and so does a wall that is not
      there. */
  lemma OneReport(w: World, id: nat, damage: nat, clock: int)
    requires Invariant(w, clock)
    ensures var w' := Damage(w, id, damage);
            && (!Stands(w, id) ==> w' == w)
            && (forall i :: 0 <= i < |w.walls| && w.walls[i].id != id ==> w.walls[i] in w'.walls)
            && (forall i :: 0 <= i < |w.walls| && w.walls[i].id == id ==>
                  if Counted(damage) >= w.walls[i].hp then !Stands(w', id)
                  else w.walls[i].(hp := w.walls[i].hp - Counted(damage),
                                   state := if w.walls[i].hp - Counted(damage) <= 330 then Cracked else Intact) in w'.walls)
            && (forall wall :: wall in w'.walls && wall.id != id ==> wall in w.walls)
  {
    hide Invariant, Damage, Find;
    FindsTheWall(w, id);
    var k := Find(w.walls, id);
    ReportIs(w, id, damage);
    if k != -1 {
      OnlyOne(w, k, clock);
      if Counted(damage) >= w.walls[k].hp {
        WithoutOne(w.walls, k);
      } else {
        UpdatedOne(w.walls, k, w.walls[k].(hp := w.walls[k].hp - Counted(damage),
                                           state := if w.walls[k].hp - Counted(damage) <= 330 then Cracked else Intact),
                   Damage(w, id, damage).walls);
      }
    }
  }

  lemma ReportIs(w: World, id: nat, damage: nat)
    ensures var k, w' := Find(w.walls, id), Damage(w, id, damage);
            if k == -1 then w' == w
            else if Counted(damage) >= w.walls[k].hp then w'.walls == Without(w.walls, k)
            else w'.walls == w.walls[k := w.walls[k].(hp := w.walls[k].hp - Counted(damage),
                                                      state := if w.walls[k].hp - Counted(damage) <= 330 then Cracked else Intact)]
  {
    hide Without;
  }

  lemma OnlyOne(w: World, k: nat, clock: int)
    requires Invariant(w, clock) && k < |w.walls|
    ensures forall i :: 0 <= i < |w.walls| && i != k ==> w.walls[i].id != w.walls[k].id
  {
    hide WallID, Sound, Shown, Ids;
  }

  lemma WithoutOne(walls: seq<Wall>, k: nat)
    requires k < |walls|
    ensures forall i :: 0 <= i < |walls| && i != k ==> walls[i] in Without(walls, k)
    ensures forall wall :: wall in Without(walls, k) ==> Another(walls, k, wall)
  {
    forall i | 0 <= i < |walls| && i != k ensures walls[i] in Without(walls, k) {
      assert Without(walls, k)[if i < k then i else i - 1] == walls[i];
    }
    forall wall | wall in Without(walls, k) ensures Another(walls, k, wall) {
      var j :| 0 <= j < |Without(walls, k)| && Without(walls, k)[j] == wall;
      assert walls[if j < k then j else j + 1] == wall;
    }
  }

  lemma UpdatedOne(walls: seq<Wall>, k: nat, wall: Wall, walls': seq<Wall>)
    requires k < |walls| && walls' == walls[k := wall]
    ensures forall i :: 0 <= i < |walls| && i != k ==> walls[i] in walls'
    ensures wall in walls' && forall x :: x in walls' ==> x == wall || Another(walls, k, x)
  {
    assert walls'[k] == wall && forall i :: 0 <= i < |walls| && i != k ==> walls'[i] == walls[i];
  }

  ghost predicate Another(walls: seq<Wall>, k: nat, wall: Wall) {
    exists i :: 0 <= i < |walls| && i != k && walls[i] == wall
  }

  // ---------------------------------------------------------------- whole runs

  lemma {:induction false} TrimOnlyRemoves(w: World, owner: nat)
    ensures forall wall :: wall in Trim(w, owner).walls ==> wall in w.walls
    decreases |w.walls|
  {
    hide Of, Oldest;
    var k := Oldest(w.walls, owner);
    if |Of(w.walls, owner)| > WALL_CAP && k >= 0 {
      TrimOnlyRemoves(Remove(w, k), owner);
    }
  }

  /** A sweep takes the walls that have stood for ninety seconds. */
  lemma {:induction false} SweptAfterNinetySeconds(walls: seq<Wall>, now: int)
    ensures forall wall :: wall in Kept(walls, now) <==> wall in walls && now - wall.placedAt < 90_000
  {
    if |walls| > 0 {
      SweptAfterNinetySeconds(walls[..|walls| - 1], now);
      assert walls == walls[..|walls| - 1] + [walls[|walls| - 1]];
    }
  }

  /** No report counts for an id that has not been given out. */
  lemma {:induction false} NothingSuffered(run: seq<Timed>, n: nat, clock: int)
    requires InOrder(run) && (|run| > 0 ==> run[|run| - 1].now <= clock)
    requires Placements(run) < n < 0x100_0000
    ensures Suffered(run, WallID(n)) == 0
  {
    hide Step, Invariant, Capped;
    if |run| > 0 {
      var init := run[..|run| - 1];
      NothingSuffered(init, n, run[|run| - 1].now);
      RunKeepsInvariant(init, run[|run| - 1].now);
      NotGivenOut(Run(init), n, run[|run| - 1].now);
    }
  }

  lemma NotGivenOut(w: World, n: nat, clock: int)
    requires Invariant(w, clock) && w.wallSeq < n < 0x100_0000
    ensures !Stands(w, WallID(n))
  {
    hide WallID, Shown, Sound;
    SmallId(w.wallSeq);
    SmallId(n);
    assert forall i :: 0 <= i < |w.walls| ==> w.walls[i] in w.walls && w.walls[i].id <= WallID(w.wallSeq);
  }

  /** What stood before, or was placed just now, is what stands after a step that is no report. */
  lemma StepOnlyPlaces(w: World, t: Timed)
    requires !t.event.DamageEvent?
    ensures forall wall :: wall in Step(w, t).walls ==>
              wall in w.walls || (t.event.PlaceEvent? && wall == Wall(WallID(w.wallSeq + 1), t.event.owner, 750, Intact, t.now))
  {
    hide WallID, Trim, Kept;
    match t.event
    case PlaceEvent(owner) =>
      var wall := Wall(WallID(w.wallSeq + 1), owner, MAX_HP, Intact, t.now);
      TrimOnlyRemoves(World(w.walls + [wall], w.wallSeq + 1, w.log + [Added(wall.id)]), owner);
    case SweepEvent => SweptAfterNinetySeconds(w.walls, t.now);
    case ClearEvent =>
  }

  /** A wall is placed with 750 HP behind those that stand, and its owner then has at most three. */
  lemma PlacedWall(w: World, owner: nat, now: int, clock: int)
    requires Invariant(w, clock) && Capped(w.walls) && clock <= now && w.wallSeq + 1 < 0x100_0000
    ensures var stand := Of(Place(w, owner, now).walls, owner);
            && 1 <= |stand| <= 3
            && stand[|stand| - 1] == Wall(0x300_0000 + w.wallSeq + 1, owner, 750, Intact, now)
            && stand[..|stand| - 1] == if |Of(w.walls, owner)| == 3 then Of(w.walls, owner)[1..] else Of(w.walls, owner)
  {
    hide Invariant, WallID, Place, Of;
    SmallId(w.wallSeq + 1);
    PlaceEffect(w, owner, now, clock);
    assert |Of(w.walls, owner)| <= WALL_CAP;
  }

  ghost predicate Accounted(run: seq<Timed>, wall: Wall) {
    wall.hp + Suffered(run, wall.id) == 750 && (wall.state == if wall.hp <= 330 then Cracked else Intact)
  }

  /** Over every run with fewer than 2^24 placements: a standing wall has 750 HP less the damage reported while
      it stood, and is cracked exactly from 330 down. */
  lemma {:induction false} RunHP(run: seq<Timed>, clock: int)
    requires InOrder(run) && (|run| > 0 ==> run[|run| - 1].now <= clock)
    requires Placements(run) < 0x100_0000
    ensures forall wall :: wall in Run(run).walls ==> Accounted(run, wall)
  {
    hide Step, Invariant, Capped, WallID;
    if |run| > 0 {
      var init, t := run[..|run| - 1], run[|run| - 1];
      var w := Run(init);
      RunHP(init, t.now);
      RunKeepsInvariant(init, t.now);
      RunKeepsInvariant(run, clock);
      if t.event.DamageEvent? {
        ReportAccounted(run, t.now);
      } else {
        StepOnlyPlaces(w, t);
        forall wall | wall in Run(run).walls ensures Accounted(run, wall) {
          if wall !in w.walls {
            NothingSuffered(init, w.wallSeq + 1, t.now);
          }
        }
      }
    }
  }

  lemma ReportAccounted(run: seq<Timed>, clock: int)
    requires |run| > 0 && run[|run| - 1].event.DamageEvent?
    requires var init := run[..|run| - 1];
             Invariant(Run(init), clock) && forall wall :: wall in Run(init).walls ==> Accounted(init, wall)
    ensures forall wall :: wall in Run(run).walls ==> Accounted(run, wall)
  {
    hide Invariant, WallID, Damage, Run, Suffered, Accounted;
    var init, ev := run[..|run| - 1], run[|run| - 1].event;
    var w, w' := Run(init), Run(run);
    RunsReport(run);
    OthersStay(w, ev.id, ev.damage, clock);
    UniqueIds(w, w', ev.id, ev.damage, clock);
    forall wall | wall in w'.walls ensures Accounted(run, wall) {
      if wall.id == ev.id {
        var i: nat :| IsLess(w, i, ev.id, ev.damage, wall);
        assert w.walls[i] in w.walls;
        LessAccounted(run, w.walls[i], wall, i);
      } else {
        SameAccounted(run, wall);
      }
    }
  }

  lemma OthersStay(w: World, id: nat, damage: nat, clock: int)
    requires Invariant(w, clock)
    ensures forall wall :: wall in Damage(w, id, damage).walls && wall.id != id ==> wall in w.walls
  {
    hide Invariant, Damage;
    OneReport(w, id, damage, clock);
  }

  lemma SameAccounted(run: seq<Timed>, wall: Wall)
    requires |run| > 0 && run[|run| - 1].event.DamageEvent? && wall.id != run[|run| - 1].event.id
    requires Accounted(run[..|run| - 1], wall)
    ensures Accounted(run, wall)
  {
    hide Run;
  }

  lemma LessAccounted(run: seq<Timed>, wall: Wall, wall': Wall, i: nat)
    requires |run| > 0 && run[|run| - 1].event.DamageEvent? && wall.id == run[|run| - 1].event.id
    requires Accounted(run[..|run| - 1], wall) && IsLess(Run(run[..|run| - 1]), i, wall.id, run[|run| - 1].event.damage, wall')
    requires Run(run[..|run| - 1]).walls[i] == wall
    ensures Accounted(run, wall')
  {
    hide Run;
  }

  lemma RunsReport(run: seq<Timed>)
    requires |run| > 0 && run[|run| - 1].event.DamageEvent?
    ensures var ev := run[|run| - 1].event; Run(run) == Damage(Run(run[..|run| - 1]), ev.id, ev.damage)
  {
    hide Damage;
  }

  /** The wall of the report, if it still stands, is the one from before with less. */
  lemma UniqueIds(w: World, w': World, id: nat, damage: nat, clock: int)
    requires Invariant(w, clock) && w' == Damage(w, id, damage)
    ensures forall wall :: wall in w'.walls && wall.id == id ==> exists i: nat :: IsLess(w, i, id, damage, wall)
  {
    hide WallID, Shown, Ids, Sound;
    FindsTheWall(w, id);
    var k := Find(w.walls, id);
    if k != -1 {
      forall i | 0 <= i < |w.walls| && w.walls[i].id == id ensures i == k {}
      forall wall | wall in w'.walls && wall.id == id ensures IsLess(w, k, id, damage, wall) {}
    }
  }

  /** The wall of the report with what the report leaves it. */
  ghost predicate IsLess(w: World, i: nat, id: nat, damage: nat, wall: Wall) {
    && i < |w.walls| && w.walls[i].id == id && Counted(damage) < w.walls[i].hp
    && wall == w.walls[i].(hp := w.walls[i].hp - Counted(damage),
                           state := if w.walls[i].hp - Counted(damage) <= 330 then Cracked else Intact)
  }
}
