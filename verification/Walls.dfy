/** match-server/gloo.go: the list of placed gloo walls, oldest first, and the packets that tell the
    clients about it. */
module Walls {

  const MAX_HP: nat := 750
  const CRACK_HP: nat := 330
  const LIFETIME: nat := 90_000 // milliseconds
  const WALL_CAP: nat := 3

  datatype WallState = Broken | Cracked | Intact
  datatype Wall = Wall(id: nat, owner: nat, hp: nat, state: WallState, placedAt: int)
  datatype Packet = Added(id: nat) | Removed(id: nat)

  /** The wall list, the id counter and the packets sent so far. */
  datatype World = World(walls: seq<Wall>, wallSeq: nat, log: seq<Packet>)

  const EMPTY: World := World([], 0, [])

  /** 0x03000000 | n, on 32 bits. */
  function WallID(n: nat): (id: nat) {
    n + (3 - n / 0x100_0000 % 4) * 0x100_0000
  }

  /** The ids handed out by the first n placements increase strictly exactly while n stays below 2^24. */
  lemma IdsIncrease(n: nat)
    ensures (forall i, j :: 1 <= i < j <= n ==> WallID(i) < WallID(j)) <==> n < 0x100_0000
  {
    if n < 0x100_0000 {
      forall i, j | 1 <= i < j <= n ensures WallID(i) < WallID(j) {
        SmallId(i);
        SmallId(j);
      }
    } else {
      SmallId(1);
      assert WallID(0x100_0000) == 0x300_0000;
      assert WallID(0x100_0000) < WallID(1);
    }
  }

  lemma SmallId(n: nat)
    requires n < 0x100_0000
    ensures WallID(n) == 0x300_0000 + n
  {}

  function StateForHP(hp: nat): WallState {
    if hp == 0 then Broken else if hp <= CRACK_HP then Cracked else Intact
  }

  // ---------------------------------------------------------------- lists of walls

  function Of(walls: seq<Wall>, owner: nat): seq<Wall> {
    if |walls| == 0 then []
    else
      var rest := Of(walls[..|walls| - 1], owner);
      if walls[|walls| - 1].owner == owner then rest + [walls[|walls| - 1]] else rest
  }

  function Ids(walls: seq<Wall>): (ids: seq<nat>)
    ensures |ids| == |walls|
  {
    seq(|walls|, i requires 0 <= i < |walls| => walls[i].id)
  }

  ghost predicate IncreasingIds(walls: seq<Wall>) {
    forall i, j :: 0 <= i < j < |walls| ==> walls[i].id < walls[j].id
  }

  ghost predicate Sound(w: Wall) {
    1 <= w.hp <= MAX_HP && w.state == StateForHP(w.hp)
  }

  function Without(walls: seq<Wall>, k: nat): seq<Wall>
    requires k < |walls|
  {
    walls[..k] + walls[k + 1..]
  }

  /** k is the owner's oldest wall. */
  predicate IsOldest(walls: seq<Wall>, owner: nat, k: int) {
    0 <= k < |walls| && walls[k].owner == owner && forall i :: 0 <= i < k ==> walls[i].owner != owner
  }

  lemma {:induction false} OfConcat(a: seq<Wall>, b: seq<Wall>, owner: nat)
    ensures Of(a + b, owner) == Of(a, owner) + Of(b, owner)
  {
    if |b| == 0 {
      assert a + b == a;
    } else {
      OfConcat(a, b[..|b| - 1], owner);
      assert (a + b)[..|a + b| - 1] == a + b[..|b| - 1];
    }
  }

  lemma {:induction false} OfNone(walls: seq<Wall>, owner: nat)
    ensures Of(walls, owner) == [] <==> forall i :: 0 <= i < |walls| ==> walls[i].owner != owner
  {
    if |walls| > 0 {
      OfNone(walls[..|walls| - 1], owner);
      assert forall i :: 0 <= i < |walls| - 1 ==> walls[..|walls| - 1][i] == walls[i];
    }
  }

  /** Evicting an owner's oldest wall takes the first of that owner's walls and nothing else. */
  lemma EvictionIsFifo(walls: seq<Wall>, owner: nat, k: int, other: nat)
    requires IsOldest(walls, owner, k)
    ensures Of(walls, owner) == [walls[k]] + Of(Without(walls, k), owner)
    ensures other != owner ==> Of(Without(walls, k), other) == Of(walls, other)
  {
    var a, b := walls[..k], walls[k + 1..];
    assert walls == a + [walls[k]] + b;
    OfNone(a, owner);
    forall o ensures Of(walls, o) == Of(a, o) + Of([walls[k]], o) + Of(b, o)
             && Of(Without(walls, k), o) == Of(a, o) + Of(b, o) {
      OfConcat(a + [walls[k]], b, o);
      OfConcat(a, [walls[k]], o);
      OfConcat(a, b, o);
    }
    OfSingle(walls[k], owner);
    OfSingle(walls[k], other);
  }

  lemma OfSingle(w: Wall, owner: nat)
    ensures Of([w], owner) == if w.owner == owner then [w] else []
  {
    assert Of([], owner) == [];
  }

  // ---------------------------------------------------------------- steps

  function Remove(w: World, k: nat): World
    requires k < |w.walls|
  {
    w.(walls := Without(w.walls, k), log := w.log + [Removed(w.walls[k].id)])
  }

  function Oldest(walls: seq<Wall>, owner: nat): (k: int)
    ensures IsOldest(walls, owner, k) || (k == -1 && Of(walls, owner) == [])
  {
    OfNone(walls, owner);
    OldestFrom(walls, owner, 0)
  }

  function OldestFrom(walls: seq<Wall>, owner: nat, from: nat): (k: int)
    requires from <= |walls| && forall i :: 0 <= i < from ==> walls[i].owner != owner
    ensures IsOldest(walls, owner, k) || (k == -1 && forall i :: 0 <= i < |walls| ==> walls[i].owner != owner)
    decreases |walls| - from
  {
    if from == |walls| then -1
    else if walls[from].owner == owner then from
    else OldestFrom(walls, owner, from + 1)
  }

  /** Evicts the owner's oldest walls down to the cap. */
  function Trim(w: World, owner: nat): World
    decreases |w.walls|
  {
    var k := Oldest(w.walls, owner);
    if |Of(w.walls, owner)| > WALL_CAP && k >= 0 then Trim(Remove(w, k), owner) else w
  }

  function Place(w: World, owner: nat, now: int): World {
    var id := WallID(w.wallSeq + 1);
    var wall := Wall(id, owner, MAX_HP, Intact, now);
    Trim(World(w.walls + [wall], w.wallSeq + 1, w.log + [Added(id)]), owner)
  }

  function Find(walls: seq<Wall>, id: nat): (k: int)
    ensures k == -1 || (0 <= k < |walls| && walls[k].id == id)
  {
    if |walls| == 0 then -1
    else if walls[0].id == id then 0
    else
      var k := Find(walls[1..], id);
      if k == -1 then -1 else k + 1
  }

  /** A damage report: 16 bits of it count, and a report of nothing counts as 25. */
  function Damage(w: World, id: nat, damage: nat): World {
    var k := Find(w.walls, id);
    if k == -1 then w
    else
      var low := damage % 0x1_0000;
      var dmg := if low == 0 then 25 else low;
      var wall := w.walls[k];
      if dmg >= wall.hp then Remove(w, k)
      else w.(walls := w.walls[k := wall.(hp := wall.hp - dmg, state := StateForHP(wall.hp - dmg))])
  }

  predicate Expired(wall: Wall, now: int) {
    now - wall.placedAt >= LIFETIME
  }

  function Kept(walls: seq<Wall>, now: int): seq<Wall> {
    if |walls| == 0 then []
    else
      var rest := Kept(walls[..|walls| - 1], now);
      if Expired(walls[|walls| - 1], now) then rest else rest + [walls[|walls| - 1]]
  }

  function ExpiryPackets(walls: seq<Wall>, now: int): seq<Packet> {
    if |walls| == 0 then []
    else
      var rest := ExpiryPackets(walls[..|walls| - 1], now);
      if Expired(walls[|walls| - 1], now) then rest + [Removed(walls[|walls| - 1].id)] else rest
  }

  function Sweep(w: World, now: int): World {
    w.(walls := Kept(w.walls, now), log := w.log + ExpiryPackets(w.walls, now))
  }

  function Removals(walls: seq<Wall>): (p: seq<Packet>)
    ensures |p| == |walls|
  {
    seq(|walls|, i requires 0 <= i < |walls| => Removed(walls[i].id))
  }

  function Clear(w: World): World {
    w.(walls := [], log := w.log + Removals(w.walls))
  }

  // ---------------------------------------------------------------- the client's view

  function Minus(ids: seq<nat>, id: nat): seq<nat> {
    if |ids| == 0 then []
    else
      var rest := Minus(ids[..|ids| - 1], id);
      if ids[|ids| - 1] == id then rest else rest + [ids[|ids| - 1]]
  }

  /** The walls a client shows after the packets, in the order they appeared. */
  function Shown(log: seq<Packet>): seq<nat> {
    if |log| == 0 then []
    else After(Shown(log[..|log| - 1]), log[|log| - 1])
  }

  function After(ids: seq<nat>, p: Packet): seq<nat> {
    match p
    case Added(id) => ids + [id]
    case Removed(id) => Minus(ids, id)
  }

  lemma ShownOneMore(log: seq<Packet>, p: Packet)
    ensures Shown(log + [p]) == After(Shown(log), p)
  {
    assert (log + [p])[..|log|] == log;
  }

  lemma {:induction false} MinusAbsent(ids: seq<nat>, id: nat)
    requires id !in ids
    ensures Minus(ids, id) == ids
  {
    if |ids| > 0 {
      MinusAbsent(ids[..|ids| - 1], id);
      assert ids == ids[..|ids| - 1] + [ids[|ids| - 1]];
    }
  }

  lemma {:induction false} MinusOne(walls: seq<Wall>, k: nat)
    requires IncreasingIds(walls) && k < |walls|
    ensures Minus(Ids(walls), walls[k].id) == Ids(Without(walls, k))
  {
    var init, last := walls[..|walls| - 1], walls[|walls| - 1];
    assert Ids(walls)[..|walls| - 1] == Ids(init);
    if k == |walls| - 1 {
      forall i | 0 <= i < |init| ensures Ids(init)[i] != last.id {
        assert init[i].id < last.id;
      }
      MinusAbsent(Ids(init), last.id);
      assert Without(walls, k) == init;
    } else {
      MinusOne(init, k);
      assert Without(walls, k) == Without(init, k) + [last];
      assert Ids(Without(walls, k)) == Ids(Without(init, k)) + [last.id];
    }
  }

  // ---------------------------------------------------------------- invariant

  ghost predicate Invariant(w: World, clock: int) {
    && IncreasingIds(w.walls)
    && (forall wall :: wall in w.walls ==> Sound(wall) && wall.id <= WallID(w.wallSeq) && wall.placedAt <= clock)
    && (forall i, j :: 0 <= i < j < |w.walls| ==> w.walls[i].placedAt <= w.walls[j].placedAt)
    && Shown(w.log) == Ids(w.walls)
  }

  ghost predicate Capped(walls: seq<Wall>) {
    forall owner :: |Of(walls, owner)| <= WALL_CAP
  }

  lemma RemoveKeepsInvariant(w: World, k: nat, clock: int)
    requires Invariant(w, clock) && k < |w.walls|
    ensures Invariant(Remove(w, k), clock)
  {
    hide Sound, WallID, Shown, After, Ids, Without;
    MinusOne(w.walls, k);
    ShownOneMore(w.log, Removed(w.walls[k].id));
    assert After(Ids(w.walls), Removed(w.walls[k].id)) == Minus(Ids(w.walls), w.walls[k].id) by {
      AfterRemoved(Ids(w.walls), w.walls[k].id);
    }
    WithoutKeepsOrder(w.walls, k);
  }

  lemma AfterRemoved(ids: seq<nat>, id: nat)
    ensures After(ids, Removed(id)) == Minus(ids, id)
  {}

  lemma WithoutKeepsOrder(walls: seq<Wall>, k: nat)
    requires k < |walls|
    ensures forall wall :: wall in Without(walls, k) ==> wall in walls
    ensures IncreasingIds(walls) ==> IncreasingIds(Without(walls, k))
    ensures (forall i, j :: 0 <= i < j < |walls| ==> walls[i].placedAt <= walls[j].placedAt)
        ==> forall i, j :: 0 <= i < j < |walls| - 1 ==>
              Without(walls, k)[i].placedAt <= Without(walls, k)[j].placedAt
  {
    var walls' := Without(walls, k);
    assert forall i :: 0 <= i < |walls'| ==> walls'[i] == walls[if i < k then i else i + 1];
  }

  /** At most one wall has to go: the placer's oldest, when three stood already. */
  lemma PlaceEffect(w: World, owner: nat, now: int, clock: int)
    requires Invariant(w, clock) && Capped(w.walls) && clock <= now && w.wallSeq + 1 < 0x100_0000
    ensures var w', wall := Place(w, owner, now), Wall(WallID(w.wallSeq + 1), owner, MAX_HP, Intact, now);
            && Invariant(w', now) && Capped(w'.walls)
            && (forall o :: o != owner ==> Of(w'.walls, o) == Of(w.walls, o))
            && Of(w'.walls, owner)
            == (if |Of(w.walls, owner)| == WALL_CAP then Of(w.walls, owner)[1..] else Of(w.walls, owner)) + [wall]
  {
    hide Of, Oldest, Invariant, Trim, WallID;
    var id := WallID(w.wallSeq + 1);
    var wall := Wall(id, owner, MAX_HP, Intact, now);
    var w1 := World(w.walls + [wall], w.wallSeq + 1, w.log + [Added(id)]);
    AppendKeepsInvariant(w, owner, now, clock);
    forall o ensures Of(w1.walls, o) == Of(w.walls, o) + if o == owner then [wall] else [] {
      OfConcat(w.walls, [wall], o);
      OfSingle(wall, o);
    }
    TrimEffect(w1, owner, now);
    assert forall o :: o != owner ==> |Of(w.walls, o)| <= WALL_CAP;
  }

  /** Trimming a list in which the owner is at most one wall above the cap. */
  lemma TrimEffect(w: World, owner: nat, clock: int)
    requires Invariant(w, clock) && |Of(w.walls, owner)| <= WALL_CAP + 1
    ensures var w' := Trim(w, owner);
            && Invariant(w', clock)
            && (forall o :: o != owner ==> Of(w'.walls, o) == Of(w.walls, o))
            && Of(w'.walls, owner)
            == if |Of(w.walls, owner)| > WALL_CAP then Of(w.walls, owner)[1..] else Of(w.walls, owner)
  {
    hide Of, Oldest, Invariant;
    if |Of(w.walls, owner)| > WALL_CAP {
      OldestExists(w.walls, owner);
      var k := Oldest(w.walls, owner);
      var w2 := Remove(w, k);
      RemoveKeepsInvariant(w, k, clock);
      forall o ensures o != owner ==> Of(w2.walls, o) == Of(w.walls, o) {
        EvictionIsFifo(w.walls, owner, k, o);
      }
      EvictionIsFifo(w.walls, owner, k, owner);
      assert Trim(w2, owner) == w2;
    }
  }

  lemma OldestExists(walls: seq<Wall>, owner: nat)
    requires |Of(walls, owner)| > 0
    ensures IsOldest(walls, owner, Oldest(walls, owner))
  {}

  lemma AppendKeepsInvariant(w: World, owner: nat, now: int, clock: int)
    requires Invariant(w, clock) && clock <= now && w.wallSeq + 1 < 0x100_0000
    ensures var id := WallID(w.wallSeq + 1);
            Invariant(World(w.walls + [Wall(id, owner, MAX_HP, Intact, now)], w.wallSeq + 1, w.log + [Added(id)]), now)
  {
    SmallId(w.wallSeq);
    SmallId(w.wallSeq + 1);
    var id := WallID(w.wallSeq + 1);
    var wall := Wall(id, owner, MAX_HP, Intact, now);
    ShownOneMore(w.log, Added(id));
    assert Ids(w.walls + [wall]) == Ids(w.walls) + [id];
  }

  lemma DamageKeepsInvariant(w: World, id: nat, damage: nat, clock: int)
    requires Invariant(w, clock) && Capped(w.walls)
    ensures Invariant(Damage(w, id, damage), clock) && Capped(Damage(w, id, damage).walls)
  {
    hide WallID, Of;
    var k := Find(w.walls, id);
    var w' := Damage(w, id, damage);
    if k != -1 {
      if |w'.walls| < |w.walls| {
        RemoveKeepsInvariant(w, k, clock);
        RemoveKeepsCap(w.walls, k);
      } else {
        assert Ids(w'.walls) == Ids(w.walls);
        UpdateKeepsCap(w.walls, k, w'.walls[k]);
      }
    }
  }

  lemma RemoveKeepsCap(walls: seq<Wall>, k: nat)
    requires Capped(walls) && k < |walls|
    ensures Capped(Without(walls, k))
  {
    forall o ensures |Of(Without(walls, k), o)| <= |Of(walls, o)| {
      assert walls == walls[..k] + ([walls[k]] + walls[k + 1..]);
      OfConcat(walls[..k], [walls[k]] + walls[k + 1..], o);
      OfConcat([walls[k]], walls[k + 1..], o);
      OfConcat(walls[..k], walls[k + 1..], o);
    }
    forall o ensures |Of(Without(walls, k), o)| <= WALL_CAP {
      assert |Of(walls, o)| <= WALL_CAP;
    }
  }

  lemma UpdateKeepsCap(walls: seq<Wall>, k: nat, wall: Wall)
    requires Capped(walls) && k < |walls| && wall.owner == walls[k].owner
    ensures Capped(walls[k := wall])
  {
    var walls' := walls[k := wall];
    forall o ensures |Of(walls', o)| == |Of(walls, o)| {
      assert walls == walls[..k] + ([walls[k]] + walls[k + 1..]);
      assert walls' == walls[..k] + ([wall] + walls[k + 1..]);
      OfConcat(walls[..k], [walls[k]] + walls[k + 1..], o);
      OfConcat(walls[..k], [wall] + walls[k + 1..], o);
      OfConcat([walls[k]], walls[k + 1..], o);
      OfConcat([wall], walls[k + 1..], o);
      OfSingle(wall, o);
      OfSingle(walls[k], o);
    }
    forall o ensures |Of(walls', o)| <= WALL_CAP {
      assert |Of(walls, o)| <= WALL_CAP;
    }
  }

  /** The walls that have outlived their time are a prefix of the list, and the sweep removes exactly it. */
  lemma {:induction false} SweepIsPrefix(w: World, now: int, clock: int) returns (k: nat)
    requires Invariant(w, clock) && clock <= now
    ensures k <= |w.walls| && Sweep(w, now) == w.(walls := w.walls[k..], log := w.log + Removals(w.walls[..k]))
    ensures forall i :: 0 <= i < |w.walls| ==> (Expired(w.walls[i], now) <==> i < k)
    decreases |w.walls|
  {
    hide Sound, WallID, Shown;
    k := 0;
    while k < |w.walls| && Expired(w.walls[k], now)
      invariant k <= |w.walls| && forall i :: 0 <= i < k ==> Expired(w.walls[i], now)
    {
      k := k + 1;
    }
    KeptIsSuffix(w.walls, now, k);
  }

  lemma NoRemovals()
    ensures Removals([]) == []
  {}

  lemma RemovalsOneMore(walls: seq<Wall>, wall: Wall)
    ensures Removals(walls + [wall]) == Removals(walls) + [Removed(wall.id)]
  {}

  lemma {:induction false} KeptIsSuffix(walls: seq<Wall>, now: int, k: nat)
    requires k <= |walls| && forall i :: 0 <= i < |walls| ==> (Expired(walls[i], now) <==> i < k)
    ensures Kept(walls, now) == walls[k..] && ExpiryPackets(walls, now) == Removals(walls[..k])
  {
    hide Expired, Removals;
    if |walls| == 0 {
      NoRemovals();
    } else {
      var init, last := walls[..|walls| - 1], walls[|walls| - 1];
      assert forall i :: 0 <= i < |init| ==> init[i] == walls[i];
      if k == |walls| {
        KeptIsSuffix(init, now, k - 1);
        assert walls[..k] == walls && init[..k - 1] == init;
        RemovalsOneMore(init, last);
        assert walls == init + [last];
        assert init[k - 1..] == [] && walls[k..] == [];
      } else {
        KeptIsSuffix(init, now, k);
        assert walls[k..] == init[k..] + [last];
        assert init[..k] == walls[..k];
      }
    }
  }

  /** Removing a prefix wall by wall. */
  lemma {:induction false} RemovePrefix(w: World, k: nat, clock: int)
    requires Invariant(w, clock) && Capped(w.walls) && k <= |w.walls|
    ensures var w' := w.(walls := w.walls[k..], log := w.log + Removals(w.walls[..k]));
            Invariant(w', clock) && Capped(w'.walls)
  {
    hide Of, Invariant, Capped;
    if k == 0 {
      assert w.walls[0..] == w.walls && w.log + Removals(w.walls[..0]) == w.log;
    } else {
      var w1 := w.(walls := w.walls[k - 1..], log := w.log + Removals(w.walls[..k - 1]));
      RemovePrefix(w, k - 1, clock);
      RemoveKeepsInvariant(w1, 0, clock);
      RemoveKeepsCap(w1.walls, 0);
      assert Without(w1.walls, 0) == w.walls[k..];
      assert Removals(w.walls[..k]) == Removals(w.walls[..k - 1]) + [Removed(w.walls[k - 1].id)];
      assert w1.log + [Removed(w.walls[k - 1].id)] == w.log + Removals(w.walls[..k]);
    }
  }

  // ---------------------------------------------------------------- whole runs

  datatype Event = PlaceEvent(owner: nat) | DamageEvent(id: nat, damage: nat) | SweepEvent | ClearEvent
  datatype Timed = Timed(event: Event, now: int)

  function Step(w: World, t: Timed): World {
    match t.event
    case PlaceEvent(owner) => Place(w, owner, t.now)
    case DamageEvent(id, damage) => Damage(w, id, damage)
    case SweepEvent => Sweep(w, t.now)
    case ClearEvent => Clear(w)
  }

  function Run(run: seq<Timed>): World {
    if |run| == 0 then EMPTY else Step(Run(run[..|run| - 1]), run[|run| - 1])
  }

  function Placements(run: seq<Timed>): nat {
    if |run| == 0 then 0 else Placements(run[..|run| - 1]) + if run[|run| - 1].event.PlaceEvent? then 1 else 0
  }

  ghost predicate InOrder(run: seq<Timed>) {
    forall i, j :: 0 <= i < j < |run| ==> run[i].now <= run[j].now
  }

  /** Over every run with fewer than 2^24 placements: ids increase along the list, every wall is sound,
      nobody has more than three, ages are ordered, and the packets replay to exactly the live walls. */
  lemma {:induction false} RunKeepsInvariant(run: seq<Timed>, clock: int)
    requires InOrder(run) && (|run| > 0 ==> run[|run| - 1].now <= clock)
    requires Placements(run) < 0x100_0000
    ensures Invariant(Run(run), clock) && Capped(Run(run).walls)
    ensures Run(run).wallSeq == Placements(run)
  {
    hide Invariant, Capped, Of, Shown, WallID;
    if |run| == 0 {
      EmptyIsSound(clock);
    } else {
      var init, t := run[..|run| - 1], run[|run| - 1];
      var w := Run(init);
      RunKeepsInvariant(init, t.now);
      StepKeepsInvariant(w, t);
      Later(Run(run), t.now, clock);
    }
  }

  lemma EmptyIsSound(clock: int)
    ensures Invariant(EMPTY, clock) && Capped(EMPTY.walls)
  {}

  lemma Later(w: World, t: int, clock: int)
    requires Invariant(w, t) && t <= clock
    ensures Invariant(w, clock)
  {
    hide Shown, Sound;
  }

  lemma StepKeepsInvariant(w: World, t: Timed)
    requires Invariant(w, t.now) && Capped(w.walls) && (t.event.PlaceEvent? ==> w.wallSeq + 1 < 0x100_0000)
    ensures Invariant(Step(w, t), t.now) && Capped(Step(w, t).walls)
    ensures Step(w, t).wallSeq == w.wallSeq + if t.event.PlaceEvent? then 1 else 0
  {
    hide Invariant, Capped, Of, Shown, WallID;
    match t.event
    case PlaceEvent(owner) =>
      PlaceEffect(w, owner, t.now, t.now);
      TrimKeepsSeq(World(w.walls + [Wall(WallID(w.wallSeq + 1), owner, MAX_HP, Intact, t.now)], w.wallSeq + 1,
                         w.log + [Added(WallID(w.wallSeq + 1))]), owner);
    case DamageEvent(id, damage) =>
      DamageKeepsInvariant(w, id, damage, t.now);
    case SweepEvent =>
      var k := SweepIsPrefix(w, t.now, t.now);
      RemovePrefix(w, k, t.now);
    case ClearEvent =>
      RemovePrefix(w, |w.walls|, t.now);
      assert w.walls[..|w.walls|] == w.walls && w.walls[|w.walls|..] == [];
  }

  lemma {:induction false} TrimKeepsSeq(w: World, owner: nat)
    ensures Trim(w, owner).wallSeq == w.wallSeq
    decreases |w.walls|
  {
    hide Of, Oldest;
    var k := Oldest(w.walls, owner);
    if |Of(w.walls, owner)| > WALL_CAP && k >= 0 {
      OldestExists(w.walls, owner);
      TrimKeepsSeq(Remove(w, k), owner);
    }
  }

  // ---------------------------------------------------------------- the handlers of gloo.go

  class WallField {
    var walls: seq<Wall>
    var wallSeq: nat
    ghost var log: seq<Packet>

    ghost function State(): World
      reads this
    {
      World(walls, wallSeq, log)
    }

    constructor ()
      ensures State() == EMPTY
    {
      walls, wallSeq, log := [], 0, [];
    }

    method NextWall() returns (id: nat)
      modifies `wallSeq
      ensures wallSeq == old(wallSeq) + 1 && id == WallID(wallSeq)
    {
      wallSeq := wallSeq + 1;
      id := wallSeq + (3 - wallSeq / 0x100_0000 % 4) * 0x100_0000;
    }

    /** wallByID, as an index. */
    method WallByID(id: nat) returns (k: int)
      ensures k == Find(walls, id)
    {
      k := 0;
      while k < |walls|
        invariant 0 <= k <= |walls|
        invariant Find(walls, id) == if Find(walls[k..], id) == -1 then -1 else Find(walls[k..], id) + k
      {
        if walls[k].id == id {
          return;
        }
        assert walls[k..][1..] == walls[k + 1..];
        k := k + 1;
      }
      k := -1;
    }

    method OwnerWallCount(owner: nat) returns (n: nat)
      ensures n == |Of(walls, owner)|
    {
      n := 0;
      for i := 0 to |walls|
        invariant n == |Of(walls[..i], owner)|
      {
        assert walls[..i + 1][..i] == walls[..i];
        if walls[i].owner == owner {
          n := n + 1;
        }
      }
      assert walls[..|walls|] == walls;
    }

    /** Removes the owner's oldest wall, if it has one, and returns its id. */
    method PopOldestWall(owner: nat) returns (popped: bool, id: nat)
      modifies `walls
      ensures var k := Oldest(old(walls), owner);
              && popped == (k >= 0)
              && if popped then id == old(walls)[k].id && walls == Without(old(walls), k) else walls == old(walls)
    {
      var i := 0;
      while i < |walls|
        invariant 0 <= i <= |walls| && forall j :: 0 <= j < i ==> walls[j].owner != owner
      {
        if walls[i].owner == owner {
          OldestIsFirst(walls, owner, i);
          id := walls[i].id;
          walls := walls[..i] + walls[i + 1..];
          return true, id;
        }
        i := i + 1;
      }
      return false, 0;
    }

    /** handlePlaceIcewall behind the inventory check. */
    method HandlePlaceIcewall(owner: nat, now: int)
      modifies this
      ensures State() == Place(old(State()), owner, now)
    {
      hide Of, Oldest, WallID;
      var id := NextWall();
      walls := walls + [Wall(id, owner, MAX_HP, Intact, now)];
      log := log + [Added(id)];
      ghost var target := Trim(State(), owner);
      var n := OwnerWallCount(owner);
      while n > WALL_CAP
        invariant n == |Of(walls, owner)| && Trim(State(), owner) == target
        decreases |walls|
      {
        OldestExists(walls, owner);
        var popped, gone := PopOldestWall(owner);
        log := log + [Removed(gone)];
        n := OwnerWallCount(owner);
      }
    }

    method RemoveWallByID(id: nat)
      modifies `walls
      ensures var k := Find(old(walls), id);
              walls == if k == -1 then old(walls) else Without(old(walls), k)
    {
      var k := WallByID(id);
      if k >= 0 {
        walls := walls[..k] + walls[k + 1..];
      }
    }

    method HandleIcewallDamage(id: nat, damage: nat)
      modifies this
      ensures State() == Damage(old(State()), id, damage)
    {
      var k := WallByID(id);
      if k == -1 {
        return;
      }
      var dmg := damage % 0x1_0000;
      if dmg == 0 {
        dmg := 25;
      }
      var w := walls[k];
      if dmg >= w.hp {
        walls := walls[k := w.(hp := 0)];
      } else {
        walls := walls[k := w.(hp := w.hp - dmg)];
      }
      FindAfterUpdate(old(walls), walls, id, k);
      if walls[k].hp == 0 {
        assert Without(walls, k) == Without(old(walls), k);
        RemoveWallByID(id);
        log := log + [Removed(id)];
      } else {
        walls := walls[k := walls[k].(state := StateForHP(walls[k].hp))];
      }
    }

    method SweepWalls(now: int)
      modifies this
      ensures State() == Sweep(old(State()), now)
    {
      ghost var out: seq<Packet> := [];
      var kept: seq<Wall> := [];
      for i := 0 to |walls|
        invariant walls == old(walls) && log == old(log)
        invariant kept == Kept(walls[..i], now) && out == ExpiryPackets(walls[..i], now)
      {
        assert walls[..i + 1][..i] == walls[..i];
        if now - walls[i].placedAt >= LIFETIME {
          out := out + [Removed(walls[i].id)];
        } else {
          kept := kept + [walls[i]];
        }
      }
      assert walls[..|walls|] == walls;
      walls := kept;
      log := log + out;
    }

    method ClearWalls()
      modifies this
      ensures State() == Clear(old(State()))
    {
      ghost var out: seq<Packet> := [];
      for i := 0 to |walls|
        invariant walls == old(walls) && log == old(log) && wallSeq == old(wallSeq)
        invariant out == Removals(walls[..i])
      {
        out := out + [Removed(walls[i].id)];
        assert out == Removals(walls[..i + 1]);
      }
      assert walls[..|walls|] == walls;
      walls := [];
      log := log + out;
    }
  }

  lemma OldestIsFirst(walls: seq<Wall>, owner: nat, k: nat)
    requires IsOldest(walls, owner, k)
    ensures Oldest(walls, owner) == k
  {
    OfNone(walls, owner);
    var j := Oldest(walls, owner);
    assert walls[k].owner == owner;
  }

  lemma {:induction false} FindAfterUpdate(walls: seq<Wall>, walls': seq<Wall>, id: nat, k: nat)
    requires k < |walls| == |walls'| && Find(walls, id) == k
    requires forall i :: 0 <= i < |walls| ==> walls'[i].id == walls[i].id
    ensures Find(walls', id) == k
  {
    if k > 0 {
      FindAfterUpdate(walls[1..], walls'[1..], id, k - 1);
    }
  }
}
