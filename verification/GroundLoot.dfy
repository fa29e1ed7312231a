/** Loose items on the ground: the container part of match-server/loot.go. Positions are millimetres. */
module GroundLoot {
  import opened Items

  const BASE_ID: nat := 40000
  const MAX_ID: nat := 65535
  const BAND: nat := 25536

  /** One and a half metres, squared. */
  const MERGE: int := 1500 * 1500

  datatype Pos = Pos(x: int, y: int, z: int)
  datatype Box = Box(id: nat, pos: Pos, items: seq<Item>)

  /** The live boxes, the next id, and how many ids have been given out. */
  datatype Ground = Ground(boxes: map<nat, Box>, next: nat, allocs: nat)

  function Dist2(a: Pos, b: Pos): int {
    (a.x - b.x) * (a.x - b.x) + (a.y - b.y) * (a.y - b.y) + (a.z - b.z) * (a.z - b.z)
  }

  const BARE: Ground := Ground(map[], BASE_ID, 0)

  // ---------------------------------------------------------------- operations

  /** The id after this one, wrapping inside the band. */
  function NextId(id: nat): nat {
    if id + 1 > MAX_ID then BASE_ID else id + 1
  }

  /** The box an item merges into: a nearest one within the radius, or 0 when there is none. */
  ghost predicate Merges(g: Ground, pos: Pos, into: nat) {
    if into in g.boxes then
      && Dist2(g.boxes[into].pos, pos) <= MERGE
      && forall id :: id in g.boxes ==> Dist2(g.boxes[into].pos, pos) <= Dist2(g.boxes[id].pos, pos)
    else
      into == 0 && forall id :: id in g.boxes ==> Dist2(g.boxes[id].pos, pos) > MERGE
  }

  /** Two items that lie the given steps apart share a box exactly when the way between them is no longer than
      one and a half metres; along any one axis that is 1500 millimetres either way. */
  lemma MergeRadius(p: Pos, dx: int, dy: int, dz: int)
    ensures Dist2(p, Pos(p.x + dx, p.y + dy, p.z + dz)) <= MERGE <==> dx * dx + dy * dy + dz * dz <= 2_250_000
    ensures Dist2(p, Pos(p.x + dx, p.y, p.z)) <= MERGE <==> -1500 <= dx <= 1500
    ensures Dist2(p, Pos(p.x, p.y + dy, p.z)) <= MERGE <==> -1500 <= dy <= 1500
    ensures Dist2(p, Pos(p.x, p.y, p.z + dz)) <= MERGE <==> -1500 <= dz <= 1500
  {
    SquareBelow(dx);
    SquareBelow(dy);
    SquareBelow(dz);
    assert Dist2(p, Pos(p.x + dx, p.y + dy, p.z + dz)) == dx * dx + dy * dy + dz * dz;
  }

  lemma SquareBelow(d: int)
    ensures d * d <= 1500 * 1500 <==> -1500 <= d <= 1500
  {
    if d > 1500 {
      assert d * d >= 1501 * d;
    } else if d < -1500 {
      assert d * d == (-d) * (-d) && (-d) * (-d) >= 1501 * (-d);
    } else {
      assert (1500 - d) * (1500 + d) >= 0;
    }
  }

  function DropTo(g: Ground, it: Item, pos: Pos, into: nat): Ground {
    if it.unique == 0 && it.data == 0 then g
    else if into in g.boxes then
      g.(boxes := g.boxes[into := g.boxes[into].(items := g.boxes[into].items + [it])])
    else
      Ground(g.boxes[g.next := Box(g.next, pos, [it])], NextId(g.next), g.allocs + 1)
  }

  function Without(items: seq<Item>, unique: nat): seq<Item> {
    if |items| == 0 then []
    else
      var rest := Without(items[..|items| - 1], unique);
      if items[|items| - 1].unique == unique then rest else rest + [items[|items| - 1]]
  }

  function TakeFrom(g: Ground, id: nat, unique: nat): Ground
    requires id in g.boxes
  {
    g.(boxes := g.boxes[id := g.boxes[id].(items := Without(g.boxes[id].items, unique))])
  }

  /** The handler keeps a pointer to the box it took from, and deletes that box's id when the box is left
      empty: a gun that fell into the same box keeps it, one that was given its id does not. */
  function Close(g: Ground, id: nat, emptied: bool): Ground {
    if emptied then g.(boxes := g.boxes - {id}) else g
  }

  // ---------------------------------------------------------------- what is kept

  ghost predicate Lies(g: Ground, id: nat, i: nat, unique: nat) {
    id in g.boxes && i < |g.boxes[id].items| && g.boxes[id].items[i].unique == unique
  }

  ghost predicate OnGround(g: Ground, unique: nat) {
    exists id, i :: Lies(g, id, i, unique)
  }

  /** Boxes are keyed by their own id, inside the band, and so is the next one. */
  ghost predicate Keyed(g: Ground) {
    && BASE_ID <= g.next <= MAX_ID
    && forall id :: id in g.boxes ==> g.boxes[id].id == id && BASE_ID <= id <= MAX_ID
  }

  /** The next id follows from the number given out; until they have all been, it lies above the rest. */
  ghost predicate Counted(g: Ground) {
    && g.next == NthId(g.allocs)
    && (g.allocs < BAND ==> forall id :: id in g.boxes ==> id < g.next)
  }

  ghost predicate Apart(g: Ground) {
    forall a, b :: a in g.boxes && b in g.boxes && a != b ==> Dist2(g.boxes[a].pos, g.boxes[b].pos) > MERGE
  }

  /** Every unique lies in one place. */
  ghost predicate Once(g: Ground) {
    forall a, i, b, j, u :: Lies(g, a, i, u) && Lies(g, b, j, u) ==> a == b && i == j
  }

  ghost predicate FilledBut(g: Ground, open: nat) {
    forall id :: id in g.boxes && id != open ==> |g.boxes[id].items| > 0
  }

  /** All of it, where one box may stand empty while an item changes hands. */
  ghost predicate Orderly(g: Ground, open: nat) {
    Keyed(g) && Counted(g) && Apart(g) && Once(g) && FilledBut(g, open)
  }

  // ---------------------------------------------------------------- ids

  /** The id of the n-th box, counting from nothing. */
  function NthId(n: nat): nat {
    BASE_ID + n % BAND
  }

  function IdAfter(n: nat): nat {
    if n == 0 then BASE_ID else NextId(IdAfter(n - 1))
  }

  lemma {:induction false} IdsCycle(n: nat)
    ensures IdAfter(n) == NthId(n) && BASE_ID <= IdAfter(n) <= MAX_ID
  {
    if n > 0 {
      IdsCycle(n - 1);
    }
  }

  /** Two boxes get the same id exactly when their numbers differ by a multiple of the band. */
  lemma IdsCollide(m: nat, n: nat)
    requires m <= n
    ensures IdAfter(m) == IdAfter(n) <==> (n - m) % BAND == 0
  {
    hide IdAfter;
    IdsCycle(m);
    IdsCycle(n);
    SameRemainder(n / BAND - m / BAND, n - m, n % BAND - m % BAND);
  }

  lemma SameRemainder(q: int, d: int, r: int)
    requires d == q * BAND + r && 0 < r + BAND && r < BAND
    ensures d % BAND == 0 <==> r == 0
  {
    var e: int := d / BAND;
    assert d == e * BAND + d % BAND;
  }

  // ---------------------------------------------------------------- dropping

  /** The item merges into a box, or the id of its new box is not in use. */
  predicate Room(g: Ground, into: nat) {
    into in g.boxes || g.next !in g.boxes
  }

  /** The first 25536 boxes always find room. */
  lemma RoomWhileFew(g: Ground, into: nat)
    requires Counted(g) && g.allocs < BAND
    ensures Room(g, into)
  {}

  lemma DropLies(g: Ground, it: Item, pos: Pos, into: nat)
    requires it.unique != 0
    ensures var g' := DropTo(g, it, pos, into);
            && (Room(g, into) ==> forall id, i, u :: Lies(g, id, i, u) ==> Lies(g', id, i, u))
            && (forall id, i, u :: Lies(g', id, i, u) && !Lies(g, id, i, u) ==>
                  u == it.unique && id == (if into in g.boxes then into else g.next)
                  && i == (if into in g.boxes then |g.boxes[into].items| else 0))
            && OnGround(g', it.unique)
  {
    hide Dist2;
    var g' := DropTo(g, it, pos, into);
    if into in g.boxes {
      assert Lies(g', into, |g.boxes[into].items|, it.unique);
    } else {
      assert Lies(g', g.next, 0, it.unique);
    }
  }

  lemma DropKeepsApart(g: Ground, it: Item, pos: Pos, into: nat)
    requires Apart(g) && Merges(g, pos, into)
    ensures Apart(DropTo(g, it, pos, into))
  {
    if into !in g.boxes {
      assert forall id :: id in g.boxes ==> Dist2(g.boxes[id].pos, pos) > MERGE;
      assert forall p :: Dist2(pos, p) == Dist2(p, pos);
    }
  }

  lemma DropKeepsOnce(g: Ground, it: Item, pos: Pos, into: nat)
    requires Once(g) && !OnGround(g, it.unique) && it.unique != 0
    ensures Once(DropTo(g, it, pos, into))
  {
    hide DropTo;
    DropLies(g, it, pos, into);
  }

  lemma DropKeepsKeyed(g: Ground, it: Item, pos: Pos, into: nat)
    requires Keyed(g) && Counted(g)
    ensures Keyed(DropTo(g, it, pos, into)) && Counted(DropTo(g, it, pos, into))
  {}

  /** An item that is nowhere yet may be dropped anywhere. Nothing else comes to lie on the ground. */
  lemma DropKeeps(g: Ground, it: Item, pos: Pos, into: nat, open: nat)
    requires Orderly(g, open) && Merges(g, pos, into) && it.unique != 0 && !OnGround(g, it.unique)
    ensures Orderly(DropTo(g, it, pos, into), open)
    ensures forall u :: OnGround(DropTo(g, it, pos, into), u) ==> OnGround(g, u) || u == it.unique
  {
    hide Merges, Apart, Once, Lies;
    DropKeepsKeyed(g, it, pos, into);
    DropKeepsApart(g, it, pos, into);
    DropKeepsOnce(g, it, pos, into);
    DropLies(g, it, pos, into);
    forall u | OnGround(DropTo(g, it, pos, into), u) ensures OnGround(g, u) || u == it.unique {
      var id, i :| Lies(DropTo(g, it, pos, into), id, i, u);
      assert Lies(g, id, i, u) || u == it.unique;
    }
  }

  /** A drop leaves everything that lay there exactly when there is room: otherwise it takes the place of
      the box whose id comes round again. */
  lemma DropLosesNothing(g: Ground, it: Item, pos: Pos, into: nat)
    requires Orderly(g, 0) && it.unique != 0 && !OnGround(g, it.unique)
    ensures (forall u :: OnGround(g, u) ==> OnGround(DropTo(g, it, pos, into), u)) <==> Room(g, into)
  {
    hide Apart, FilledBut, DropTo;
    var g' := DropTo(g, it, pos, into);
    DropLies(g, it, pos, into);
    if Room(g, into) {
      forall u | OnGround(g, u) ensures OnGround(g', u) {
        var id, i :| Lies(g, id, i, u);
        assert Lies(g', id, i, u);
      }
    } else {
      Overwritten(g, it, pos, into);
    }
  }

  lemma Overwritten(g: Ground, it: Item, pos: Pos, into: nat)
    requires Orderly(g, 0) && it.unique != 0 && !OnGround(g, it.unique) && !Room(g, into)
    ensures exists u :: OnGround(g, u) && !OnGround(DropTo(g, it, pos, into), u)
  {
    hide Apart;
    var u := g.boxes[g.next].items[0].unique;
    assert Lies(g, g.next, 0, u);
    assert OnGround(g, u);
    var g' := DropTo(g, it, pos, into);
    forall id: nat, i: nat ensures !Lies(g', id, i, u) {
      assert Lies(g', id, i, u) && id != g.next ==> Lies(g, id, i, u);
    }
  }

  // ---------------------------------------------------------------- taking

  lemma {:induction false} WithoutMembers(items: seq<Item>, unique: nat)
    ensures forall x :: x in Without(items, unique) <==> x in items && x.unique != unique
  {
    if |items| > 0 {
      WithoutMembers(items[..|items| - 1], unique);
      assert items == items[..|items| - 1] + [items[|items| - 1]];
    }
  }

  ghost predicate AllDifferent(items: seq<Item>) {
    forall i, j :: 0 <= i < j < |items| ==> items[i].unique != items[j].unique
  }

  lemma {:induction false} WithoutStaysDifferent(items: seq<Item>, unique: nat)
    requires AllDifferent(items)
    ensures AllDifferent(Without(items, unique))
  {
    if |items| > 0 {
      var init, last := items[..|items| - 1], items[|items| - 1];
      WithoutStaysDifferent(init, unique);
      WithoutMembers(init, unique);
      forall x | x in Without(init, unique) ensures x.unique != last.unique {
        var i :| 0 <= i < |init| && init[i] == x;
      }
    }
  }

  lemma OnceIsDifferent(g: Ground, id: nat)
    requires Once(g) && id in g.boxes
    ensures AllDifferent(g.boxes[id].items)
  {
    var items := g.boxes[id].items;
    forall i, j | 0 <= i < j < |items| ensures items[i].unique != items[j].unique {
      assert Lies(g, id, i, items[i].unique) && Lies(g, id, j, items[j].unique);
    }
  }

  /** Where an item lies after another was taken, it lay in the same box before. */
  lemma TakeLies(g: Ground, id: nat, unique: nat, a: nat, i: nat, u: nat)
    requires id in g.boxes && Lies(TakeFrom(g, id, unique), a, i, u)
    ensures exists j :: Lies(g, a, j, u)
    ensures a == id ==> u != unique
  {
    if a == id {
      WithoutMembers(g.boxes[id].items, unique);
      var x := Without(g.boxes[id].items, unique)[i];
      assert x in g.boxes[id].items;
      var j :| 0 <= j < |g.boxes[id].items| && g.boxes[id].items[j] == x;
      assert Lies(g, id, j, u);
    } else {
      assert Lies(g, a, i, u);
    }
  }

  lemma TakeKeepsOnce(g: Ground, id: nat, unique: nat)
    requires Once(g) && id in g.boxes
    ensures Once(TakeFrom(g, id, unique))
  {
    var g' := TakeFrom(g, id, unique);
    OnceIsDifferent(g, id);
    WithoutStaysDifferent(g.boxes[id].items, unique);
    forall a, i, b, j, u | Lies(g', a, i, u) && Lies(g', b, j, u) ensures a == b && i == j {
      TakeLies(g, id, unique, a, i, u);
      TakeLies(g, id, unique, b, j, u);
      var i0 :| Lies(g, a, i0, u);
      var j0 :| Lies(g, b, j0, u);
      if a == id {
        SamePlace(g'.boxes[id].items, i, j);
      } else {
        assert Lies(g, a, i, u) && Lies(g, a, j, u);
      }
    }
  }

  lemma SamePlace(items: seq<Item>, i: nat, j: nat)
    requires AllDifferent(items) && i < |items| && j < |items| && items[i].unique == items[j].unique
    ensures i == j
  {}

  /** A taken item is gone, everything else stays, and at most the box it came from is left empty. */
  lemma TakeKeeps(g: Ground, id: nat, unique: nat)
    requires Orderly(g, 0) && id in g.boxes && exists i :: Lies(g, id, i, unique)
    ensures Orderly(TakeFrom(g, id, unique), id)
    ensures forall u :: OnGround(TakeFrom(g, id, unique), u) <==> OnGround(g, u) && u != unique
  {
    hide Without, Once, OnGround, Dist2;
    TakeKeepsOnce(g, id, unique);
    forall u ensures OnGround(TakeFrom(g, id, unique), u) <==> OnGround(g, u) && u != unique {
      TakeLeaves(g, id, unique, u);
    }
  }

  lemma TakeLeaves(g: Ground, id: nat, unique: nat, u: nat)
    requires Once(g) && id in g.boxes && exists i :: Lies(g, id, i, unique)
    ensures OnGround(TakeFrom(g, id, unique), u) <==> OnGround(g, u) && u != unique
  {
    hide TakeFrom, Once, Lies;
    if OnGround(TakeFrom(g, id, unique), u) {
      TakenIsGone(g, id, unique, u);
    }
    if OnGround(g, u) && u != unique {
      var a, i :| Lies(g, a, i, u);
      StaysSomewhere(g, id, unique, a, i, u);
    }
  }

  lemma TakenIsGone(g: Ground, id: nat, unique: nat, u: nat)
    requires Once(g) && id in g.boxes && exists i :: Lies(g, id, i, unique)
    requires OnGround(TakeFrom(g, id, unique), u)
    ensures OnGround(g, u) && u != unique
  {
    hide Without, Once, TakeFrom;
    var a, i :| Lies(TakeFrom(g, id, unique), a, i, u);
    TakeLies(g, id, unique, a, i, u);
    var j :| Lies(g, a, j, u);
    var k :| Lies(g, id, k, unique);
    OnceAt(g, a, j, id, k, u);
  }

  lemma OnceAt(g: Ground, a: nat, i: nat, b: nat, j: nat, u: nat)
    requires Once(g)
    ensures Lies(g, a, i, u) && Lies(g, b, j, u) ==> a == b && i == j
  {}

  lemma StaysSomewhere(g: Ground, id: nat, unique: nat, a: nat, i: nat, u: nat)
    requires id in g.boxes && Lies(g, a, i, u) && u != unique
    ensures OnGround(TakeFrom(g, id, unique), u)
  {
    var g' := TakeFrom(g, id, unique);
    if a == id {
      WithoutMembers(g.boxes[id].items, unique);
      var rest := Without(g.boxes[id].items, unique);
      assert g.boxes[id].items[i] in rest;
      var j :| 0 <= j < |rest| && rest[j] == g.boxes[id].items[i];
      assert Lies(g', id, j, u);
    } else {
      assert Lies(g', a, i, u);
    }
  }

  /** No box is left empty, and what lay under the closed id is gone. */
  lemma CloseKeeps(g: Ground, id: nat, emptied: bool)
    requires Orderly(g, id) && (!emptied && id in g.boxes ==> |g.boxes[id].items| > 0)
    ensures Orderly(Close(g, id, emptied), 0)
    ensures forall u :: OnGround(Close(g, id, emptied), u) <==> exists a, i :: Lies(g, a, i, u) && !(emptied && a == id)
  {
    hide Dist2;
    var g' := Close(g, id, emptied);
    assert forall a, i, u :: Lies(g', a, i, u) <==> Lies(g, a, i, u) && !(emptied && a == id);
  }

  // ---------------------------------------------------------------- totals

  function Amount(items: seq<Item>, data: nat): nat {
    if |items| == 0 then 0 else Amount(items[..|items| - 1], data) + CountOf(items[|items| - 1], data)
  }

  ghost function BoxWeights(g: Ground, data: nat): map<nat, nat> {
    map id | id in g.boxes :: Amount(g.boxes[id].items, data)
  }

  ghost function Lying(g: Ground, data: nat): nat {
    Sum(BoxWeights(g, data))
  }

  lemma AmountOneMore(items: seq<Item>, it: Item, data: nat)
    ensures Amount(items + [it], data) == Amount(items, data) + CountOf(it, data)
  {
    assert (items + [it])[..|items|] == items;
  }

  /** What a drop destroys of an item. */
  function Lost(g: Ground, into: nat, data: nat): nat {
    if Room(g, into) then 0 else Amount(g.boxes[g.next].items, data)
  }

  lemma DropAdds(g: Ground, it: Item, pos: Pos, into: nat, data: nat)
    requires it.unique != 0
    ensures Lying(DropTo(g, it, pos, into), data) == Lying(g, data) + CountOf(it, data) - Lost(g, into, data)
  {
    hide Sum, CountOf, Amount;
    var g' := DropTo(g, it, pos, into);
    var id := if into in g.boxes then into else g.next;
    var items := if into in g.boxes then g.boxes[into].items else [];
    AmountOneMore(items, it, data);
    AmountNone(data);
    assert [] + [it] == [it];
    SumPut(BoxWeights(g, data), id, Amount(items + [it], data));
    assert BoxWeights(g', data) == BoxWeights(g, data)[id := Amount(items + [it], data)];
  }

  lemma AmountNone(data: nat)
    ensures Amount([], data) == 0
  {}

  lemma {:induction false} WithoutAmount(items: seq<Item>, i: nat, data: nat)
    requires AllDifferent(items) && i < |items|
    ensures Amount(Without(items, items[i].unique), data) == Amount(items, data) - CountOf(items[i], data)
    ensures Amount(items, data) >= CountOf(items[i], data)
  {
    hide CountOf;
    var u := items[i].unique;
    var init, last := items[..|items| - 1], items[|items| - 1];
    if i == |items| - 1 {
      WithoutNone(init, u);
    } else {
      WithoutAmount(init, i, data);
      AmountOneMore(Without(init, u), last, data);
    }
  }

  lemma {:induction false} WithoutNone(items: seq<Item>, unique: nat)
    requires forall i :: 0 <= i < |items| ==> items[i].unique != unique
    ensures Without(items, unique) == items
  {
    if |items| > 0 {
      WithoutNone(items[..|items| - 1], unique);
    }
  }

  lemma TakeSubtracts(g: Ground, id: nat, i: nat, data: nat)
    requires Once(g) && id in g.boxes && i < |g.boxes[id].items|
    ensures var it := g.boxes[id].items[i];
            Lying(TakeFrom(g, id, it.unique), data) == Lying(g, data) - CountOf(it, data)
  {
    hide Sum, CountOf, Without, Amount;
    var it := g.boxes[id].items[i];
    OnceIsDifferent(g, id);
    WithoutAmount(g.boxes[id].items, i, data);
    var left := Amount(Without(g.boxes[id].items, it.unique), data);
    SumPut(BoxWeights(g, data), id, left);
    assert BoxWeights(TakeFrom(g, id, it.unique), data) == BoxWeights(g, data)[id := left];
  }

  lemma CloseSubtracts(g: Ground, id: nat, emptied: bool, data: nat)
    ensures Lying(Close(g, id, emptied), data)
         == Lying(g, data) - if emptied && id in g.boxes then Amount(g.boxes[id].items, data) else 0
  {
    hide Sum, Amount;
    if emptied {
      SumDrop(BoxWeights(g, data), id);
      assert BoxWeights(Close(g, id, emptied), data) == BoxWeights(g, data) - {id};
    }
  }
}
