/** One player's belongings over whole runs: the indexes of the loadout agree, no unique is in two places, and
    the boxes on the ground stay in order. */
module Belongings {
  import opened Items
  import opened GroundLoot
  import opened Loadout
  import opened Deeds
  import opened LoadoutRuns

  // ---------------------------------------------------------------- what is kept

  ghost predicate RealGround(g: Ground) {
    forall id: nat, i: nat, u: nat :: Lies(g, id, i, u) ==> Real(g.boxes[id].items[i])
  }

  /** What lies on the ground is nobody's, and has been numbered. */
  ghost predicate Disjoint(k: Kit) {
    forall u: nat :: OnGround(k.ground, u) ==> u !in k.bag.tracked && 0 < u <= k.bag.lastUid
  }

  ghost predicate InOrder(cat: Catalogue, k: Kit) {
    Agree(cat, k.bag) && Orderly(k.ground, 0) && RealGround(k.ground) && Disjoint(k)
  }

  ghost predicate Allowed(shop: Shop, k: Kit, d: Deed) {
    Possible(k, d) && Guarded(shop.cat, k.bag, d)
  }

  /** The choices Go makes, and wear that takes something away. */
  ghost predicate Possible(k: Kit, d: Deed) {
    match d
    case Buying(data, qty, mounts, dup, pos, into) =>
      IsDup(k.bag.tracked, data, 0, dup) && Merges(k.ground, pos, into)
    case PickingUp(unique, mounts, dup, pos, into) =>
      OnGround(k.ground, unique) ==>
        && IsDup(k.bag.tracked, ItemOn(k.ground, unique).data, unique, dup)
        && Merges(k.ground, pos, into)
    case Dropping(unique, pos, into) => Merges(k.ground, pos, into)
    case Wearing(slot, left) => (slot == VEST || slot == HELMET) && left < DurOf(k.bag, slot)
    case Walling(dup, unlimited) => IsDup(k.bag.tracked, GLOO, 0, dup)
    case Refilling(dup) => IsDup(k.bag.tracked, MEDKIT, 0, dup)
    case _ => true
  }

  ghost function ItemOn(g: Ground, unique: nat): Item
    requires OnGround(g, unique)
  {
    var p := Place(g, unique);
    g.boxes[p.0].items[p.1]
  }

  // ---------------------------------------------------------------- the ground under a deed

  lemma DropReal(g: Ground, it: Item, pos: Pos, into: nat)
    requires RealGround(g) && Real(it) && it.unique != 0
    ensures RealGround(DropTo(g, it, pos, into))
  {
    hide Real;
    var g' := DropTo(g, it, pos, into);
    forall id: nat, i: nat, u: nat | Lies(g', id, i, u) ensures Real(g'.boxes[id].items[i]) {
      assert Lies(g, id, i, u) || g'.boxes[id].items[i] == it;
    }
  }

  lemma TakeReal(g: Ground, id: nat, unique: nat)
    requires RealGround(g) && id in g.boxes
    ensures RealGround(TakeFrom(g, id, unique))
  {
    hide Real;
    var g' := TakeFrom(g, id, unique);
    WithoutMembers(g.boxes[id].items, unique);
    forall a: nat, i: nat, u: nat | Lies(g', a, i, u) ensures Real(g'.boxes[a].items[i]) {
      if a == id {
        assert g'.boxes[id].items[i] in Without(g.boxes[id].items, unique);
        var j :| 0 <= j < |g.boxes[id].items| && g.boxes[id].items[j] == g'.boxes[id].items[i];
        assert Lies(g, id, j, u);
      } else {
        assert Lies(g, a, i, u);
      }
    }
  }

  lemma CloseReal(g: Ground, id: nat, emptied: bool)
    requires RealGround(g)
    ensures RealGround(Close(g, id, emptied))
  {
    hide Real;
    var g' := Close(g, id, emptied);
    assert forall a: nat, i: nat, u: nat :: Lies(g', a, i, u) ==> Lies(g, a, i, u);
  }

  /** The ground after a held item fell on it. */
  lemma DropInOrder(g: Ground, it: Item, pos: Pos, into: nat, open: nat)
    requires Orderly(g, open) && RealGround(g) && Merges(g, pos, into)
    requires it.unique != 0 && Real(it) && !OnGround(g, it.unique)
    ensures var g' := DropTo(g, it, pos, into);
            && Orderly(g', open) && RealGround(g')
            && forall u: nat :: OnGround(g', u) ==> OnGround(g, u) || u == it.unique
  {
    hide DropTo, Merges, Apart, Once, FilledBut, RealGround, OnGround, Real;
    DropKeeps(g, it, pos, into, open);
    DropReal(g, it, pos, into);
  }

  lemma TakenMerges(g: Ground, id: nat, unique: nat, pos: Pos, into: nat)
    requires id in g.boxes && Merges(g, pos, into)
    ensures Merges(TakeFrom(g, id, unique), pos, into)
  {
    hide Without, Dist2;
    var g' := TakeFrom(g, id, unique);
    assert forall a :: a in g.boxes <==> a in g'.boxes;
    assert forall a :: a in g.boxes ==> g'.boxes[a].pos == g.boxes[a].pos;
  }

  // ---------------------------------------------------------------- one deed

  lemma DisjointAfter(k: Kit, k': Kit)
    requires Disjoint(k) && k'.ground == k.ground && k'.bag.lastUid >= k.bag.lastUid
    requires forall u :: u in k'.bag.tracked ==> u in k.bag.tracked || u > k.bag.lastUid
    ensures Disjoint(k')
  {}

  lemma SeededAgrees(cat: Catalogue, b: Bag, data: nat)
    requires Agree(cat, b)
    ensures Agree(cat, Seeded(b, data)) && Seeded(b, data).tracked == b.tracked && Seeded(b, data).lastUid == b.lastUid
  {
    hide Agree, MaxDur, ArmorSlot;
    HandsAgree(cat, b, b.onHand, b.beforeGloo, Seeded(b, data).vestDur, Seeded(b, data).helmetDur);
  }

  lemma BuyKeeps(shop: Shop, k: Kit, data: nat, qty: nat, mounts: nat, dup: nat, pos: Pos, into: nat)
    requires InOrder(shop.cat, k) && Stocked(shop.cat)
    requires IsDup(k.bag.tracked, data, 0, dup) && Merges(k.ground, pos, into)
    ensures InOrder(shop.cat, Buy(shop, k, data, qty, mounts, dup, pos, into))
       <==> Guarded(shop.cat, k.bag, Buying(data, qty, mounts, dup, pos, into))
  {
    hide Agree, Orderly, RealGround, BuyGun, BuyStack, PlacementOf, BoughtSlot, DropTo, Merges, Stocked, OnGround,
         Seeded, IsDup, StackFits;
    if data in shop.cat && data != MUSHROOM {
      if PlacementOf(shop.cat, data).isWeapon {
        var slot := BoughtSlot(k.bag, PlacementOf(shop.cat, data));
        BuyGunAgrees(shop, k.bag, data, mounts);
        SeededAgrees(shop.cat, BuyGun(shop, k.bag, data, mounts), data);
        if slot in k.bag.weapons {
          WeaponIsTracked(shop.cat, k.bag, slot);
          LootIsReal(shop, k.bag.weapons[slot]);
          DropInOrder(k.ground, Loot(shop, k.bag.weapons[slot]), pos, into, 0);
        }
      } else {
        BuyStackAgrees(shop, k.bag, data, if qty == 0 then 1 else qty, dup);
        DisjointAfter(k, Buy(shop, k, data, qty, mounts, dup, pos, into));
      }
    }
  }

  /** The picked item, where it lies. */
  lemma PickedIs(k: Kit, unique: nat)
    requires OnGround(k.ground, unique) && RealGround(k.ground) && Disjoint(k)
    ensures var p := Place(k.ground, unique);
            var it := ItemOn(k.ground, unique);
            && Lies(k.ground, p.0, p.1, unique) && it.unique == unique && Real(it)
            && unique !in k.bag.tracked && 0 < unique <= k.bag.lastUid
            && it == k.ground.boxes[p.0].items[p.1] && p.0 in k.ground.boxes
  {
    hide Real;
    var p := Place(k.ground, unique);
    assert Lies(k.ground, p.0, p.1, unique);
  }

  lemma TakeInOrder(g: Ground, id: nat, i: nat, unique: nat)
    requires Orderly(g, 0) && RealGround(g) && Lies(g, id, i, unique)
    ensures var g' := TakeFrom(g, id, unique);
            && Orderly(g', id) && RealGround(g') && g'.next == g.next
            && (forall a :: a in g'.boxes <==> a in g.boxes)
            && forall u: nat :: OnGround(g', u) <==> OnGround(g, u) && u != unique
  {
    hide Orderly, RealGround, Without;
    TakeKeeps(g, id, unique);
    TakeReal(g, id, unique);
  }

  lemma CloseInOrder(g: Ground, id: nat, emptied: bool)
    requires Orderly(g, id) && RealGround(g) && (!emptied && id in g.boxes ==> |g.boxes[id].items| > 0)
    ensures Orderly(Close(g, id, emptied), 0) && RealGround(Close(g, id, emptied))
    ensures forall u: nat :: OnGround(Close(g, id, emptied), u) ==> OnGround(g, u)
  {
    hide Orderly, RealGround;
    CloseKeeps(g, id, emptied);
    CloseReal(g, id, emptied);
  }

  /** The box of the pick holds something when the handler keeps it. */
  lemma KeptIsFilled(shop: Shop, g: Ground, b: Bag, slot: nat, pos: Pos, into: nat, id: nat)
    requires id in g.boxes && (slot in b.weapons ==> b.weapons[slot].unique != 0)
    ensures var emptied := |g.boxes[id].items| == 0 && !(slot in b.weapons && into == id);
            var g' := Displace(shop, g, b, slot, pos, into);
            !emptied && id in g'.boxes ==> |g'.boxes[id].items| > 0
  {}

  lemma PickupKeeps(shop: Shop, k: Kit, unique: nat, mounts: nat, dup: nat, pos: Pos, into: nat)
    requires InOrder(shop.cat, k) && Stocked(shop.cat) && Possible(k, PickingUp(unique, mounts, dup, pos, into))
    ensures InOrder(shop.cat, Pickup(shop, k, unique, mounts, dup, pos, into))
  {
    hide Agree, Orderly, RealGround, TakeGun, TakeStack, Place, LootSlot, DropTo, Merges, Stocked, OnGround,
         Close, TakeFrom, WeaponAmmo, IsDup, Real, Displace;
    if OnGround(k.ground, unique) {
      PickedIs(k, unique);
      var id, it := Place(k.ground, unique).0, ItemOn(k.ground, unique);
      var g := TakeFrom(k.ground, id, unique);
      TakeInOrder(k.ground, id, Place(k.ground, unique).1, unique);
      if WeaponAmmo(it.data) != 0 {
        var slot := LootSlot(k.bag, it.data);
        TakeGunAgrees(shop.cat, k.bag, it, mounts);
        if slot in k.bag.weapons {
          WeaponIsTracked(shop.cat, k.bag, slot);
        }
        OustedInOrder(shop, k, g, slot, pos, into, id, unique);
        KeptIsFilled(shop, g, k.bag, slot, pos, into, id);
        CloseInOrder(Displace(shop, g, k.bag, slot, pos, into), id,
                     |g.boxes[id].items| == 0 && !(slot in k.bag.weapons && into == id));
      } else {
        TakeStackAgrees(shop.cat, k.bag, it, dup);
        CloseInOrder(g, id, |g.boxes[id].items| == 0);
      }
    }
  }

  /** The ground after the gun that the pick forces out fell on it. */
  lemma OustedInOrder(shop: Shop, k: Kit, g: Ground, slot: nat, pos: Pos, into: nat, id: nat, unique: nat)
    requires Agree(shop.cat, k.bag) && Disjoint(k) && id in k.ground.boxes && g == TakeFrom(k.ground, id, unique)
    requires Orderly(g, id) && RealGround(g) && Merges(k.ground, pos, into)
    requires forall u: nat :: OnGround(g, u) <==> OnGround(k.ground, u) && u != unique
    ensures var g' := Displace(shop, g, k.bag, slot, pos, into);
            && Orderly(g', id) && RealGround(g')
            && forall u: nat :: OnGround(g', u) ==> OnGround(g, u) || (slot in k.bag.weapons && u == k.bag.weapons[slot].unique)
  {
    hide Agree, Orderly, RealGround, DropTo, Merges, OnGround, TakeFrom, Real;
    if slot in k.bag.weapons {
      WeaponIsTracked(shop.cat, k.bag, slot);
      TakenMerges(k.ground, id, unique, pos, into);
      LootIsReal(shop, k.bag.weapons[slot]);
      DropInOrder(g, Loot(shop, k.bag.weapons[slot]), pos, into, id);
    }
  }

  lemma LootIsReal(shop: Shop, w: Weapon)
    requires w.data != 0
    ensures Real(Loot(shop, w)) && Loot(shop, w).unique == w.unique
  {}

  lemma DropKitKeeps(cat: Catalogue, k: Kit, unique: nat, pos: Pos, into: nat)
    requires InOrder(cat, k) && Merges(k.ground, pos, into)
    ensures InOrder(cat, Deeds.Drop(k, unique, pos, into))
  {
    hide Agree, Orderly, RealGround, DropTo, Merges, OnGround, Strip, Real;
    if unique != 0 && unique in k.bag.tracked {
      TrackedHere(cat, k.bag, unique);
      StripAgrees(cat, k.bag, unique);
      StripFrame(k.bag, unique);
      DropInOrder(k.ground, k.bag.tracked[unique], pos, into, 0);
    }
  }

  lemma ResetKeeps(shop: Shop, k: Kit, noLoadout: bool, mounts: nat)
    requires InOrder(shop.cat, k) && Stocked(shop.cat)
    ensures InOrder(shop.cat, Reset(shop, k, noLoadout, mounts))
  {
    hide Agree, Fresh;
    FreshAgrees(shop, k.bag, noLoadout, mounts);
  }

  /** A deed that leaves the ground alone. */
  lemma BagDecides(cat: Catalogue, k: Kit, b: Bag)
    requires InOrder(cat, k) && b.lastUid >= k.bag.lastUid
    requires forall u :: u in b.tracked ==> u in k.bag.tracked || u > k.bag.lastUid
    ensures InOrder(cat, k.(bag := b)) <==> Agree(cat, b)
  {
    hide Agree, Orderly, RealGround;
    DisjointAfter(k, k.(bag := b));
  }

  /** Of all that can happen, exactly what the guard names breaks the order. */
  lemma DeedKeeps(shop: Shop, k: Kit, d: Deed)
    requires InOrder(shop.cat, k) && Stocked(shop.cat) && Possible(k, d)
    ensures InOrder(shop.cat, Do(shop, k, d)) <==> Guarded(shop.cat, k.bag, d)
  {
    hide InOrder, Agree, Stocked, Buy, Pickup, Deeds.Drop, EquipTo, Wear, PlaceWall, Reset, Refill, Use, IsDup, Merges,
         Held, SlotOf, StackFits, WallFits, IsWeaponUID, OnGround, ShownNowhere, PlacementOf, DurOf;
    BagAgrees(shop.cat, k);
    match d
    case Buying(data, qty, mounts, dup, pos, into) => BuyKeeps(shop, k, data, qty, mounts, dup, pos, into);
    case PickingUp(unique, mounts, dup, pos, into) => PickupKeeps(shop, k, unique, mounts, dup, pos, into);
    case Dropping(unique, pos, into) => DropKitKeeps(shop.cat, k, unique, pos, into);
    case Equipping(dst, unique) =>
      EquipAgrees(shop.cat, k.bag, dst, unique);
      BagDecides(shop.cat, k, EquipTo(k.bag, dst, unique));
    case Wearing(slot, left) =>
      WearAgrees(shop.cat, k.bag, slot, left);
      BagDecides(shop.cat, k, Wear(k.bag, slot, left));
    case Walling(dup, unlimited) =>
      PlaceWallAgrees(shop.cat, k.bag, dup, unlimited);
      BagDecides(shop.cat, k, PlaceWall(k.bag, dup, unlimited));
    case Resetting(noLoadout, mounts) => ResetKeeps(shop, k, noLoadout, mounts);
    case Refilling(dup) =>
      RefillAgrees(shop.cat, k.bag, dup);
      BagDecides(shop.cat, k, Refill(k.bag, dup));
    case Holding(unique) =>
      var b := Hold(k.bag, unique);
      HandsAgree(shop.cat, k.bag, b.onHand, b.beforeGloo, b.vestDur, b.helmetDur);
      BagDecides(shop.cat, k, b);
    case Using(unique) =>
      UseAgrees(shop.cat, k.bag, unique);
      BagDecides(shop.cat, k, Use(k.bag, unique));
  }

  lemma BagAgrees(cat: Catalogue, k: Kit)
    requires InOrder(cat, k)
    ensures Agree(cat, k.bag)
  {}

  // ---------------------------------------------------------------- whole runs

  ghost function RunDeeds(shop: Shop, run: seq<Deed>): Kit {
    if |run| == 0 then START else Do(shop, RunDeeds(shop, run[..|run| - 1]), run[|run| - 1])
  }

  ghost predicate AllAllowed(shop: Shop, run: seq<Deed>) {
    forall n :: 0 <= n < |run| ==> Allowed(shop, RunDeeds(shop, run[..n]), run[n])
  }

  /** Over every run that heeds the guard, whatever slots the client names: the three indexes agree, held and
      lying items are disjoint, every unique lies in one place, and no two boxes are within the merge radius,
      empty, or outside the id band. */
  lemma {:induction false} RunKeeps(shop: Shop, run: seq<Deed>)
    requires Stocked(shop.cat) && AllAllowed(shop, run)
    ensures InOrder(shop.cat, RunDeeds(shop, run))
  {
    hide Stocked, Possible, Guarded, Do, Agree, Orderly, InOrder;
    if |run| == 0 {
      StartInOrder(shop.cat);
    } else {
      var init := run[..|run| - 1];
      forall n | 0 <= n < |init| ensures Allowed(shop, RunDeeds(shop, init[..n]), init[n]) {
        assert init[..n] == run[..n];
      }
      RunKeeps(shop, init);
      DeedKeeps(shop, RunDeeds(shop, init), run[|run| - 1]);
    }
  }

  lemma StartInOrder(cat: Catalogue)
    ensures InOrder(cat, START)
  {}
}
