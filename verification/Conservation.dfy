/** How many of an item one player holds and the ground bears: what purchases add, and what picking up and
    dropping preserve. */
module Conservation {
  import opened Items
  import opened GroundLoot
  import opened Loadout
  import opened Deeds
  import opened LoadoutRuns
  import opened Belongings

  ghost function Total(k: Kit, data: nat): nat {
    Carried(k.bag.tracked, data) + Lying(k.ground, data)
  }

  /** What a deed destroys of an item: what lies in the box whose id its drop takes over, and the ousted gun
      itself where its new box is deleted with the one just emptied. */
  ghost function Destroyed(shop: Shop, k: Kit, d: Deed, data: nat): nat {
    match d
    case Dropping(unique, pos, into) =>
      if unique != 0 && unique in k.bag.tracked then Lost(k.ground, into, data) else 0
    case Buying(item, qty, mounts, dup, pos, into) =>
      if Displaces(shop.cat, k.bag, item) then Lost(k.ground, into, data) else 0
    case PickingUp(unique, mounts, dup, pos, into) =>
      if Ousts(k, unique) then
        Lost(Picked(k, unique), into, data) + if Vanishes(k, unique, into) then CountOf(Loot(shop, Ousted(k, unique)), data) else 0
      else 0
    case _ => 0
  }

  /** A bought gun finds its slot taken. */
  ghost predicate Displaces(cat: Catalogue, b: Bag, item: nat) {
    && item in cat && item != MUSHROOM && PlacementOf(cat, item).isWeapon
    && BoughtSlot(b, PlacementOf(cat, item)) in b.weapons
  }

  /** A picked gun finds its slot taken. */
  ghost predicate Ousts(k: Kit, unique: nat) {
    && OnGround(k.ground, unique) && WeaponAmmo(ItemOn(k.ground, unique).data) != 0
    && LootSlot(k.bag, ItemOn(k.ground, unique).data) in k.bag.weapons
  }

  ghost function Ousted(k: Kit, unique: nat): Weapon
    requires Ousts(k, unique)
  {
    k.bag.weapons[LootSlot(k.bag, ItemOn(k.ground, unique).data)]
  }

  /** The ground after the pick has left its box, and before the ousted gun falls. */
  ghost function Picked(k: Kit, unique: nat): Ground
    requires OnGround(k.ground, unique)
  {
    TakeFrom(k.ground, Place(k.ground, unique).0, unique)
  }

  /** The pick empties its box, and the box that the ousted gun opens is given the same id. */
  ghost predicate Vanishes(k: Kit, unique: nat, into: nat)
    requires OnGround(k.ground, unique)
  {
    var id := Place(k.ground, unique).0;
    into !in k.ground.boxes && k.ground.next == id && id in Picked(k, unique).boxes && |Picked(k, unique).boxes[id].items| == 0
  }

  /** What a gun forced out of its slot gains: it falls as one gun, whatever its count was. */
  ghost function Renewed(shop: Shop, b: Bag, w: Weapon, data: nat): int
    requires w.unique in b.tracked
  {
    CountOf(Loot(shop, w), data) - CountOf(b.tracked[w.unique], data)
  }

  /** What a deed makes up for of guns that have been used. */
  ghost function Gained(shop: Shop, k: Kit, d: Deed, data: nat): int
    requires Agree(shop.cat, k.bag)
  {
    match d
    case Buying(item, qty, mounts, dup, pos, into) =>
      if Displaces(shop.cat, k.bag, item) then
        WeaponIsTracked(shop.cat, k.bag, BoughtSlot(k.bag, PlacementOf(shop.cat, item)));
        Renewed(shop, k.bag, k.bag.weapons[BoughtSlot(k.bag, PlacementOf(shop.cat, item))], data)
      else 0
    case PickingUp(unique, mounts, dup, pos, into) =>
      if Ousts(k, unique) then
        WeaponIsTracked(shop.cat, k.bag, LootSlot(k.bag, ItemOn(k.ground, unique).data));
        Renewed(shop, k.bag, Ousted(k, unique), data)
      else 0
    case _ => 0
  }

  /** The box, if any, that a deed's drop finds to merge into. */
  function Into(d: Deed): nat {
    match d
    case Dropping(_, _, into) => into
    case Buying(_, _, _, _, _, into) => into
    case PickingUp(_, _, _, _, into) => into
    case _ => 0
  }

  lemma RoomDestroysNothing(shop: Shop, k: Kit, d: Deed, data: nat)
    requires Room(k.ground, Into(d))
    ensures Destroyed(shop, k, d, data) == 0
  {
    hide Without, PlacementOf, BoughtSlot, LootSlot, WeaponAmmo, CountOf;
    if d.PickingUp? && OnGround(k.ground, d.unique) {
      PlaceIsThere(k.ground, d.unique);
    }
  }

  lemma PlaceIsThere(g: Ground, unique: nat)
    requires OnGround(g, unique)
    ensures Place(g, unique).0 in g.boxes
  {
    var p := Place(g, unique);
    assert Lies(g, p.0, p.1, unique);
  }

  lemma DropTotal(cat: Catalogue, k: Kit, unique: nat, pos: Pos, into: nat, data: nat)
    requires InOrder(cat, k) && Merges(k.ground, pos, into)
    ensures Total(Deeds.Drop(k, unique, pos, into), data)
         == Total(k, data) - (if unique != 0 && unique in k.bag.tracked then Lost(k.ground, into, data) else 0)
  {
    hide Agree, RealGround, DropTo, Merges, Strip, Real, Carried, Lying, CountOf, Apart, Once, FilledBut, Lost;
    if unique != 0 && unique in k.bag.tracked {
      TrackedHere(cat, k.bag, unique);
      var it := k.bag.tracked[unique];
      StripFrame(k.bag, unique);
      CarriedDrop(k.bag.tracked, unique, data);
      DropAdds(k.ground, it, pos, into, data);
    }
  }

  lemma FoldTotal(cat: Catalogue, b: Bag, it: Item, dup: nat, data: nat)
    requires Agree(cat, b) && it.unique !in b.tracked && IsDup(b.tracked, it.data, it.unique, dup)
    ensures Carried(TakeStack(b, it, dup).tracked, data) == Carried(b.tracked, data) + CountOf(it, data)
  {
    hide Agree, Strip, Carried, SlotOf;
    NoZeroTracked(cat, b);
    if dup in b.tracked {
      StripFrame(b, dup);
      CarriedDrop(b.tracked, dup, data);
      CarriedPut(b.tracked - {dup}, it.unique, it.(count := it.count + b.tracked[dup].count), data);
    } else {
      CarriedPut(b.tracked, it.unique, it, data);
    }
  }

  lemma GunTotal(shop: Shop, b: Bag, it: Item, mounts: nat, data: nat)
    requires Agree(shop.cat, b) && it.unique !in b.tracked
    ensures var slot := LootSlot(b, it.data);
            && (slot in b.weapons ==> b.weapons[slot].unique in b.tracked)
            && Carried(TakeGun(b, it, mounts).tracked, data)
               == Carried(b.tracked, data) + CountOf(it, data)
                - (if slot in b.weapons then CountOf(b.tracked[b.weapons[slot].unique], data) else 0)
  {
    hide Agree, Carried, PickPrimarySlot, WeaponAmmo, CountOf;
    var slot := LootSlot(b, it.data);
    if slot in b.weapons {
      var u := b.weapons[slot].unique;
      WeaponIsTracked(shop.cat, b, slot);
      CarriedDrop(b.tracked, u, data);
      CarriedPut(b.tracked - {u}, it.unique, it, data);
    } else {
      CarriedPut(b.tracked, it.unique, it, data);
    }
  }

  /** What lies under the id of the box that the handler deletes. */
  lemma ClosedAmount(shop: Shop, g: Ground, b: Bag, slot: nat, pos: Pos, into: nat, id: nat, data: nat)
    requires id in g.boxes && (slot in b.weapons ==> b.weapons[slot].unique != 0)
    ensures var g' := Displace(shop, g, b, slot, pos, into);
            |g.boxes[id].items| == 0 && !(slot in b.weapons && into == id) ==>
              && id in g'.boxes
              && Amount(g'.boxes[id].items, data)
                 == if slot in b.weapons && into !in g.boxes && g.next == id then CountOf(Loot(shop, b.weapons[slot]), data) else 0
  {
    hide CountOf, Amount;
    AmountNone(data);
    if slot in b.weapons {
      AmountOneMore([], Loot(shop, b.weapons[slot]), data);
      assert [] + [Loot(shop, b.weapons[slot])] == [Loot(shop, b.weapons[slot])];
    }
    if |g.boxes[id].items| == 0 {
      assert g.boxes[id].items == [];
    }
  }

  lemma PickupTotal(shop: Shop, k: Kit, unique: nat, mounts: nat, dup: nat, pos: Pos, into: nat, data: nat)
    requires InOrder(shop.cat, k) && Stocked(shop.cat) && Possible(k, PickingUp(unique, mounts, dup, pos, into))
    ensures var d := PickingUp(unique, mounts, dup, pos, into);
            Total(Pickup(shop, k, unique, mounts, dup, pos, into), data)
            == Total(k, data) + Gained(shop, k, d, data) - Destroyed(shop, k, d, data)
  {
    hide Lost, Agree, Orderly, RealGround, TakeGun, TakeStack, Place, LootSlot, DropTo, Merges, Stocked, OnGround, Once,
         Close, TakeFrom, WeaponAmmo, IsDup, Real, Carried, Lying, CountOf, Loot, Displace, Amount;
    if OnGround(k.ground, unique) {
      PickedIs(k, unique);
      var id, it := Place(k.ground, unique).0, ItemOn(k.ground, unique);
      var g := TakeFrom(k.ground, id, unique);
      TakeInOrder(k.ground, id, Place(k.ground, unique).1, unique);
      TakeSubtracts(k.ground, id, Place(k.ground, unique).1, data) by { OrderlyOnce(k.ground, 0); }
      if WeaponAmmo(it.data) != 0 {
        var slot := LootSlot(k.bag, it.data);
        var emptied := |g.boxes[id].items| == 0 && !(slot in k.bag.weapons && into == id);
        GunTotal(shop, k.bag, it, mounts, data);
        DisplacedTotal(shop, g, k.bag, slot, pos, into, data);
        ClosedAmount(shop, g, k.bag, slot, pos, into, id, data);
        CloseSubtracts(Displace(shop, g, k.bag, slot, pos, into), id, emptied, data);
        assert into !in g.boxes <==> into !in k.ground.boxes;
      } else {
        FoldTotal(shop.cat, k.bag, it, dup, data);
        CloseSubtracts(g, id, |g.boxes[id].items| == 0, data);
        EmptyAmount(g.boxes[id].items, data);
      }
    }
  }

  lemma EmptyAmount(items: seq<Item>, data: nat)
    ensures |items| == 0 ==> Amount(items, data) == 0
  {}

  lemma DisplacedTotal(shop: Shop, g: Ground, b: Bag, slot: nat, pos: Pos, into: nat, data: nat)
    requires Agree(shop.cat, b)
    ensures slot in b.weapons ==> b.weapons[slot].unique != 0
    ensures Lying(Displace(shop, g, b, slot, pos, into), data)
         == Lying(g, data) + if slot in b.weapons then CountOf(Loot(shop, b.weapons[slot]), data) - Lost(g, into, data) else 0
  {
    hide Agree, DropTo, Lying, CountOf, Lost;
    if slot in b.weapons {
      WeaponIsTracked(shop.cat, b, slot);
      LootIsReal(shop, b.weapons[slot]);
      DropAdds(g, Loot(shop, b.weapons[slot]), pos, into, data);
    }
  }

  lemma OrderlyOnce(g: Ground, open: nat)
    requires Orderly(g, open)
    ensures Once(g)
  {}

  /** Picking up and dropping preserve the total of every item, less what lay in an overwritten box and a gun
      that vanishes with an emptied one, and but for the count of an ousted gun. */
  lemma MovingConserves(shop: Shop, k: Kit, d: Deed, data: nat)
    requires InOrder(shop.cat, k) && Stocked(shop.cat) && Possible(k, d) && (d.PickingUp? || d.Dropping?)
    ensures Total(Do(shop, k, d), data) == Total(k, data) + Gained(shop, k, d, data) - Destroyed(shop, k, d, data)
    ensures Room(k.ground, Into(d)) ==> Total(Do(shop, k, d), data) == Total(k, data) + Gained(shop, k, d, data)
  {
    if Room(k.ground, Into(d)) {
      RoomDestroysNothing(shop, k, d, data);
    }
    hide Ousted, OnGround, Lost, Room, InOrder, Stocked, Total, Pickup, Deeds.Drop, Merges;
    match d
    case PickingUp(unique, mounts, dup, pos, into) => PickupTotal(shop, k, unique, mounts, dup, pos, into, data);
    case Dropping(unique, pos, into) => DropTotal(shop.cat, k, unique, pos, into, data);
  }

  /** A purchase without a gun adds the quantity of the item and nothing else. */
  lemma BuyingAdds(shop: Shop, k: Kit, item: nat, qty: nat, mounts: nat, dup: nat, pos: Pos, into: nat, data: nat)
    requires InOrder(shop.cat, k) && IsDup(k.bag.tracked, item, 0, dup)
    requires item in shop.cat && item != MUSHROOM && !PlacementOf(shop.cat, item).isWeapon
    ensures Total(Buy(shop, k, item, qty, mounts, dup, pos, into), data)
         == Total(k, data) + if data == item then (if qty == 0 then 1 else qty) else 0
  {
    hide Agree, Orderly, RealGround, PlacementOf, Carried, Lying, MaxDur, ArmorSlot;
    NoZeroTracked(shop.cat, k.bag);
    var p := PlacementOf(shop.cat, item);
    var n := if qty == 0 then 1 else qty;
    if dup in k.bag.tracked && !p.isArmor {
      TrackedHere(shop.cat, k.bag, dup);
      CarriedPut(k.bag.tracked, dup, k.bag.tracked[dup].(count := k.bag.tracked[dup].count + n), data);
    } else {
      FreshIsNew(shop.cat, k.bag, 1);
      CarriedPut(k.bag.tracked, k.bag.lastUid + 1,
                 Item(k.bag.lastUid + 1, item, n, if p.isArmor then MaxDur(item) else 0), data);
    }
  }

  /** A purchase of a gun adds one gun and its reserve of ammunition; a displaced gun lands on the ground, at
      worst in the place of an overwritten box. */
  lemma BuyingGunAdds(shop: Shop, k: Kit, item: nat, qty: nat, mounts: nat, dup: nat, pos: Pos, into: nat, data: nat)
    requires InOrder(shop.cat, k) && Stocked(shop.cat) && Possible(k, Buying(item, qty, mounts, dup, pos, into))
    requires item in shop.cat && item != MUSHROOM && PlacementOf(shop.cat, item).isWeapon
    ensures var ammo := PlacementOf(shop.cat, item).ammo;
            Total(Buy(shop, k, item, qty, mounts, dup, pos, into), data)
            == Total(k, data) + (if data == item then 1 else 0)
             + (if ammo != 0 && data == ammo then AmmoReserve(ammo) else 0)
             + Gained(shop, k, Buying(item, qty, mounts, dup, pos, into), data)
             - Destroyed(shop, k, Buying(item, qty, mounts, dup, pos, into), data)
  {
    hide Lost, Agree, Orderly, RealGround, PlacementOf, Carried, Lying, BoughtSlot, DropTo, Stocked, AmmoReserve, Loot,
         CountOf, IsDup, Merges, Seeded;
    var p := PlacementOf(shop.cat, item);
    var slot := BoughtSlot(k.bag, p);
    var b := BuyGun(shop, k.bag, item, mounts);
    SeededTracked(b, item);
    SuppliedTotal(shop, k.bag, item, p, mounts, data);
    if slot in k.bag.weapons {
      WeaponIsTracked(shop.cat, k.bag, slot);
      LootIsReal(shop, k.bag.weapons[slot]);
      SuppliedHolds(shop, k.bag, item, p, mounts, k.bag.weapons[slot].unique);
      CarriedDrop(Supplied(shop, k.bag, item, p, mounts).tracked, k.bag.weapons[slot].unique, data);
      DropAdds(k.ground, Loot(shop, k.bag.weapons[slot]), pos, into, data);
    }
  }

  lemma SeededTracked(b: Bag, data: nat)
    ensures Seeded(b, data).tracked == b.tracked
  {}

  lemma SuppliedHolds(shop: Shop, b: Bag, item: nat, p: Placement, mounts: nat, u: nat)
    requires u in b.tracked && u <= b.lastUid
    ensures u in Supplied(shop, b, item, p, mounts).tracked && Supplied(shop, b, item, p, mounts).tracked[u] == b.tracked[u]
  {}

  lemma SuppliedTotal(shop: Shop, b: Bag, item: nat, p: Placement, mounts: nat, data: nat)
    requires Agree(shop.cat, b)
    ensures Carried(Supplied(shop, b, item, p, mounts).tracked, data)
         == Carried(b.tracked, data) + (if data == item then 1 else 0)
          + (if p.ammo != 0 && data == p.ammo then AmmoReserve(p.ammo) else 0)
  {
    hide Agree, Carried, AmmoReserve;
    FreshIsNew(shop.cat, b, 2);
    var gun := Item(b.lastUid + 1, item, 1, shop.mag(item));
    CarriedPut(b.tracked, gun.unique, gun, data);
    CarriedPut(b.tracked[gun.unique := gun], b.lastUid + 2, Item(b.lastUid + 2, p.ammo, AmmoReserve(p.ammo), 0), data);
  }

  /** The gun that a pick forces out is on the ground afterwards, unless its box is deleted with the one just
      emptied; then it is nowhere. */
  lemma OustedGunStays(shop: Shop, k: Kit, unique: nat, mounts: nat, dup: nat, pos: Pos, into: nat)
    requires InOrder(shop.cat, k) && Stocked(shop.cat) && Possible(k, PickingUp(unique, mounts, dup, pos, into))
    requires Ousts(k, unique)
    ensures var k' := Pickup(shop, k, unique, mounts, dup, pos, into);
            && (OnGround(k'.ground, Ousted(k, unique).unique) <==> !Vanishes(k, unique, into))
            && Ousted(k, unique).unique !in k'.bag.tracked
  {
    hide Agree, Orderly, RealGround, TakeGun, Place, LootSlot, DropTo, Merges, Stocked, OnGround, Lies, Close, TakeFrom,
         WeaponAmmo, IsDup, Real, Displace;
    PickedIs(k, unique);
    var id, it, w := Place(k.ground, unique).0, ItemOn(k.ground, unique), Ousted(k, unique);
    var slot := LootSlot(k.bag, it.data);
    var g := TakeFrom(k.ground, id, unique);
    TakeInOrder(k.ground, id, Place(k.ground, unique).1, unique);
    WeaponIsTracked(shop.cat, k.bag, slot);
    TakeGunAgrees(shop.cat, k.bag, it, mounts);
    LootIsReal(shop, w);
    GunLies(g, Loot(shop, w), pos, into, id, |g.boxes[id].items| == 0 && into != id);
    assert Displace(shop, g, k.bag, slot, pos, into) == DropTo(g, Loot(shop, w), pos, into) by { DisplaceDrops(shop, g, k.bag, slot, pos, into); }
  }

  lemma DisplaceDrops(shop: Shop, g: Ground, b: Bag, slot: nat, pos: Pos, into: nat)
    requires slot in b.weapons
    ensures Displace(shop, g, b, slot, pos, into) == DropTo(g, Loot(shop, b.weapons[slot]), pos, into)
  {}

  /** Where the dropped gun lies once the box of the pick is closed. */
  lemma GunLies(g: Ground, it: Item, pos: Pos, into: nat, id: nat, emptied: bool)
    requires it.unique != 0 && !OnGround(g, it.unique) && id in g.boxes && (emptied ==> into != id)
    ensures OnGround(Close(DropTo(g, it, pos, into), id, emptied), it.unique)
       <==> !(emptied && into !in g.boxes && g.next == id)
  {
    hide DropTo;
    DropLies(g, it, pos, into);
    var g1 := DropTo(g, it, pos, into);
    var at := if into in g.boxes then into else g.next;
    var g2 := Close(g1, id, emptied);
    var a, i :| Lies(g1, a, i, it.unique);
    assert !Lies(g, a, i, it.unique);
    assert a == at;
    if emptied && at == id {
      assert forall b: nat, j: nat :: Lies(g2, b, j, it.unique) ==> Lies(g1, b, j, it.unique) && b != id;
      assert forall b: nat, j: nat :: Lies(g1, b, j, it.unique) ==> !Lies(g, b, j, it.unique) && b == at;
    } else {
      assert Lies(g2, a, i, it.unique);
    }
  }
}
