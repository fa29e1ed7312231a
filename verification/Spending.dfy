/** What deeds other than trade take from a player and give: uses, walls, wear, and the resets between rounds,
    counted over every item. */
module Spending {
  import opened Items
  import opened GroundLoot
  import opened Loadout
  import opened Deeds
  import opened LoadoutRuns
  import opened Belongings
  import opened Conservation

  // ---------------------------------------------------------------- counting one stack

  lemma {:induction false} AllZero(m: map<nat, nat>)
    requires forall k :: k in m ==> m[k] == 0
    ensures Sum(m) == 0
    decreases |m|
  {
    hide Sum;
    if k :| k in m {
      SumWithout(m, k);
      Smaller(m, k);
      AllZero(m - {k});
    } else {
      assert m == map[];
      EmptySum();
    }
  }

  lemma EmptySum()
    ensures Sum(map[]) == 0
  {}

  /** Where no tracked item is of the kind, none is carried. */
  lemma NoneCarried(tracked: map<nat, Item>, data: nat)
    requires forall u :: u in tracked ==> tracked[u].data != data
    ensures Carried(tracked, data) == 0
  {
    AllZero(Weights(tracked, data));
  }

  /** Where one is, it is all there is. */
  lemma OneCarried(tracked: map<nat, Item>, u: nat, data: nat)
    requires u in tracked && forall v :: v in tracked && v != u ==> tracked[v].data != data
    ensures Carried(tracked, data) == CountOf(tracked[u], data)
  {
    hide Carried;
    NoneCarried(tracked - {u}, data);
    CarriedDrop(tracked, u, data);
  }

  // ---------------------------------------------------------------- coins

  /** A purchase costs its price times its quantity, none meaning one, exactly when that fits into 32 bits; and
      it is paid for exactly when the item is in the shop, the player has the cost, and a mushroom is one of
      the first two of the round. */
  lemma PriceTimesQuantity(shop: Shop, coins: nat, mushrooms: nat, data: nat, qty: nat)
    ensures var full := shop.price(data) * (if qty == 0 then 1 else qty);
            && (Cost(shop, data, qty) == full <==> full < 0x1_0000_0000)
            && (full < 0x1_0000_0000 ==>
                  (Payable(shop, coins, mushrooms, data, qty)
                   <==> data in shop.cat && coins >= full && (data == 709 ==> mushrooms <= 1)))
            && (full == 0x1_0000_0000 ==> Cost(shop, data, qty) == 0)
  {}

  // ---------------------------------------------------------------- uses

  /** Only the tracked items may differ. */
  ghost predicate OnlyTracked(b: Bag, b': Bag) {
    b' == b.(tracked := b'.tracked)
  }

  /** A use takes one of the item if any is left, and nothing else. */
  lemma UsingTakesOne(shop: Shop, k: Kit, unique: nat, data: nat)
    requires Agree(shop.cat, k.bag)
    ensures var k' := Do(shop, k, Using(unique));
            && Total(k', data)
               == Total(k, data) - (if unique in k.bag.tracked && k.bag.tracked[unique].data == data
                                       && k.bag.tracked[unique].count > 0 then 1 else 0)
            && k'.ground == k.ground && OnlyTracked(k.bag, k'.bag) && k'.bag.tracked.Keys == k.bag.tracked.Keys
            && forall u :: u in k.bag.tracked ==>
                 k'.bag.tracked[u]
                 == k.bag.tracked[u].(count := if u == unique && k.bag.tracked[u].count > 0 then k.bag.tracked[u].count - 1
                                               else k.bag.tracked[u].count)
  {
    hide Agree, Carried, Lying;
    if unique in k.bag.tracked && k.bag.tracked[unique].count > 0 {
      TrackedHere(shop.cat, k.bag, unique);
      CarriedPut(k.bag.tracked, unique, k.bag.tracked[unique].(count := k.bag.tracked[unique].count - 1), data);
    }
  }

  // ---------------------------------------------------------------- walls

  lemma GlooIs(cat: Catalogue, b: Bag, dup: nat)
    requires Agree(cat, b) && Stocked(cat) && IsDup(b.tracked, GLOO, 0, dup)
    ensures var u := GlooStack(b, dup);
            if u in b.tracked then b.tracked[u].data == GLOO && Carried(b.tracked, GLOO) == b.tracked[u].count
            else Carried(b.tracked, GLOO) == 0
  {
    hide Tied, OnePlace, Recorded, Issued, Stackable, Carried, Home;
    GlooHome(cat);
    NoZeroTracked(cat, b);
    var u := GlooStack(b, dup);
    if u in b.tracked {
      OneCarried(b.tracked, u, GLOO);
    } else {
      NoneCarried(b.tracked, GLOO);
    }
  }

  /** A placed wall takes one from the walls carried, if there is one and they are not unlimited, and nothing
      else. The last one frees the building slot and puts a weapon in hand: the one held before the walls if it
      is still there, or else the first of the primaries and the secondary. */
  lemma WallTakesOne(shop: Shop, k: Kit, dup: nat, unlimited: bool, data: nat)
    requires Agree(shop.cat, k.bag) && Stocked(shop.cat) && IsDup(k.bag.tracked, GLOO, 0, dup)
    ensures var k', walls := Do(shop, k, Walling(dup, unlimited)), Carried(k.bag.tracked, GLOO);
            && Total(k', data) == Total(k, data) - (if data == GLOO && walls > 0 && !unlimited then 1 else 0)
            && k'.ground == k.ground && k'.bag.weapons == k.bag.weapons
            && (walls != 1 || unlimited ==> OnlyTracked(k.bag, k'.bag))
            && (walls == 1 && !unlimited ==>
                  k'.bag.equip == k.bag.equip - {13} && k'.bag.onHand == DrawnAfter(k.bag) && k'.bag.beforeGloo == 0)
  {
    hide Agree, Stocked, Carried, Lying, GlooStack, IsWeaponUID, BestWeaponUID, IsDup;
    GlooIs(shop.cat, k.bag, dup);
    NoZeroTracked(shop.cat, k.bag);
    var u := GlooStack(k.bag, dup);
    if u in k.bag.tracked && k.bag.tracked[u].count > 0 && !unlimited {
      TrackedHere(shop.cat, k.bag, u);
      CarriedPut(k.bag.tracked, u, k.bag.tracked[u].(count := k.bag.tracked[u].count - 1), data);
      CarriedDrop(k.bag.tracked, u, data);
      if k.bag.tracked[u].count == 1 {
        DrawnIs(shop.cat, k.bag);
      }
    }
  }

  /** The weapon a player draws when the walls are gone. */
  ghost function DrawnAfter(b: Bag): nat {
    if exists s :: s in b.weapons && b.weapons[s].unique == b.beforeGloo then b.beforeGloo
    else if 0 in b.weapons then b.weapons[0].unique
    else if 1 in b.weapons then b.weapons[1].unique
    else if 2 in b.weapons then b.weapons[2].unique
    else b.onHand
  }

  lemma DrawnIs(cat: Catalogue, b: Bag)
    requires Agree(cat, b)
    ensures DrawnAfter(b)
         == if IsWeaponUID(b, b.beforeGloo) then b.beforeGloo else if BestWeaponUID(b) != 0 then BestWeaponUID(b) else b.onHand
    ensures IsWeaponUID(b, b.beforeGloo) ==> b.beforeGloo != 0
  {
    hide Tied, OnePlace, Issued, OneStack, PlacementOf;
  }

  // ---------------------------------------------------------------- wear

  /** Wear leaves one worn piece with the durability that is left, or none; no other item, weapon or slot. */
  lemma WearLeaves(shop: Shop, k: Kit, slot: nat, left: nat, data: nat)
    requires Agree(shop.cat, k.bag) && Possible(k, Wearing(slot, left))
    ensures var b, k' := k.bag, Do(shop, k, Wearing(slot, left));
            && k'.ground == k.ground && k'.bag.weapons == b.weapons && k'.bag.onHand == b.onHand
            && DurOf(k'.bag, slot) == left && (forall s :: s != slot ==> DurOf(k'.bag, s) == DurOf(b, s))
            && (!Occupied(b, slot) ==> k'.bag.tracked == b.tracked && k'.bag.equip == b.equip)
            && (Occupied(b, slot) ==>
                  var g := b.equip[slot];
                  && g.unique in b.tracked
                  && (forall s :: s != slot ==> (s in k'.bag.equip <==> s in b.equip))
                  && (forall s :: s in b.equip && s != slot ==> k'.bag.equip[s] == b.equip[s])
                  && (left == 0 ==> slot !in k'.bag.equip)
                  && (left > 0 ==> && slot in k'.bag.equip && k'.bag.equip[slot] == Gear(g.data, b.lastUid + 1)
                                   && b.lastUid + 1 in k'.bag.tracked
                                   && k'.bag.tracked[b.lastUid + 1] == Item(b.lastUid + 1, g.data, 1, left))
                  && Total(k', data)
                     == Total(k, data) - CountOf(b.tracked[g.unique], data) + if left > 0 && data == g.data then 1 else 0)
  {
    hide Agree, Carried, Lying;
    var b := k.bag;
    OccupiedIsTracked(shop.cat, b, slot);
    if Occupied(b, slot) {
      var u := b.equip[slot].unique;
      FreshIsNew(shop.cat, b, 1);
      CarriedDrop(b.tracked, u, data);
      CarriedPut(b.tracked - {u}, b.lastUid + 1, Item(b.lastUid + 1, b.equip[slot].data, 1, left), data);
    }
  }

  // ---------------------------------------------------------------- rounds

  /** Between rounds a survivor has two medkits again, and the rest as before. */
  lemma RefillGivesTwo(shop: Shop, k: Kit, dup: nat, data: nat)
    requires Agree(shop.cat, k.bag) && Stocked(shop.cat) && IsDup(k.bag.tracked, MEDKIT, 0, dup)
    ensures var k' := Do(shop, k, Refilling(dup));
            && Carried(k'.bag.tracked, data) == (if data == 102 then 2 else Carried(k.bag.tracked, data))
            && k'.ground == k.ground && k'.bag.equip == k.bag.equip && k'.bag.weapons == k.bag.weapons
            && k'.bag.onHand == k.bag.onHand
  {
    hide Tied, OnePlace, Recorded, Issued, Stackable, Carried, WeaponAmmo;
    MedkitPlace(shop.cat);
    NoZeroTracked(shop.cat, k.bag);
    FreshIsNew(shop.cat, k.bag, 1);
    if dup in k.bag.tracked {
      OneCarried(k.bag.tracked, dup, MEDKIT);
      CarriedPut(k.bag.tracked, dup, Item(dup, MEDKIT, 2, 2), data);
    } else {
      NoneCarried(k.bag.tracked, MEDKIT);
      CarriedPut(k.bag.tracked, k.bag.lastUid + 1, Item(k.bag.lastUid + 1, MEDKIT, 2, 2), data);
    }
  }

  /** Whoever died starts with the fist and two medkits, and the pistol in hand with 120 rounds, and with
      nothing else; and the ground is bare. */
  lemma ResetGives(shop: Shop, k: Kit, noLoadout: bool, mounts: nat, data: nat)
    ensures var k' := Do(shop, k, Resetting(noLoadout, mounts));
            && Total(k', data)
               == (if data == 102 then 2
                   else if noLoadout then 0 else if data == 3 then 1 else if data == 202 then 120 else 0)
            && k'.bag.equip == (if noLoadout then map[4 := Gear(0, 0)]
                                else map[4 := Gear(0, 0), 2 := Gear(3, k.bag.lastUid + 1)])
            && k'.bag.weapons == (if noLoadout then map[] else map[2 := Weapon(2, 3, k.bag.lastUid + 1, 202)])
            && k'.bag.onHand == (if noLoadout then 0 else k.bag.lastUid + 1)
            && k'.bag.vestDur == 0 && k'.bag.helmetDur == 0 && k'.ground.boxes == map[]
  {
    hide Carried, Sum;
    var usp, kit := k.bag.lastUid + 1, k.bag.lastUid + 2;
    var t0: map<nat, Item> := map[];
    var t1 := t0[kit := Item(kit, MEDKIT, 2, 2)];
    var t2 := t1[usp := Item(usp, USP, 1, shop.mag(USP))];
    var ammo := Item(kit + mounts + 1, PISTOL_AMMO, 120, 0);
    NoneCarried(t0, data);
    CarriedPut(t0, kit, t1[kit], data);
    CarriedPut(t1, usp, t2[usp], data);
    CarriedPut(t2, ammo.unique, ammo, data);
    BareGround(k, data);
    assert Do(shop, k, Resetting(noLoadout, mounts)).bag.tracked == if noLoadout then t1 else t2[ammo.unique := ammo];
  }

  lemma BareGround(k: Kit, data: nat)
    ensures Lying(k.ground.(boxes := map[]), data) == 0
  {
    assert BoxWeights(k.ground.(boxes := map[]), data) == map[];
    EmptySum();
  }

  // ---------------------------------------------------------------- what comes with a purchase

  /** A gun comes loaded, with 60 rounds for a sniper or a shotgun, 120 for another, and none without
      ammunition. */
  lemma GunComesWith(shop: Shop, k: Kit, item: nat, qty: nat, mounts: nat, dup: nat, pos: Pos, into: nat, data: nat)
    requires InOrder(shop.cat, k) && Stocked(shop.cat) && Possible(k, Buying(item, qty, mounts, dup, pos, into))
    requires item in shop.cat && item != MUSHROOM && PlacementOf(shop.cat, item).isWeapon
    requires !Displaces(shop.cat, k.bag, item)
    ensures var ammo, k' := PlacementOf(shop.cat, item).ammo, Do(shop, k, Buying(item, qty, mounts, dup, pos, into));
            && Total(k', data)
               == Total(k, data) + (if data == item then 1 else 0)
                + (if ammo == 0 || data != ammo then 0 else if ammo == 203 || ammo == 204 then 60 else 120)
            && k.bag.lastUid + 1 in k'.bag.tracked
            && k'.bag.tracked[k.bag.lastUid + 1] == Item(k.bag.lastUid + 1, item, 1, shop.mag(item))
  {
    hide InOrder, Stocked, Possible, PlacementOf, Carried, Lying, BoughtSlot, Displace;
    BuyingGunAdds(shop, k, item, qty, mounts, dup, pos, into, data);
    BagAgrees(shop.cat, k);
    FreshIsNew(shop.cat, k.bag, 1);
    SeededTracked(BuyGun(shop, k.bag, item, mounts), item);
  }

  /** A vest or a helmet of the second, third and fourth tier comes with 220, 300 and 400 of durability, and
      fills the bar of its slot. */
  lemma ArmourComesFull(shop: Shop, k: Kit, item: nat, qty: nat, mounts: nat, dup: nat, pos: Pos, into: nat)
    requires Agree(shop.cat, k.bag) && item in shop.cat && item in {302, 303, 305, 306, 309, 310}
    requires PlacementOf(shop.cat, item).isArmor && !PlacementOf(shop.cat, item).isWeapon
    ensures var k' := Do(shop, k, Buying(item, qty, mounts, dup, pos, into));
            var full := if item in {302, 305} then 220 else if item in {303, 306} then 300 else 400;
            && k.bag.lastUid + 1 in k'.bag.tracked
            && k'.bag.tracked[k.bag.lastUid + 1] == Item(k.bag.lastUid + 1, item, if qty == 0 then 1 else qty, full)
            && k'.bag.vestDur == (if item in {302, 303, 309} then full else k.bag.vestDur)
            && k'.bag.helmetDur == (if item in {305, 306, 310} then full else k.bag.helmetDur)
  {
    hide Agree, PlacementOf, MaxDur, ArmorSlot;
    Tiers(item);
  }

  lemma Tiers(item: nat)
    requires item in {302, 303, 305, 306, 309, 310}
    ensures MaxDur(item) == if item in {302, 305} then 220 else if item in {303, 306} then 300 else 400
    ensures ArmorSlot(item) == if item in {302, 303, 309} then VEST else HELMET
  {}

  /** A picked stack takes over the count of the one of its kind that is held, which is tracked no more, and with
      it the slot and the hand; it keeps what it was loaded with. */
  lemma PickedStackTakesOver(cat: Catalogue, b: Bag, it: Item, dup: nat)
    requires Agree(cat, b) && it.unique !in b.tracked && it.unique != 0
    ensures var b', fold := TakeStack(b, it, dup), dup in b.tracked;
            && b'.tracked == (b.tracked - {dup})[it.unique := Item(it.unique, it.data,
                                                                   it.count + (if fold then b.tracked[dup].count else 0), it.runtime)]
            && b'.onHand == (if fold && b.onHand == dup then it.unique else b.onHand) && b'.lastUid == b.lastUid
            && (forall s :: s in b'.equip <==> s in b.equip)
            && forall s :: s in b.equip ==>
                 b'.equip[s] == if fold && b.equip[s].unique == dup then Gear(it.data, it.unique) else b.equip[s]
  {
    hide Tied, Recorded, Issued, OneStack;
    if dup in b.tracked {
      if Shows(b, dup) {
        SlotShows(b, dup);
      }
    } else {
      assert b.tracked - {dup} == b.tracked;
    }
  }

  /** A repeat buy makes the stack larger and changes nothing else of it; anything else bought is a new item; and
      either is shown in its slot. */
  lemma BoughtStackGrows(shop: Shop, b: Bag, data: nat, qty: nat, dup: nat)
    requires Agree(shop.cat, b)
    ensures var b', p := BuyStack(shop, b, data, qty, dup), PlacementOf(shop.cat, data);
            var grows := dup in b.tracked && !p.isArmor;
            var u := if grows then dup else b.lastUid + 1;
            && u in b'.tracked
            && (grows ==> b'.tracked == b.tracked[dup := b.tracked[dup].(count := b.tracked[dup].count + qty)])
            && (!grows ==> b'.tracked == b.tracked[u := b'.tracked[u]] && b'.tracked[u].unique == u
                           && b'.tracked[u].data == data && b'.tracked[u].count == qty)
            && b'.equip == (if p.slot == 255 then b.equip else b.equip[p.slot := Gear(data, u)])
            && b'.onHand == b.onHand && b'.weapons == b.weapons && b'.lastUid == b.lastUid + 1
  {
    hide Agree, PlacementOf, Seeded;
    SeededRest(StackUp(shop, b, data, qty, dup), data);
    if dup in b.tracked {
      TrackedHere(shop.cat, b, dup);
    }
  }

  lemma SeededRest(b: Bag, data: nat)
    ensures Seeded(b, data) == b.(vestDur := Seeded(b, data).vestDur, helmetDur := Seeded(b, data).helmetDur)
  {
    hide MaxDur, ArmorSlot;
  }

  /** How many uniques a deed gives out: a gun one, its ammunition another, and one for each attachment; a bought
      item one, also where it only makes a stack larger; worn armour one. */
  lemma UniquesGivenOut(shop: Shop, k: Kit, d: Deed)
    requires d.Buying? ==> d.data in shop.cat && d.data != MUSHROOM
    requires d.PickingUp? ==> OnGround(k.ground, d.unique)
    ensures var n := Do(shop, k, d).bag.lastUid - k.bag.lastUid;
            && (d.Buying? ==>
                  var p := PlacementOf(shop.cat, d.data);
                  n == if p.isWeapon then 1 + (if p.ammo != 0 then 1 else 0) + d.mounts else 1)
            && (d.PickingUp? ==> n == if WeaponAmmo(ItemOn(k.ground, d.unique).data) != 0 then d.mounts else 0)
            && (d.Resetting? ==> n == if d.noLoadout then 2 else d.mounts + 3)
            && (d.Wearing? ==> n == if DurOf(k.bag, d.slot) > 0 && Occupied(k.bag, d.slot) && d.left > 0 then 1 else 0)
            && (d.Refilling? ==> n == if d.dup in k.bag.tracked then 0 else 1)
            && (d.Dropping? || d.Equipping? || d.Walling? || d.Holding? || d.Using? ==> n == 0)
  {
    hide PlacementOf, WeaponAmmo, DropTo, Displace, BoughtSlot, LootSlot, Place, OnGround, TakeFrom, Close, DurOf, Occupied,
         Fresh, Wear, EquipTo, PlaceWall, Hold, Use, Refill;
    match d
    case Buying(data, qty, mounts, dup, pos, into) => BuyingNumbers(shop, k.bag, data, qty, mounts, dup);
    case PickingUp(unique, mounts, dup, pos, into) => PickingNumbers(k.bag, ItemOn(k.ground, unique), mounts, dup);
    case Resetting(noLoadout, mounts) => FreshNumbers(shop, k.bag, noLoadout, mounts);
    case Wearing(slot, left) => WearNumbers(k.bag, slot, left);
    case Equipping(dst, unique) => SlotNumbers(k.bag, dst, unique);
    case Walling(dup, unlimited) => WallNumbers(k.bag, dup, unlimited);
    case Refilling(dup) => FewNumbers(k.bag, dup);
    case Holding(unique) => FewNumbers(k.bag, unique);
    case Using(unique) => FewNumbers(k.bag, unique);
    case _ =>
  }

  lemma FreshNumbers(shop: Shop, b: Bag, noLoadout: bool, mounts: nat)
    ensures Fresh(shop, b, noLoadout, mounts).lastUid == b.lastUid + if noLoadout then 2 else mounts + 3
  {}

  lemma WearNumbers(b: Bag, slot: nat, left: nat)
    ensures Wear(b, slot, left).lastUid
         == b.lastUid + if DurOf(b, slot) > 0 && Occupied(b, slot) && left > 0 then 1 else 0
  {
    hide DurOf;
  }

  lemma SlotNumbers(b: Bag, dst: nat, unique: nat)
    ensures EquipTo(b, dst, unique).lastUid == b.lastUid
  {
    hide SlotOf, Shows, SwapWeapons, MoveWeapon;
  }

  lemma WallNumbers(b: Bag, dup: nat, unlimited: bool)
    ensures PlaceWall(b, dup, unlimited).lastUid == b.lastUid
  {
    hide GlooStack, IsWeaponUID, BestWeaponUID;
  }

  lemma FewNumbers(b: Bag, u: nat)
    ensures Refill(b, u).lastUid == b.lastUid + (if u in b.tracked then 0 else 1)
    ensures Hold(b, u).lastUid == b.lastUid && Use(b, u).lastUid == b.lastUid
  {
    hide IsWeaponUID;
  }

  lemma BuyingNumbers(shop: Shop, b: Bag, data: nat, qty: nat, mounts: nat, dup: nat)
    ensures var p := PlacementOf(shop.cat, data);
            BuyGun(shop, b, data, mounts).lastUid == b.lastUid + 1 + (if p.ammo != 0 then 1 else 0) + mounts
    ensures BuyStack(shop, b, data, qty, dup).lastUid == b.lastUid + 1
    ensures Seeded(b, data).lastUid == b.lastUid
  {
    hide PlacementOf, BoughtSlot, AmmoReserve, MaxDur, ArmorSlot;
  }

  lemma PickingNumbers(b: Bag, it: Item, mounts: nat, dup: nat)
    ensures TakeGun(b, it, mounts).lastUid == b.lastUid + mounts && TakeStack(b, it, dup).lastUid == b.lastUid
  {
    hide LootSlot, SlotOf, Shows;
  }

  // ---------------------------------------------------------------- what is in hand

  /** Taking out the walls remembers the weapon that was in hand, and anything else remembers nothing new. */
  lemma HoldingRemembers(shop: Shop, k: Kit, unique: nat)
    requires Agree(shop.cat, k.bag)
    ensures var b, k' := k.bag, Do(shop, k, Holding(unique));
            && k'.bag.onHand == unique && k'.bag.(onHand := b.onHand, beforeGloo := b.beforeGloo) == b && k'.ground == k.ground
            && k'.bag.beforeGloo
               == if unique in b.tracked && b.tracked[unique].data == 1201
                     && (exists s :: s in b.weapons && b.weapons[s].unique == b.onHand) then b.onHand
                  else b.beforeGloo
  {
    hide Tied, OnePlace, Issued, OneStack, PlacementOf;
  }

  /** So the last wall gives back the weapon that was in hand before the walls. */
  lemma LastWallGivesBack(shop: Shop, k: Kit, walls: nat, s: nat, dup: nat)
    requires Agree(shop.cat, k.bag) && Stocked(shop.cat) && IsDup(k.bag.tracked, GLOO, 0, dup)
    requires walls in k.bag.tracked && k.bag.tracked[walls].data == GLOO && Carried(k.bag.tracked, GLOO) == 1
    requires s in k.bag.weapons && k.bag.weapons[s].unique == k.bag.onHand
    ensures Do(shop, Do(shop, k, Holding(walls)), Walling(dup, false)).bag.onHand == k.bag.onHand
  {
    hide Agree, Stocked, Carried, Do;
    var k1 := Do(shop, k, Holding(walls));
    HoldingRemembers(shop, k, walls);
    assert k1.bag == k.bag.(onHand := walls, beforeGloo := k.bag.onHand);
    HandsAgree(shop.cat, k.bag, walls, k.bag.onHand, k.bag.vestDur, k.bag.helmetDur);
    WallTakesOne(shop, k1, dup, false, GLOO);
    assert k1.bag.weapons[s].unique == k1.bag.beforeGloo;
  }
}
