/** Weapon records: where they go when slots are swapped, which gun makes room for a new one, and over every run
    which deeds leave a shown weapon without its record. */
module Armoury {
  import opened Items
  import opened GroundLoot
  import opened Loadout
  import opened Deeds
  import opened LoadoutRuns
  import opened Belongings

  // ---------------------------------------------------------------- swaps

  /** Where the content of a slot is after the two have been exchanged. */
  function Exchanged(a: nat, b: nat, s: nat): nat {
    if s == a then b else if s == b then a else s
  }

  /** Every record is still there, with its data, unique and ammunition, in the slot that now shows the gun, and
      there is no other. */
  ghost predicate RecordsMoved(b: Bag, b': Bag, src: nat, dst: nat) {
    && (forall s :: s in b.weapons ==>
          var t := Exchanged(src, dst, s);
          && t in b'.weapons && b'.weapons[t] == b.weapons[s].(slot := t)
          && t in b'.equip && b'.equip[t] == Gear(b.weapons[s].data, b.weapons[s].unique))
    && forall t :: t in b'.weapons ==> Exchanged(src, dst, t) in b.weapons
  }

  /** A shown item that is moved exchanges the slots of all that they hold. */
  lemma EquippingMovesRecords(cat: Catalogue, b: Bag, dst: nat, unique: nat)
    requires Agree(cat, b) && Shows(b, unique) && SlotOf(b, unique) != NO_SLOT
    ensures RecordsMoved(b, EquipTo(b, dst, unique), SlotOf(b, unique), dst)
  {
    hide Agree, SlotOf, Shows, SwapWeapons, MoveWeapon;
    var src := SlotOf(b, unique);
    Whereabouts(cat, b, unique);
    OccupiedIsTracked(cat, b, dst);
    RecordsShown(cat, b);
    if src != dst {
      if Occupied(b, dst) {
        SwapMoves(b, src, dst, EquipTo(b, dst, unique));
      } else {
        MoveMoves(b, src, dst, EquipTo(b, dst, unique));
      }
    }
  }

  /** What a record says of its slot. */
  ghost predicate WellRecorded(b: Bag) {
    forall s :: s in b.weapons ==>
      b.weapons[s].slot == s && s in b.equip && b.equip[s] == Gear(b.weapons[s].data, b.weapons[s].unique)
  }

  lemma RecordsShown(cat: Catalogue, b: Bag)
    requires Agree(cat, b)
    ensures WellRecorded(b)
  {
    hide Tied, OnePlace, Issued, OneStack, PlacementOf;
  }

  lemma SwapMoves(b: Bag, src: nat, dst: nat, b': Bag)
    requires WellRecorded(b) && src in b.equip && dst in b.equip && src != dst
    requires b'.equip == b.equip[src := b.equip[dst]][dst := b.equip[src]]
    requires b'.weapons == SwapWeapons(b.weapons, src, dst)
    ensures RecordsMoved(b, b', src, dst)
  {}

  lemma MoveMoves(b: Bag, src: nat, dst: nat, b': Bag)
    requires WellRecorded(b) && src in b.equip && dst !in b.weapons && src != dst && src != NO_SLOT
    requires b'.equip == (b.equip - {src})[dst := b.equip[src]]
    requires b'.weapons == MoveWeapon(b.weapons, src, dst)
    ensures RecordsMoved(b, b', src, dst)
  {}

  // ---------------------------------------------------------------- room for a gun

  /** The slot a new gun gets: a primary a free one of the first two, the first before the second, and with
      both taken the one whose gun is in hand, or else the first; any other gun the slot of its kind. */
  function SlotForGun(b: Bag, primary: bool, slot: nat): nat {
    if !primary then slot
    else if 0 !in b.weapons then 0
    else if 1 !in b.weapons then 1
    else if b.onHand == b.weapons[1].unique then 1
    else 0
  }

  /** A primary is displaced exactly when both primary slots carry records. */
  predicate MakesRoom(b: Bag, primary: bool, slot: nat) {
    if primary then 0 in b.weapons && 1 in b.weapons else slot in b.weapons
  }

  /** The gun is in the slot, in hand and tracked; every other record and everything shown elsewhere stays; and
      of what was tracked nothing has gone but the gun that made room. */
  ghost predicate GunArrives(b: Bag, b': Bag, primary: bool, slot: nat, data: nat, unique: nat, ammo: nat) {
    var t := SlotForGun(b, primary, slot);
    && b'.weapons == b.weapons[t := Weapon(t, data, unique, ammo)]
    && b'.equip == b.equip[t := Gear(data, unique)]
    && b'.onHand == unique && unique in b'.tracked && b'.tracked[unique].data == data
    && (t in b.weapons <==> MakesRoom(b, primary, slot))
    && forall u :: u in b.tracked ==>
         && (u !in b'.tracked <==> MakesRoom(b, primary, slot) && u == b.weapons[t].unique)
         && (u in b'.tracked ==> b'.tracked[u] == b.tracked[u])
  }

  lemma PickedSlot(cat: Catalogue, b: Bag)
    requires Agree(cat, b)
    ensures PickPrimarySlot(b) == SlotForGun(b, true, NO_SLOT)
    ensures forall s :: SlotForGun(b, true, s) == SlotForGun(b, true, NO_SLOT)
  {
    hide Tied, Issued, OneStack, PlacementOf;
    if 0 in b.weapons && 1 in b.weapons {
      assert b.equip[0].unique != b.equip[1].unique;
    }
  }

  /** Buying a gun. */
  lemma BoughtGunArrives(shop: Shop, b: Bag, data: nat, mounts: nat)
    requires Agree(shop.cat, b) && data in shop.cat && PlacementOf(shop.cat, data).isWeapon
    ensures var p := PlacementOf(shop.cat, data);
            && BoughtSlot(b, p) == SlotForGun(b, p.isPrimary, p.slot)
            && GunArrives(b, BuyGun(shop, b, data, mounts), p.isPrimary, p.slot, data, b.lastUid + 1, p.ammo)
  {
    hide Agree, PlacementOf, AmmoReserve, PickPrimarySlot;
    var p := PlacementOf(shop.cat, data);
    var slot := BoughtSlot(b, p);
    PickedSlot(shop.cat, b);
    FreshIsNew(shop.cat, b, 1);
    SupplyOnlyAdds(shop, b, data, p, mounts);
    BuyGunTracked(shop, b, data, mounts);
    if slot in b.weapons {
      WeaponIsTracked(shop.cat, b, slot);
    }
  }

  lemma SupplyOnlyAdds(shop: Shop, b: Bag, data: nat, p: Placement, mounts: nat)
    requires forall u :: u in b.tracked ==> u <= b.lastUid
    ensures var b' := Supplied(shop, b, data, p, mounts);
            && b'.weapons == b.weapons && b'.equip == b.equip
            && b.lastUid + 1 in b'.tracked && b'.tracked[b.lastUid + 1] == Item(b.lastUid + 1, data, 1, shop.mag(data))
            && forall u :: u in b.tracked ==> u in b'.tracked && b'.tracked[u] == b.tracked[u]
  {
    hide AmmoReserve;
  }

  lemma BuyGunTracked(shop: Shop, b: Bag, data: nat, mounts: nat)
    ensures var p := PlacementOf(shop.cat, data);
            var slot, b1, b' := BoughtSlot(b, p), Supplied(shop, b, data, p, mounts), BuyGun(shop, b, data, mounts);
            && b'.tracked == (if slot in b.weapons then b1.tracked - {b.weapons[slot].unique} else b1.tracked)
            && b'.weapons == b1.weapons[slot := Weapon(slot, data, b.lastUid + 1, p.ammo)]
            && b'.equip == b1.equip[slot := Gear(data, b.lastUid + 1)] && b'.onHand == b.lastUid + 1
  {
    hide Supplied, PlacementOf, BoughtSlot;
  }

  /** Picking one up. */
  lemma PickedGunArrives(cat: Catalogue, b: Bag, it: Item, mounts: nat)
    requires Agree(cat, b) && it.unique !in b.tracked
    ensures var primary := WeaponAmmo(it.data) != PISTOL_AMMO;
            && LootSlot(b, it.data) == SlotForGun(b, primary, SECONDARY)
            && GunArrives(b, TakeGun(b, it, mounts), primary, SECONDARY, it.data, it.unique, WeaponAmmo(it.data))
  {
    hide Agree, WeaponAmmo, PickPrimarySlot;
    var slot := LootSlot(b, it.data);
    PickedSlot(cat, b);
    if slot in b.weapons {
      WeaponIsTracked(cat, b, slot);
    }
    PutBack(b.weapons, slot, Weapon(slot, it.data, it.unique, WeaponAmmo(it.data)));
    PutBack(b.equip, slot, Gear(it.data, it.unique));
  }

  lemma PutBack<T>(m: map<nat, T>, k: nat, v: T)
    ensures (m - {k})[k := v] == m[k := v]
  {}

  /** A bought or picked gun displaces one exactly when both primary slots carry records, or for a gun of
      another kind its slot does. The one displaced is the primary in hand, and otherwise the one in slot 0;
      it falls as one loaded gun, and if none is displaced nothing falls. */
  lemma NewGun(shop: Shop, k: Kit, d: Deed)
    requires InOrder(shop.cat, k) && Stocked(shop.cat) && Possible(k, d)
    ensures d.Buying? && d.data in shop.cat && d.data != MUSHROOM && PlacementOf(shop.cat, d.data).isWeapon ==>
              var p, k' := PlacementOf(shop.cat, d.data), Do(shop, k, d);
              && GunArrives(k.bag, k'.bag, p.isPrimary, p.slot, d.data, k.bag.lastUid + 1, p.ammo)
              && k'.ground == if MakesRoom(k.bag, p.isPrimary, p.slot)
                              then DropTo(k.ground, Falls(shop, k.bag, p.isPrimary, p.slot), d.pos, d.into) else k.ground
    ensures d.PickingUp? && OnGround(k.ground, d.unique) && WeaponAmmo(ItemOn(k.ground, d.unique).data) != 0 ==>
              var data, k' := ItemOn(k.ground, d.unique).data, Do(shop, k, d);
              var primary := WeaponAmmo(data) != 202;
              && GunArrives(k.bag, k'.bag, primary, 2, data, d.unique, WeaponAmmo(data))
              && (forall u :: OnGround(k'.ground, u) ==>
                    (OnGround(k.ground, u) && u != d.unique)
                    || (MakesRoom(k.bag, primary, 2) && u == Falls(shop, k.bag, primary, 2).unique))
  {
    hide InOrder, Stocked, Possible, BuyGun, BuyStack, TakeGun, TakeStack, PlacementOf, WeaponAmmo, GunArrives, DropTo,
         Agree, SlotForGun, BoughtSlot, Pickup;
    BagAgrees(shop.cat, k);
    match d
    case Buying(data, qty, mounts, dup, pos, into) =>
      if data in shop.cat && data != MUSHROOM && PlacementOf(shop.cat, data).isWeapon {
        var p := PlacementOf(shop.cat, data);
        BoughtGunArrives(shop, k.bag, data, mounts);
        SeededArrives(k.bag, BuyGun(shop, k.bag, data, mounts), data, p.isPrimary, p.slot, p.ammo);
        RoomIsTaken(k.bag, p.isPrimary, p.slot);
      }
    case PickingUp(unique, mounts, dup, pos, into) =>
      if OnGround(k.ground, unique) && WeaponAmmo(ItemOn(k.ground, unique).data) != 0 {
        PickedFalls(shop, k, unique, mounts, dup, pos, into);
      }
    case _ =>
  }

  /** The displaced gun as it lies on the ground. */
  function Falls(shop: Shop, b: Bag, primary: bool, slot: nat): Item
    requires MakesRoom(b, primary, slot)
  {
    var w := b.weapons[SlotForGun(b, primary, slot)];
    Item(w.unique, w.data, 1, shop.mag(w.data))
  }

  lemma RoomIsTaken(b: Bag, primary: bool, slot: nat)
    ensures SlotForGun(b, primary, slot) in b.weapons <==> MakesRoom(b, primary, slot)
  {}

  lemma SeededArrives(b: Bag, b1: Bag, data: nat, primary: bool, slot: nat, ammo: nat)
    requires GunArrives(b, b1, primary, slot, data, b.lastUid + 1, ammo)
    ensures GunArrives(b, Seeded(b1, data), primary, slot, data, b.lastUid + 1, ammo)
  {
    hide MaxDur, ArmorSlot, SlotForGun;
  }

  lemma PickedFalls(shop: Shop, k: Kit, unique: nat, mounts: nat, dup: nat, pos: Pos, into: nat)
    requires InOrder(shop.cat, k) && Stocked(shop.cat) && Possible(k, PickingUp(unique, mounts, dup, pos, into))
    requires OnGround(k.ground, unique) && WeaponAmmo(ItemOn(k.ground, unique).data) != 0
    ensures var data, k' := ItemOn(k.ground, unique).data, Pickup(shop, k, unique, mounts, dup, pos, into);
            var primary := WeaponAmmo(data) != 202;
            && GunArrives(k.bag, k'.bag, primary, 2, data, unique, WeaponAmmo(data))
            && (forall u :: OnGround(k'.ground, u) ==>
                  (OnGround(k.ground, u) && u != unique)
                  || (MakesRoom(k.bag, primary, 2) && u == Falls(shop, k.bag, primary, 2).unique))
  {
    hide Agree, Orderly, RealGround, TakeGun, TakeStack, Place, LootSlot, DropTo, Merges, Stocked, OnGround, Close,
         TakeFrom, WeaponAmmo, IsDup, Real, Displace, GunArrives, SlotForGun;
    PickedIs(k, unique);
    var id, it := Place(k.ground, unique).0, ItemOn(k.ground, unique);
    var g := TakeFrom(k.ground, id, unique);
    var slot := LootSlot(k.bag, it.data);
    var primary := WeaponAmmo(it.data) != 202;
    TakeInOrder(k.ground, id, Place(k.ground, unique).1, unique);
    PickedGunArrives(shop.cat, k.bag, it, mounts);
    RoomIsTaken(k.bag, primary, 2);
    if slot in k.bag.weapons {
      WeaponIsTracked(shop.cat, k.bag, slot);
    }
    OustedInOrder(shop, k, g, slot, pos, into, id, unique);
    KeptIsFilled(shop, g, k.bag, slot, pos, into, id);
    CloseInOrder(Displace(shop, g, k.bag, slot, pos, into), id,
                 |g.boxes[id].items| == 0 && !(slot in k.bag.weapons && into == id));
  }

  // ---------------------------------------------------------------- shown weapons and their records

  /** Every weapon shown has its record. */
  ghost predicate Armed(cat: Catalogue, b: Bag) {
    forall s :: s in b.equip && ShownWeapon(cat, b.equip[s]) ==> s in b.weapons
  }

  ghost predicate ShownWeapon(cat: Catalogue, g: Gear) {
    g.unique != 0 && PlacementOf(cat, g.data).isWeapon
  }

  /** A weapon that is carried but not shown is put into a slot; or one that the pick-up does not take for a gun
      is folded into one of its kind that is shown. */
  ghost predicate Disarms(cat: Catalogue, k: Kit, d: Deed) {
    match d
    case Equipping(dst, unique) =>
      && unique in k.bag.tracked && !Shows(k.bag, unique) && dst != NO_SLOT
      && PlacementOf(cat, k.bag.tracked[unique].data).isWeapon
    case PickingUp(unique, mounts, dup, pos, into) =>
      && OnGround(k.ground, unique) && dup in k.bag.tracked && Shows(k.bag, dup)
      && WeaponAmmo(ItemOn(k.ground, unique).data) == 0 && PlacementOf(cat, ItemOn(k.ground, unique).data).isWeapon
    case _ => false
  }

  /** The slot gets what it is to show, with a record if that is a weapon. */
  lemma ArmedPut(cat: Catalogue, b: Bag, b': Bag, slot: nat, g: Gear)
    requires Armed(cat, b) && b'.equip == b.equip[slot := g] && (ShownWeapon(cat, g) ==> slot in b'.weapons)
    requires forall s :: s != slot && s in b.weapons ==> s in b'.weapons
    ensures Armed(cat, b')
  {
    hide ShownWeapon;
  }

  lemma ArmedLess(cat: Catalogue, b: Bag, b': Bag)
    requires Armed(cat, b)
    requires forall s :: s in b'.equip ==> s in b.equip && b'.equip[s] == b.equip[s] && (s in b.weapons ==> s in b'.weapons)
    ensures Armed(cat, b')
  {
    hide ShownWeapon;
  }

  lemma Unarmed(cat: Catalogue, b: Bag, slot: nat, g: Gear)
    requires slot in b.equip && b.equip[slot] == g && ShownWeapon(cat, g) && slot !in b.weapons
    ensures !Armed(cat, b)
  {
    hide ShownWeapon;
  }

  lemma ArrivalArmed(cat: Catalogue, b: Bag, b': Bag, primary: bool, slot: nat, data: nat, unique: nat, ammo: nat)
    requires Armed(cat, b) && GunArrives(b, b', primary, slot, data, unique, ammo)
    ensures Armed(cat, b')
  {
    hide Armed, ShownWeapon, SlotForGun;
    ArmedPut(cat, b, b', SlotForGun(b, primary, slot), Gear(data, unique));
  }

  /** Moved guns take their records along. */
  lemma MovedArmed(cat: Catalogue, b: Bag, b': Bag, src: nat, dst: nat)
    requires Armed(cat, b) && RecordsMoved(b, b', src, dst)
    requires forall s :: s in b'.equip ==> Exchanged(src, dst, s) in b.equip && b'.equip[s] == b.equip[Exchanged(src, dst, s)]
    ensures Armed(cat, b')
  {
    hide ShownWeapon, Exchanged;
    forall s | s in b'.equip && ShownWeapon(cat, b'.equip[s]) ensures s in b'.weapons {
      ExchangedBack(src, dst, s);
      assert Exchanged(src, dst, s) in b.weapons;
    }
  }

  lemma ExchangedBack(a: nat, b: nat, s: nat)
    ensures Exchanged(a, b, Exchanged(a, b, s)) == s
  {}

  lemma EquipArmed(cat: Catalogue, b: Bag, dst: nat, unique: nat)
    requires Agree(cat, b) && Armed(cat, b) && (ShownNowhere(b, unique) ==> dst == NO_SLOT)
    ensures Armed(cat, EquipTo(b, dst, unique))
       <==> !(unique in b.tracked && !Shows(b, unique) && dst != NO_SLOT && PlacementOf(cat, b.tracked[unique].data).isWeapon)
  {
    hide Agree, Armed, SlotOf, Shows, SwapWeapons, MoveWeapon, PlacementOf, RecordsMoved;
    var src, b' := SlotOf(b, unique), EquipTo(b, dst, unique);
    Whereabouts(cat, b, unique);
    if Shows(b, unique) && src != NO_SLOT {
      EquippingMovesRecords(cat, b, dst, unique);
      MovedArmed(cat, b, b', src, dst);
    } else if unique in b.tracked && !Shows(b, unique) && dst != NO_SLOT {
      PutOnArmed(cat, b, dst, unique);
    }
  }

  lemma PutOnArmed(cat: Catalogue, b: Bag, dst: nat, unique: nat)
    requires Agree(cat, b) && Armed(cat, b) && unique in b.tracked && !Shows(b, unique) && dst != NO_SLOT
    ensures Armed(cat, EquipTo(b, dst, unique)) <==> !PlacementOf(cat, b.tracked[unique].data).isWeapon
  {
    hide Agree, Armed, Shows, PlacementOf;
    var b', g := EquipTo(b, dst, unique), Gear(b.tracked[unique].data, unique);
    NoZeroTracked(cat, b);
    OccupiedIsTracked(cat, b, dst);
    StayPut(if Occupied(b, dst) then b.weapons - {dst} else b.weapons, dst);
    assert dst !in b'.weapons && b'.equip == b.equip[dst := g];
    if PlacementOf(cat, b.tracked[unique].data).isWeapon {
      Unarmed(cat, b', dst, g);
    } else {
      ArmedPut(cat, b, b', dst, g);
    }
  }

  lemma TakeStackArmed(cat: Catalogue, b: Bag, it: Item, dup: nat)
    requires Agree(cat, b) && Armed(cat, b) && it.unique !in b.tracked && it.unique != 0
    ensures Armed(cat, TakeStack(b, it, dup))
       <==> !(dup in b.tracked && Shows(b, dup) && PlacementOf(cat, it.data).isWeapon)
  {
    hide Agree, Armed, Shows, SlotOf, PlacementOf, Strip;
    if dup in b.tracked {
      var b1 := Strip(b, dup);
      StripArmed(cat, b, dup);
      var b', g := TakeStack(b, it, dup), Gear(it.data, it.unique);
      if Shows(b, dup) {
        WornSlot(cat, b, dup);
        if PlacementOf(cat, it.data).isWeapon {
          Unarmed(cat, b', SlotOf(b, dup), g);
        } else {
          ArmedPut(cat, b1, b', SlotOf(b, dup), g);
        }
      } else {
        ArmedLess(cat, b1, b');
      }
    } else {
      ArmedLess(cat, b, TakeStack(b, it, dup));
    }
  }

  lemma StripArmed(cat: Catalogue, b: Bag, u: nat)
    requires Agree(cat, b) && Armed(cat, b)
    ensures Armed(cat, Strip(b, u))
  {
    hide Agree, Armed;
    RecordsShown(cat, b);
    ArmedLess(cat, b, Strip(b, u));
  }

  lemma PickupArmed(shop: Shop, k: Kit, unique: nat, mounts: nat, dup: nat, pos: Pos, into: nat)
    requires InOrder(shop.cat, k) && Stocked(shop.cat) && Armed(shop.cat, k.bag)
    ensures Armed(shop.cat, Pickup(shop, k, unique, mounts, dup, pos, into).bag)
       <==> !Disarms(shop.cat, k, PickingUp(unique, mounts, dup, pos, into))
  {
    hide Agree, Armed, Orderly, RealGround, TakeGun, TakeStack, Place, LootSlot, Stocked, OnGround, Close, TakeFrom,
         WeaponAmmo, Real, Displace, GunArrives, Shows, PlacementOf;
    if OnGround(k.ground, unique) {
      PickedIs(k, unique);
      var it := ItemOn(k.ground, unique);
      if WeaponAmmo(it.data) != 0 {
        PickedGunArrives(shop.cat, k.bag, it, mounts);
        ArrivalArmed(shop.cat, k.bag, TakeGun(k.bag, it, mounts), WeaponAmmo(it.data) != PISTOL_AMMO, SECONDARY, it.data,
                     it.unique, WeaponAmmo(it.data));
      } else {
        TakeStackArmed(shop.cat, k.bag, it, dup);
      }
    }
  }

  lemma BuyArmed(shop: Shop, k: Kit, data: nat, qty: nat, mounts: nat, dup: nat, pos: Pos, into: nat)
    requires Agree(shop.cat, k.bag) && Stocked(shop.cat) && Armed(shop.cat, k.bag)
    ensures Armed(shop.cat, Buy(shop, k, data, qty, mounts, dup, pos, into).bag)
  {
    hide Agree, Armed, Stocked, PlacementOf, GunArrives, BuyGun, MaxDur, ArmorSlot, Seeded, Displace;
    if data in shop.cat && data != MUSHROOM {
      var p := PlacementOf(shop.cat, data);
      if p.isWeapon {
        var b := BuyGun(shop, k.bag, data, mounts);
        BoughtGunArrives(shop, k.bag, data, mounts);
        ArrivalArmed(shop.cat, k.bag, b, p.isPrimary, p.slot, data, k.bag.lastUid + 1, p.ammo);
        SeededShows(b, data);
        ArmedLess(shop.cat, b, Seeded(b, data));
      } else {
        var b := StackUp(shop, k.bag, data, if qty == 0 then 1 else qty, dup);
        SeededShows(b, data);
        if p.slot != NO_SLOT {
          ArmedPut(shop.cat, k.bag, b, p.slot, b.equip[p.slot]);
        } else {
          ArmedLess(shop.cat, k.bag, b);
        }
        ArmedLess(shop.cat, b, Seeded(b, data));
      }
    }
  }

  lemma SeededShows(b: Bag, data: nat)
    ensures Seeded(b, data).equip == b.equip && Seeded(b, data).weapons == b.weapons
  {}

  lemma RestArmed(shop: Shop, k: Kit, d: Deed)
    requires Agree(shop.cat, k.bag) && Armed(shop.cat, k.bag) && Stocked(shop.cat) && Guarded(shop.cat, k.bag, d)
    requires !d.Buying? && !d.PickingUp? && !d.Equipping?
    ensures Armed(shop.cat, Do(shop, k, d).bag)
  {
    hide Agree, Armed, ShownWeapon, Stocked, Strip, IsWeaponUID, BestWeaponUID, GlooStack, DurOf, AmmoReserve, WallFits,
         DropTo, Wear, Fresh;
    match d
    case Dropping(unique, pos, into) => StripArmed(shop.cat, k.bag, unique);
    case Wearing(slot, left) => WearArmed(shop.cat, k.bag, slot, left);
    case Resetting(noLoadout, mounts) => FreshArmed(shop, k.bag, noLoadout, mounts);
    case _ => ArmedLess(shop.cat, k.bag, Do(shop, k, d).bag);
  }

  lemma WearArmed(cat: Catalogue, b: Bag, slot: nat, left: nat)
    requires Agree(cat, b) && Armed(cat, b) && slot !in b.weapons
    ensures Armed(cat, Wear(b, slot, left))
  {
    hide Agree, DurOf, PlacementOf;
    OccupiedIsTracked(cat, b, slot);
  }

  lemma FreshArmed(shop: Shop, b: Bag, noLoadout: bool, mounts: nat)
    ensures Armed(shop.cat, Fresh(shop, b, noLoadout, mounts))
  {
    hide PlacementOf, AmmoReserve;
  }

  /** Of all that can happen in order, exactly the two deeds named leave a shown weapon without its record. */
  lemma DeedArmed(shop: Shop, k: Kit, d: Deed)
    requires InOrder(shop.cat, k) && Stocked(shop.cat) && Armed(shop.cat, k.bag) && Guarded(shop.cat, k.bag, d)
    ensures Armed(shop.cat, Do(shop, k, d).bag) <==> !Disarms(shop.cat, k, d)
  {
    hide InOrder, Agree, Stocked, Armed, Guarded, Buy, Pickup, EquipTo, Shows, PlacementOf;
    BagAgrees(shop.cat, k);
    match d
    case Buying(data, qty, mounts, dup, pos, into) => BuyArmed(shop, k, data, qty, mounts, dup, pos, into);
    case PickingUp(unique, mounts, dup, pos, into) => PickupArmed(shop, k, unique, mounts, dup, pos, into);
    case Equipping(dst, unique) =>
      GuardedEquip(shop.cat, k.bag, dst, unique);
      EquipArmed(shop.cat, k.bag, dst, unique);
    case _ => RestArmed(shop, k, d);
  }

  lemma GuardedEquip(cat: Catalogue, b: Bag, dst: nat, unique: nat)
    requires Guarded(cat, b, Equipping(dst, unique))
    ensures ShownNowhere(b, unique) ==> dst == NO_SLOT
  {}

  ghost predicate NeverDisarms(shop: Shop, run: seq<Deed>) {
    forall n :: 0 <= n < |run| ==> !Disarms(shop.cat, RunDeeds(shop, run[..n]), run[n])
  }

  /** Over every guarded run without those two deeds, a slot that shows a weapon carries its record, and the
      other way round. */
  lemma {:induction false} RunArmed(shop: Shop, run: seq<Deed>)
    requires Stocked(shop.cat) && AllAllowed(shop, run) && NeverDisarms(shop, run)
    ensures var b := RunDeeds(shop, run).bag;
            && Armed(shop.cat, b)
            && forall s :: s in b.weapons <==> s in b.equip && ShownWeapon(shop.cat, b.equip[s])
  {
    hide Stocked, Possible, Guarded, Do, Agree, Orderly, InOrder, Disarms, Armed, ShownWeapon;
    RunKeeps(shop, run);
    if |run| == 0 {
      StartArmed(shop.cat);
    } else {
      var init := run[..|run| - 1];
      forall n | 0 <= n < |init|
        ensures Allowed(shop, RunDeeds(shop, init[..n]), init[n]) && !Disarms(shop.cat, RunDeeds(shop, init[..n]), init[n])
      {
        assert init[..n] == run[..n];
      }
      RunArmed(shop, init);
      RunKeeps(shop, init);
      DeedArmed(shop, RunDeeds(shop, init), run[|run| - 1]);
    }
    ArmedBothWays(shop.cat, RunDeeds(shop, run));
  }

  lemma StartArmed(cat: Catalogue)
    ensures Armed(cat, START.bag)
  {}

  lemma ArmedBothWays(cat: Catalogue, k: Kit)
    requires InOrder(cat, k) && Armed(cat, k.bag)
    ensures forall s :: s in k.bag.weapons <==> s in k.bag.equip && ShownWeapon(cat, k.bag.equip[s])
  {
    hide Tied, OnePlace, Issued, OneStack, Orderly, RealGround, PlacementOf;
  }
}
