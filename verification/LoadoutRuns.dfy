/** What one purchase, pickup, slot change, use, worn piece, wall or reset makes of a loadout whose three
    indexes agree: for those that write a slot, the exact condition under which they still do. */
module LoadoutRuns {
  import opened Items
  import opened Loadout
  import opened Deeds

  // ---------------------------------------------------------------- what is where

  /** Uniques above the counter are nowhere in the loadout. */
  lemma FreshIsNew(cat: Catalogue, b: Bag, n: nat)
    requires Agree(cat, b)
    ensures forall u :: u > b.lastUid ==> u !in b.tracked
    ensures forall s :: s in b.equip ==> b.equip[s].unique <= b.lastUid
  {
    hide Recorded, OneStack, OnePlace, Real;
  }

  lemma NoZeroTracked(cat: Catalogue, b: Bag)
    requires Agree(cat, b)
    ensures 0 !in b.tracked
  {
    hide Tied, OnePlace, Recorded, OneStack, Real;
  }

  lemma TrackedHere(cat: Catalogue, b: Bag, u: nat)
    requires Agree(cat, b) && u in b.tracked
    ensures b.tracked[u].unique == u && 0 < u <= b.lastUid && Real(b.tracked[u])
  {
    hide Tied, OnePlace, Recorded, OneStack, Real;
  }

  lemma WeaponIsTracked(cat: Catalogue, b: Bag, slot: nat)
    requires Agree(cat, b) && slot in b.weapons
    ensures var w := b.weapons[slot];
            && 0 < w.unique <= b.lastUid && w.unique in b.tracked && w.data != 0 && b.tracked[w.unique].data == w.data
            && slot in b.equip && b.equip[slot] == Gear(w.data, w.unique) && PlacementOf(cat, w.data).isWeapon
  {
    hide OnePlace, OneStack, PlacementOf;
  }

  lemma NotWorn(cat: Catalogue, b: Bag, u: nat)
    requires Agree(cat, b) && u !in b.tracked && u != 0
    ensures forall s :: s in b.equip ==> b.equip[s].unique != u
  {
    hide OnePlace, Recorded, Issued, OneStack;
  }

  lemma ElsewhereNot(cat: Catalogue, b: Bag, slot: nat)
    requires Agree(cat, b) && slot in b.equip
    ensures forall s :: s in b.equip && s != slot ==> b.equip[s].unique != b.equip[slot].unique
  {
    hide Tied, Recorded, Issued, OneStack;
  }

  /** An occupied slot shows a tracked item. */
  lemma OccupiedIsTracked(cat: Catalogue, b: Bag, slot: nat)
    requires Agree(cat, b)
    ensures Occupied(b, slot) ==> slot in b.equip && b.equip[slot].unique != 0 && b.equip[slot].data != 0
                                  && b.equip[slot].unique in b.tracked && b.equip[slot].unique <= b.lastUid
                                  && b.tracked[b.equip[slot].unique].data == b.equip[slot].data
    ensures slot in b.weapons ==> Occupied(b, slot)
  {
    hide OnePlace, OneStack, PlacementOf, Real;
  }

  /** No other tracked item shares the data of a stackable one. */
  lemma OnlyStack(cat: Catalogue, b: Bag, u: nat)
    requires Agree(cat, b) && u in b.tracked
    ensures Stackable(cat, b.tracked[u].data) ==>
              forall v :: v in b.tracked && v != u ==> b.tracked[v].data != b.tracked[u].data
  {
    hide Tied, OnePlace, Recorded, Issued, Stackable;
  }

  // ---------------------------------------------------------------- guns

  /** The fresh uniques do not meet the one that leaves. */
  lemma SuppliedWithout(shop: Shop, b: Bag, b1: Bag, data: nat, p: Placement, mounts: nat, u: nat)
    requires u <= b.lastUid && b1.tracked == b.tracked - {u} && b1.lastUid == b.lastUid
    ensures Supplied(shop, b1, data, p, mounts).tracked == Supplied(shop, b, data, p, mounts).tracked - {u}
    ensures Supplied(shop, b1, data, p, mounts).lastUid == Supplied(shop, b, data, p, mounts).lastUid
  {
    hide AmmoReserve;
    var gun, ammo := Item(b.lastUid + 1, data, 1, shop.mag(data)), Item(b.lastUid + 2, p.ammo, AmmoReserve(p.ammo), 0);
    assert b1.tracked[gun.unique := gun] == b.tracked[gun.unique := gun] - {u};
    assert b1.tracked[gun.unique := gun][ammo.unique := ammo] == b.tracked[gun.unique := gun][ammo.unique := ammo] - {u};
  }

  lemma SuppliedFrame(shop: Shop, b: Bag, data: nat, p: Placement, mounts: nat)
    ensures var b' := Supplied(shop, b, data, p, mounts); b' == b.(tracked := b'.tracked, lastUid := b'.lastUid)
  {}

  lemma ArmOver(b: Bag, b1: Bag, slot: nat, data: nat, unique: nat, ammo: nat)
    requires b1.equip == b.equip - {slot} && b1.weapons == b.weapons - {slot}
    requires b1 == b.(equip := b1.equip, weapons := b1.weapons, onHand := b1.onHand)
    ensures Arm(b1, slot, data, unique, ammo) == Arm(b, slot, data, unique, ammo)
  {
    assert b1.equip[slot := Gear(data, unique)] == b.equip[slot := Gear(data, unique)];
    var w := Weapon(slot, data, unique, ammo);
    assert b1.weapons[slot := w] == b.weapons[slot := w];
  }

  /** A displaced weapon leaves first: the purchase then fills an empty slot. */
  lemma BuyGunFillsSlot(shop: Shop, b: Bag, data: nat, mounts: nat)
    requires Agree(shop.cat, b)
    ensures var p := PlacementOf(shop.cat, data);
            var slot := BoughtSlot(b, p);
            BuyGun(shop, b, data, mounts)
            == Arm(Supplied(shop, Unarm(b, slot), data, p, mounts), slot, data, b.lastUid + 1, p.ammo)
  {
    hide PlacementOf, BoughtSlot, Agree, Arm, Supplied;
    var p := PlacementOf(shop.cat, data);
    var slot := BoughtSlot(b, p);
    if slot in b.weapons {
      var u := b.weapons[slot].unique;
      WeaponIsTracked(shop.cat, b, slot);
      SuppliedWithout(shop, b, Unarm(b, slot), data, p, mounts, u);
      SuppliedFrame(shop, b, data, p, mounts);
      SuppliedFrame(shop, Unarm(b, slot), data, p, mounts);
      ArmOver(Untrack(Supplied(shop, b, data, p, mounts), u), Supplied(shop, Unarm(b, slot), data, p, mounts), slot, data,
              b.lastUid + 1, p.ammo);
    }
  }

  lemma SuppliedAgrees(shop: Shop, b: Bag, data: nat, mounts: nat)
    requires Agree(shop.cat, b) && Stocked(shop.cat) && data in shop.cat && PlacementOf(shop.cat, data).isWeapon
    ensures var b' := Supplied(shop, b, data, PlacementOf(shop.cat, data), mounts);
            && Agree(shop.cat, b') && b'.weapons == b.weapons && b'.equip == b.equip
            && b.lastUid + 1 in b'.tracked && b'.tracked[b.lastUid + 1] == Item(b.lastUid + 1, data, 1, shop.mag(data))
            && b'.tracked.Keys <= b.tracked.Keys + {b.lastUid + 1, b.lastUid + 2} && b'.lastUid >= b.lastUid
  {
    hide Agree, AmmoReserve, PlacementOf;
    var p := PlacementOf(shop.cat, data);
    var uid := b.lastUid + 1;
    BoughtAmmo(shop.cat, data);
    FreshIsNew(shop.cat, b, 2);
    GunIsNoStack(shop.cat, data);
    NumberedAgrees(shop.cat, b, 1);
    var b1 := Track(Numbered(b, 1), Item(uid, data, 1, shop.mag(data)));
    TrackNewAgrees(shop.cat, Numbered(b, 1), Item(uid, data, 1, shop.mag(data)));
    NumberedAgrees(shop.cat, b1, 1);
    if p.ammo != 0 {
      AmmoIsReal(shop.cat, p.ammo);
      TrackNewAgrees(shop.cat, Numbered(b1, 1), Item(uid + 1, p.ammo, AmmoReserve(p.ammo), 0));
      NumberedAgrees(shop.cat, Track(Numbered(b1, 1), Item(uid + 1, p.ammo, AmmoReserve(p.ammo), 0)), mounts);
    } else {
      NumberedAgrees(shop.cat, b1, mounts);
    }
  }

  lemma GunIsNoStack(cat: Catalogue, data: nat)
    requires PlacementOf(cat, data).isWeapon
    ensures !Stackable(cat, data)
  {}

  lemma AmmoIsReal(cat: Catalogue, ammo: nat)
    requires IsAmmo(ammo)
    ensures !Stackable(cat, ammo) && WeaponAmmo(ammo) == 0 && ammo != 0
  {}

  /** A bought gun fits in whatever the slots hold; the one it displaces is no longer tracked. */
  lemma BuyGunAgrees(shop: Shop, b: Bag, data: nat, mounts: nat)
    requires Agree(shop.cat, b) && Stocked(shop.cat) && data in shop.cat && PlacementOf(shop.cat, data).isWeapon
    ensures var b' := BuyGun(shop, b, data, mounts);
            && Agree(shop.cat, b') && b'.lastUid >= b.lastUid
            && (forall u :: u in b'.tracked ==> u in b.tracked || u > b.lastUid)
            && (var slot := BoughtSlot(b, PlacementOf(shop.cat, data));
                slot in b.weapons ==> b.weapons[slot].unique !in b'.tracked)
  {
    hide Agree, PlacementOf, Arm, Unarm, Supplied, BuyGun, PickPrimarySlot;
    var p := PlacementOf(shop.cat, data);
    var slot := BoughtSlot(b, p);
    BuyGunFillsSlot(shop, b, data, mounts);
    UnarmAgrees(shop.cat, b, slot);
    UnarmFrame(b, slot);
    var b1 := Unarm(b, slot);
    SuppliedAgrees(shop, b1, data, mounts);
    var b2 := Supplied(shop, b1, data, p, mounts);
    FreshIsNew(shop.cat, b1, 1);
    ArmAgrees(shop.cat, b2, slot, data, b.lastUid + 1, p.ammo);
    ArmFrame(b2, slot, data, b.lastUid + 1, p.ammo);
    if slot in b.weapons {
      WeaponIsTracked(shop.cat, b, slot);
    }
  }

  lemma UnarmFrame(b: Bag, slot: nat)
    ensures Unarm(b, slot).lastUid == b.lastUid && Unarm(b, slot).tracked.Keys <= b.tracked.Keys
    ensures forall u :: u in Unarm(b, slot).tracked ==> Unarm(b, slot).tracked[u] == b.tracked[u]
  {}

  lemma ArmFrame(b: Bag, slot: nat, data: nat, unique: nat, ammo: nat)
    ensures Arm(b, slot, data, unique, ammo).tracked == b.tracked && Arm(b, slot, data, unique, ammo).lastUid == b.lastUid
  {}

  /** A picked gun takes its slot, and whatever held it is no longer tracked. */
  lemma TakeGunAgrees(cat: Catalogue, b: Bag, it: Item, mounts: nat)
    requires Agree(cat, b) && Stocked(cat) && WeaponAmmo(it.data) != 0 && Real(it)
    requires it.unique !in b.tracked && 0 < it.unique <= b.lastUid
    ensures var b' := TakeGun(b, it, mounts);
            && Agree(cat, b') && b'.lastUid >= b.lastUid
            && (forall u :: u in b'.tracked ==> u in b.tracked || u == it.unique)
            && (var slot := LootSlot(b, it.data);
                slot in b.weapons ==> b.weapons[slot].unique !in b'.tracked)
  {
    hide Agree, WeaponAmmo, Arm, Unarm, PickPrimarySlot, Stackable, PlacementOf;
    var slot := LootSlot(b, it.data);
    KnownGuns(cat, it.data);
    GunIsNoStack(cat, it.data);
    UnarmAgrees(cat, b, slot);
    UnarmFrame(b, slot);
    var b1 := Unarm(b, slot);
    TrackNewAgrees(cat, b1, it);
    NotWorn(cat, b1, it.unique);
    ArmAgrees(cat, Track(b1, it), slot, it.data, it.unique, WeaponAmmo(it.data));
    ArmThenTrack(b1, slot, it, WeaponAmmo(it.data));
    ArmFrame(Track(b1, it), slot, it.data, it.unique, WeaponAmmo(it.data));
    NumberedAgrees(cat, Arm(Track(b1, it), slot, it.data, it.unique, WeaponAmmo(it.data)), mounts);
    if slot in b.weapons {
      WeaponIsTracked(cat, b, slot);
    }
  }

  lemma ArmThenTrack(b: Bag, slot: nat, it: Item, ammo: nat)
    ensures Track(Arm(b, slot, it.data, it.unique, ammo), it) == Arm(Track(b, it), slot, it.data, it.unique, ammo)
  {}

  // ---------------------------------------------------------------- stacks

  /** The slot of a bought stack carries no weapon record, and a stack that grows is shown nowhere else. */
  ghost predicate StackFits(cat: Catalogue, b: Bag, data: nat, dup: nat) {
    var p := PlacementOf(cat, data);
    p.slot == NO_SLOT
    || (p.slot !in b.weapons && (dup in b.tracked && !p.isArmor && Shows(b, dup) ==> SlotOf(b, dup) == p.slot))
  }

  /** A bought stack or piece of armour leaves the indexes in agreement exactly when it fits. */
  lemma BuyStackAgrees(shop: Shop, b: Bag, data: nat, qty: nat, dup: nat)
    requires Agree(shop.cat, b) && Stocked(shop.cat) && data in shop.cat && !PlacementOf(shop.cat, data).isWeapon
    requires IsDup(b.tracked, data, 0, dup)
    ensures var b' := BuyStack(shop, b, data, qty, dup);
            && (Agree(shop.cat, b') <==> StackFits(shop.cat, b, data, dup)) && b'.lastUid >= b.lastUid
            && (forall u :: u in b'.tracked ==> u in b.tracked || u > b.lastUid)
  {
    hide Agree, PlacementOf, MaxDur, ArmorSlot, Stocked;
    var p := PlacementOf(shop.cat, data);
    var merge := dup in b.tracked && !p.isArmor;
    var uid := if merge then dup else b.lastUid + 1;
    var it := if merge then b.tracked[dup].(count := b.tracked[dup].count + qty)
              else Item(uid, data, qty, if p.isArmor then MaxDur(data) else 0);
    NoZeroTracked(shop.cat, b);
    if merge {
      TrackedHere(shop.cat, b, dup);
    }
    BoughtStack(shop, b, data, dup, it);
    var b1 := Track(Numbered(b, 1), it);
    if p.slot != NO_SLOT {
      SetEquipAgrees(shop.cat, b1, p.slot, data, uid);
      ShownElsewhere(shop.cat, b, uid, p.slot);
    }
    var b2 := if p.slot != NO_SLOT then SetEquip(b1, p.slot, data, uid) else b1;
    HandsAgree(shop.cat, b2, b2.onHand, b2.beforeGloo, Seeded(b2, data).vestDur, Seeded(b2, data).helmetDur);
  }

  lemma ShownElsewhere(cat: Catalogue, b: Bag, u: nat, slot: nat)
    requires Agree(cat, b)
    ensures (forall s :: s in b.equip && s != slot ==> b.equip[s].unique != u) <==> (Shows(b, u) ==> SlotOf(b, u) == slot)
    ensures u > b.lastUid ==> !Shows(b, u)
  {
    hide Tied, Recorded, Issued, OneStack;
    FreshIsNew(cat, b, 1);
    if Shows(b, u) {
      SlotShows(b, u);
    }
  }

  /** The bought stack: more of the one that is there, or a new one. */
  lemma BoughtStack(shop: Shop, b: Bag, data: nat, dup: nat, it: Item)
    requires Agree(shop.cat, b) && Stocked(shop.cat) && data in shop.cat && !PlacementOf(shop.cat, data).isWeapon
    requires IsDup(b.tracked, data, 0, dup) && it.data == data
    requires it.unique == if dup in b.tracked && !PlacementOf(shop.cat, data).isArmor then dup else b.lastUid + 1
    ensures Agree(shop.cat, Track(Numbered(b, 1), it)) && it.unique != 0
    ensures it.unique in b.tracked ==> b.tracked[it.unique].data == data
  {
    hide Agree, PlacementOf;
    InShop(shop.cat, data);
    FreshIsNew(shop.cat, b, 1);
    NumberedAgrees(shop.cat, b, 1);
    NoZeroTracked(shop.cat, b);
    if it.unique == dup {
      TrackedHere(shop.cat, b, dup);
      RecountAgrees(shop.cat, Numbered(b, 1), it);
    } else {
      TrackNewAgrees(shop.cat, Numbered(b, 1), it);
    }
  }

  lemma InShop(cat: Catalogue, data: nat)
    requires Stocked(cat) && data in cat
    ensures data != 0 && !IsAmmo(data) && (PlacementOf(cat, data).isArmor ==> !Stackable(cat, data))
  {
    hide PlaceItem;
  }

  /** A folded stack is still one stack, in the slot and the hand of the one it replaces. */
  lemma TakeStackAgrees(cat: Catalogue, b: Bag, it: Item, dup: nat)
    requires Agree(cat, b) && Real(it)
    requires it.unique !in b.tracked && 0 < it.unique <= b.lastUid && IsDup(b.tracked, it.data, it.unique, dup)
    ensures var b' := TakeStack(b, it, dup);
            && Agree(cat, b') && b'.lastUid == b.lastUid
            && (forall u :: u in b'.tracked ==> u in b.tracked || u == it.unique)
  {
    hide Agree, Stackable, Strip, SlotOf, Shows, Real;
    NoZeroTracked(cat, b);
    if dup in b.tracked {
      var b1 := Strip(b, dup);
      var more := it.(count := it.count + b.tracked[dup].count);
      StripAgrees(cat, b, dup);
      StripFrame(b, dup);
      OnlyStack(cat, b, dup);
      SameReal(it, more);
      TrackNewAgrees(cat, b1, more);
      NotWorn(cat, b1, it.unique);
      var b2 := if Shows(b, dup) then SetEquip(Track(b1, more), SlotOf(b, dup), it.data, it.unique) else Track(b1, more);
      if Shows(b, dup) {
        WornSlot(cat, b, dup);
        SetEquipKeeps(cat, Track(b1, more), SlotOf(b, dup), it.data, it.unique);
      }
      var hand := if b.onHand == dup then it.unique else b2.onHand;
      HandsAgree(cat, b2, hand, b2.beforeGloo, b2.vestDur, b2.helmetDur);
      assert TakeStack(b, it, dup) == b2.(onHand := hand);
    } else {
      TrackNewAgrees(cat, b, it);
    }
  }

  lemma SameReal(it: Item, more: Item)
    requires Real(it) && more.data == it.data
    ensures Real(more)
  {}

  lemma StripFrame(b: Bag, u: nat)
    ensures Strip(b, u).lastUid == b.lastUid && Strip(b, u).tracked == b.tracked - {u}
  {}

  /** The slot of a stripped item carries no weapon record of another. */
  lemma WornSlot(cat: Catalogue, b: Bag, u: nat)
    requires Agree(cat, b) && Shows(b, u)
    ensures SlotOf(b, u) !in Strip(b, u).weapons
  {
    hide Tied, Issued, OneStack, PlacementOf;
    SlotShows(b, u);
  }

  // ---------------------------------------------------------------- slots

  /** The item is shown in slot 255, which the source reads as no slot. */
  predicate ShownNowhere(b: Bag, unique: nat) {
    NO_SLOT in b.equip && b.equip[NO_SLOT].unique == unique
  }

  lemma SwapAgrees(cat: Catalogue, b: Bag, src: nat, dst: nat)
    requires Agree(cat, b) && src in b.equip && dst in b.equip && src != dst
    ensures Agree(cat, b.(equip := b.equip[src := b.equip[dst]][dst := b.equip[src]],
                          weapons := SwapWeapons(b.weapons, src, dst)))
  {
    hide Tied, OnePlace, Recorded, Issued, OneStack;
    var b' := b.(equip := b.equip[src := b.equip[dst]][dst := b.equip[src]], weapons := SwapWeapons(b.weapons, src, dst));
    SwappedShown(b, src, dst, b'.weapons);
    SwappedRecords(cat, b, src, dst);
    SameTracked(cat, b, b');
  }

  lemma SwappedShown(b: Bag, src: nat, dst: nat, weapons: map<nat, Weapon>)
    requires Tied(b) && OnePlace(b) && src in b.equip && dst in b.equip && src != dst
    ensures var b' := b.(equip := b.equip[src := b.equip[dst]][dst := b.equip[src]], weapons := weapons);
            Tied(b') && OnePlace(b')
  {}

  lemma SwappedRecords(cat: Catalogue, b: Bag, src: nat, dst: nat)
    requires Recorded(cat, b) && src in b.equip && dst in b.equip && src != dst
    ensures Recorded(cat, b.(equip := b.equip[src := b.equip[dst]][dst := b.equip[src]],
                             weapons := SwapWeapons(b.weapons, src, dst)))
  {
    hide PlacementOf;
  }

  lemma SameTracked(cat: Catalogue, b: Bag, b': Bag)
    requires Issued(b) && OneStack(cat, b) && b'.tracked == b.tracked && b'.lastUid == b.lastUid
    ensures Issued(b') && OneStack(cat, b')
  {
    hide Stackable, Real;
  }

  /** Into a slot that is free. */
  lemma MoveAgrees(cat: Catalogue, b: Bag, src: nat, dst: nat)
    requires Agree(cat, b) && src in b.equip && src != dst && src != NO_SLOT && dst !in b.weapons
    ensures Agree(cat, b.(equip := (b.equip - {src})[dst := b.equip[src]], weapons := MoveWeapon(b.weapons, src, dst)))
  {
    hide Tied, OnePlace, Recorded, Issued, OneStack;
    var b' := b.(equip := (b.equip - {src})[dst := b.equip[src]], weapons := MoveWeapon(b.weapons, src, dst));
    MovedShown(b, src, dst, b'.weapons);
    MovedRecords(cat, b, src, dst);
    SameTracked(cat, b, b');
  }

  lemma MovedShown(b: Bag, src: nat, dst: nat, weapons: map<nat, Weapon>)
    requires Tied(b) && OnePlace(b) && src in b.equip && src != dst
    ensures var b' := b.(equip := (b.equip - {src})[dst := b.equip[src]], weapons := weapons); Tied(b') && OnePlace(b')
  {}

  lemma MovedRecords(cat: Catalogue, b: Bag, src: nat, dst: nat)
    requires Recorded(cat, b) && src in b.equip && src != dst && src != NO_SLOT && dst !in b.weapons
    ensures Recorded(cat, b.(equip := (b.equip - {src})[dst := b.equip[src]], weapons := MoveWeapon(b.weapons, src, dst)))
  {
    hide PlacementOf;
  }

  /** Out of nowhere, the occupant put away. */
  lemma PutOnAgrees(cat: Catalogue, b: Bag, dst: nat, unique: nat)
    requires Agree(cat, b) && unique in b.tracked && !Shows(b, unique)
    ensures Agree(cat, b.(equip := b.equip[dst := Gear(b.tracked[unique].data, unique)], weapons := b.weapons - {dst}))
  {
    hide Agree;
    NoRecordAgrees(cat, b, dst);
    SetEquipKeeps(cat, b.(weapons := b.weapons - {dst}), dst, b.tracked[unique].data, unique);
  }

  lemma NoRecordAgrees(cat: Catalogue, b: Bag, slot: nat)
    requires Agree(cat, b)
    ensures Agree(cat, b.(weapons := b.weapons - {slot}))
  {
    hide PlacementOf, Stackable, Real;
  }

  /** A request keeps the indexes in agreement, in whatever slot it puts the item, exactly when it does not
      take an item out of slot 255: that slot would go on showing it. */
  lemma EquipAgrees(cat: Catalogue, b: Bag, dst: nat, unique: nat)
    requires Agree(cat, b)
    ensures Agree(cat, EquipTo(b, dst, unique)) <==> (ShownNowhere(b, unique) ==> dst == NO_SLOT)
    ensures EquipTo(b, dst, unique).tracked == b.tracked && EquipTo(b, dst, unique).lastUid == b.lastUid
  {
    hide Agree, SwapWeapons, MoveWeapon, SlotOf, Shows, Occupied;
    var src := SlotOf(b, unique);
    Whereabouts(cat, b, unique);
    if Held(b, unique) && src != dst {
      OccupiedIsTracked(cat, b, dst);
      if src != NO_SLOT {
        if Occupied(b, dst) {
          SwapAgrees(cat, b, src, dst);
        } else {
          MoveAgrees(cat, b, src, dst);
        }
      } else {
        StayPut(if Occupied(b, dst) then b.weapons - {dst} else b.weapons, dst);
        if ShownNowhere(b, unique) {
          ShownTwice(cat, b, EquipTo(b, dst, unique), dst, unique);
        } else {
          PutOnAgrees(cat, b, dst, unique);
          assert dst !in b.weapons ==> b.weapons - {dst} == b.weapons;
        }
      }
    }
  }

  /** Where an item is shown. */
  lemma Whereabouts(cat: Catalogue, b: Bag, unique: nat)
    requires Agree(cat, b)
    ensures Shows(b, unique) ==> var s := SlotOf(b, unique);
              s in b.equip && b.equip[s] == Gear(DataOf(b, unique), unique)
    ensures !Shows(b, unique) ==> SlotOf(b, unique) == NO_SLOT
    ensures ShownNowhere(b, unique) <==> Shows(b, unique) && SlotOf(b, unique) == NO_SLOT
    ensures Held(b, unique) && !Shows(b, unique) ==> unique in b.tracked && DataOf(b, unique) == b.tracked[unique].data
  {
    hide Tied, Recorded, Issued, OneStack;
    if Shows(b, unique) {
      SlotShows(b, unique);
    }
    if ShownNowhere(b, unique) {
      SlotOfIs(b, NO_SLOT, unique);
    }
  }

  lemma ShownTwice(cat: Catalogue, b: Bag, b': Bag, dst: nat, unique: nat)
    requires ShownNowhere(b, unique) && dst != NO_SLOT
    requires dst in b'.equip && b'.equip[dst].unique == unique && b'.equip == b.equip[dst := b'.equip[dst]]
    ensures !Agree(cat, b')
  {
    hide Tied, Recorded, Issued, OneStack;
    assert NO_SLOT in b'.equip && b'.equip[NO_SLOT].unique == b'.equip[dst].unique;
  }

  lemma StayPut(weapons: map<nat, Weapon>, dst: nat)
    ensures MoveWeapon(weapons, NO_SLOT, dst) == weapons
  {}

  // ---------------------------------------------------------------- wear, walls, resets

  /** Wear remakes whatever sits in the armour slot, and leaves the indexes in agreement exactly when that is
      in no weapon record. */
  lemma WearAgrees(cat: Catalogue, b: Bag, slot: nat, left: nat)
    requires Agree(cat, b) && left < DurOf(b, slot)
    ensures var b' := Wear(b, slot, left);
            && (Agree(cat, b') <==> slot !in b.weapons)
            && b'.lastUid >= b.lastUid && forall u :: u in b'.tracked ==> u in b.tracked || u > b.lastUid
  {
    hide Agree;
    var b1 := if slot == VEST then b.(vestDur := left) else b.(helmetDur := left);
    HandsAgree(cat, b, b.onHand, b.beforeGloo, b1.vestDur, b1.helmetDur);
    OccupiedIsTracked(cat, b, slot);
    if Occupied(b, slot) {
      if slot in b.weapons {
        WornWeapon(cat, b, slot, left);
      } else if left == 0 {
        ClearEquipAgrees(cat, b1, slot);
        ElsewhereNot(cat, b1, slot);
        UntrackAgrees(cat, ClearEquip(b1, slot), b.equip[slot].unique);
      } else {
        RemadeAgrees(cat, b1, slot, left);
      }
    }
  }

  /** A worn piece under a fresh unique. */
  lemma RemadeAgrees(cat: Catalogue, b: Bag, slot: nat, left: nat)
    requires Agree(cat, b) && Occupied(b, slot) && slot !in b.weapons
    ensures var gear, uid := b.equip[slot], b.lastUid + 1;
            Agree(cat, SetEquip(Track(Untrack(Numbered(b, 1), gear.unique), Item(uid, gear.data, 1, left)), slot, gear.data, uid))
  {
    hide Agree, Stackable, Strip;
    var gear, uid := b.equip[slot], b.lastUid + 1;
    OccupiedIsTracked(cat, b, slot);
    FreshIsNew(cat, b, 1);
    OnlyStack(cat, b, gear.unique);
    ElsewhereNot(cat, b, slot);
    ClearEquipAgrees(cat, b, slot);
    UntrackAgrees(cat, ClearEquip(b, slot), gear.unique);
    var b1 := Untrack(ClearEquip(b, slot), gear.unique);
    NumberedAgrees(cat, b1, 1);
    TrackNewAgrees(cat, Numbered(b1, 1), Item(uid, gear.data, 1, left));
    var b2 := Track(Numbered(b1, 1), Item(uid, gear.data, 1, left));
    SetEquipKeeps(cat, b2, slot, gear.data, uid);
    assert (b.equip - {slot})[slot := Gear(gear.data, uid)] == b.equip[slot := Gear(gear.data, uid)];
  }

  lemma WornWeapon(cat: Catalogue, b: Bag, slot: nat, left: nat)
    requires Agree(cat, b) && slot in b.weapons && left < DurOf(b, slot)
    ensures !Agree(cat, Wear(b, slot, left))
  {
    hide Tied, OnePlace, Issued, OneStack, PlacementOf;
    FreshIsNew(cat, b, 1);
    var b' := Wear(b, slot, left);
    assert slot in b'.weapons && (slot in b'.equip ==> b'.equip[slot].unique != b'.weapons[slot].unique);
  }

  /** The last wall comes out of the building slot, which carries no weapon record. */
  ghost predicate WallFits(b: Bag, dup: nat, unlimited: bool) {
    UsesUp(b, dup, unlimited) ==>
      BUILDING !in b.weapons && (Shows(b, GlooStack(b, dup)) ==> SlotOf(b, GlooStack(b, dup)) == BUILDING)
  }

  /** A placed wall leaves the indexes in agreement exactly when it fits. */
  lemma PlaceWallAgrees(cat: Catalogue, b: Bag, dup: nat, unlimited: bool)
    requires Agree(cat, b)
    ensures var b' := PlaceWall(b, dup, unlimited);
            && (Agree(cat, b') <==> WallFits(b, dup, unlimited))
            && b'.lastUid == b.lastUid && forall u :: u in b'.tracked ==> u in b.tracked
  {
    hide Agree, IsWeaponUID, BestWeaponUID, GlooStack, Shows, SlotOf;
    var u := GlooStack(b, dup);
    var b' := PlaceWall(b, dup, unlimited);
    NoZeroTracked(cat, b);
    if u in b.tracked && b.tracked[u].count > 0 && !unlimited {
      TrackedHere(cat, b, u);
      if b.tracked[u].count > 1 {
        SameReal(b.tracked[u], b.tracked[u].(count := b.tracked[u].count - 1));
        RecountAgrees(cat, b, b.tracked[u].(count := b.tracked[u].count - 1));
      } else {
        LastWallAgrees(cat, b, u);
        HandsAgree(cat, Untrack(ClearEquip(b, BUILDING), u), b'.onHand, 0, b.vestDur, b.helmetDur);
        assert b' == Untrack(ClearEquip(b, BUILDING), u).(onHand := b'.onHand, beforeGloo := 0);
      }
    }
  }

  lemma LastWallAgrees(cat: Catalogue, b: Bag, u: nat)
    requires Agree(cat, b) && u in b.tracked && u != 0
    ensures Agree(cat, Untrack(ClearEquip(b, BUILDING), u))
       <==> BUILDING !in b.weapons && (Shows(b, u) ==> SlotOf(b, u) == BUILDING)
  {
    hide Agree, Shows, SlotOf;
    ShownElsewhere(cat, b, u, BUILDING);
    if BUILDING in b.weapons {
      RecordWithoutEntry(cat, b, u);
    } else if s :| s in b.equip && s != BUILDING && b.equip[s].unique == u {
      EntryUntracked(cat, b, u, s);
    } else {
      ClearEquipAgrees(cat, b, BUILDING);
      UntrackAgrees(cat, ClearEquip(b, BUILDING), u);
    }
  }

  lemma RecordWithoutEntry(cat: Catalogue, b: Bag, u: nat)
    requires BUILDING in b.weapons
    ensures !Agree(cat, Untrack(ClearEquip(b, BUILDING), u))
  {
    hide Tied, OnePlace, Issued, OneStack;
    assert BUILDING in Untrack(ClearEquip(b, BUILDING), u).weapons;
  }

  lemma EntryUntracked(cat: Catalogue, b: Bag, u: nat, s: nat)
    requires s in b.equip && s != BUILDING && b.equip[s].unique == u && u != 0
    ensures !Agree(cat, Untrack(ClearEquip(b, BUILDING), u))
  {
    hide OnePlace, Recorded, Issued, OneStack;
    assert s in Untrack(ClearEquip(b, BUILDING), u).equip;
  }

  lemma FreshAgrees(shop: Shop, b: Bag, noLoadout: bool, mounts: nat)
    requires Stocked(shop.cat)
    ensures var b' := Fresh(shop, b, noLoadout, mounts);
            Agree(shop.cat, b') && b'.lastUid > b.lastUid && forall u :: u in b'.tracked ==> u > b.lastUid
  {
    hide Agree, Stackable, WeaponAmmo, Arm, AmmoReserve, PlacementOf;
    var usp, kit := b.lastUid + 1, b.lastUid + 2;
    var b0 := Bag(map[MELEE := FIST], map[], map[], b.lastUid + 2, 0, b.beforeGloo, 0, 0);
    EmptyHandsAgree(shop.cat, b0);
    TrackNewAgrees(shop.cat, b0, Item(kit, MEDKIT, 2, 2));
    var b1 := Track(b0, Item(kit, MEDKIT, 2, 2));
    if !noLoadout {
      var gun := Item(usp, USP, 1, shop.mag(USP));
      UspIsGun(shop.cat);
      TrackNewAgrees(shop.cat, b1, gun);
      ArmAgrees(shop.cat, Track(b1, gun), SECONDARY, USP, usp, PISTOL_AMMO);
      ArmFrame(Track(b1, gun), SECONDARY, USP, usp, PISTOL_AMMO);
      var b2 := Arm(Track(b1, gun), SECONDARY, USP, usp, PISTOL_AMMO);
      NumberedAgrees(shop.cat, b2, mounts + 1);
      AmmoIsReal(shop.cat, PISTOL_AMMO);
      var b3 := Numbered(b2, mounts + 1);
      TrackNewAgrees(shop.cat, b3, Item(b3.lastUid, PISTOL_AMMO, AmmoReserve(PISTOL_AMMO), 0));
    }
  }

  lemma EmptyHandsAgree(cat: Catalogue, b: Bag)
    requires b.equip == map[MELEE := FIST] && b.weapons == map[] && b.tracked == map[]
    ensures Agree(cat, b)
  {}

  lemma UspIsGun(cat: Catalogue)
    requires Stocked(cat)
    ensures PlacementOf(cat, USP).isWeapon && !Stackable(cat, USP)
  {
    KnownGuns(cat, USP);
  }

  lemma RefillAgrees(cat: Catalogue, b: Bag, dup: nat)
    requires Agree(cat, b) && IsDup(b.tracked, MEDKIT, 0, dup)
    ensures var b' := Refill(b, dup);
            Agree(cat, b') && b'.lastUid >= b.lastUid && forall u :: u in b'.tracked ==> u in b.tracked || u > b.lastUid
  {
    hide Agree, Stackable;
    NoZeroTracked(cat, b);
    if dup in b.tracked {
      TrackedHere(cat, b, dup);
      RecountAgrees(cat, b, Item(dup, MEDKIT, 2, 2));
    } else {
      FreshIsNew(cat, b, 1);
      NumberedAgrees(cat, b, 1);
      TrackNewAgrees(cat, Numbered(b, 1), Item(b.lastUid + 1, MEDKIT, 2, 2));
    }
  }

  /** Whatever is used up, the indexes do not notice. */
  lemma UseAgrees(cat: Catalogue, b: Bag, unique: nat)
    requires Agree(cat, b)
    ensures Agree(cat, Use(b, unique)) && Use(b, unique).lastUid == b.lastUid
    ensures forall u :: u in Use(b, unique).tracked <==> u in b.tracked
  {
    hide Agree;
    if unique in b.tracked && b.tracked[unique].count > 0 {
      TrackedHere(cat, b, unique);
      RecountAgrees(cat, b, b.tracked[unique].(count := b.tracked[unique].count - 1));
    }
  }

  // ---------------------------------------------------------------- all that write a slot

  /** What the handlers do not check: a caller can, before the call. */
  ghost predicate Guarded(cat: Catalogue, b: Bag, d: Deed) {
    match d
    case Buying(data, qty, mounts, dup, pos, into) =>
      data in cat && data != MUSHROOM && !PlacementOf(cat, data).isWeapon ==> StackFits(cat, b, data, dup)
    case Equipping(dst, unique) => ShownNowhere(b, unique) ==> dst == NO_SLOT
    case Wearing(slot, left) => slot !in b.weapons
    case Walling(dup, unlimited) => WallFits(b, dup, unlimited)
    case _ => true
  }
}
