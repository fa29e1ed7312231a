/** What requests in kind add: items stay in the slots of their kind, so that nothing the guards exclude can
    happen. */
module LoadoutKinds {
  import opened Items
  import opened GroundLoot
  import opened Loadout
  import opened Deeds
  import opened LoadoutRuns
  import opened Belongings

  // ---------------------------------------------------------------- kinds

  /** Everything sits in a slot of its kind. */
  ghost predicate Kinds(cat: Catalogue, equip: map<nat, Gear>) {
    forall s :: s in equip ==> Fits(cat, equip[s].data, s)
  }

  /** A request that moves an item keeps it among the slots of its kind. */
  ghost predicate InKind(cat: Catalogue, b: Bag, d: Deed) {
    d.Equipping? && Held(b, d.unique) && SlotOf(b, d.unique) != d.dst ==> Fits(cat, DataOf(b, d.unique), d.dst)
  }

  lemma KindsPut(cat: Catalogue, equip: map<nat, Gear>, slot: nat, g: Gear)
    requires Kinds(cat, equip) && Fits(cat, g.data, slot)
    ensures Kinds(cat, equip[slot := g])
  {
    hide Fits;
  }

  lemma KindsLess(cat: Catalogue, equip: map<nat, Gear>, less: map<nat, Gear>)
    requires Kinds(cat, equip) && forall s :: s in less ==> s in equip && less[s] == equip[s]
    ensures Kinds(cat, less)
  {
    hide Fits;
  }

  lemma KindOf(cat: Catalogue, b: Bag, s: nat)
    requires Kinds(cat, b.equip) && s in b.equip
    ensures Fits(cat, b.equip[s].data, s)
  {
    hide Fits;
  }

  /** Records are in the slots of guns. */
  lemma RecordedAtGuns(cat: Catalogue, b: Bag, s: nat)
    requires Agree(cat, b) && Kinds(cat, b.equip) && s in b.weapons
    ensures GunSlot(s)
  {
    hide Agree, PlaceItem;
    WeaponIsTracked(cat, b, s);
    KindOf(cat, b, s);
    PlacementKinds(cat, b.weapons[s].data);
  }

  /** Outside the primaries a kind has one slot. */
  lemma OneSlotOfKind(cat: Catalogue, b: Bag, u: nat, slot: nat)
    requires Agree(cat, b) && Kinds(cat, b.equip) && u in b.tracked && Shows(b, u)
    requires Home(cat, b.tracked[u].data) == slot && slot != PRIMARY_1
    ensures SlotOf(b, u) == slot
  {
    hide Home, OnePlace, Recorded, OneStack, Real;
    SlotShows(b, u);
    assert u != 0;
    KindOf(cat, b, SlotOf(b, u));
  }

  /** Nothing is out of place, so every guard holds. */
  lemma KindsGuard(shop: Shop, k: Kit, d: Deed)
    requires InOrder(shop.cat, k) && Stocked(shop.cat) && Kinds(shop.cat, k.bag.equip) && Possible(k, d)
    requires InKind(shop.cat, k.bag, d)
    ensures Guarded(shop.cat, k.bag, d)
  {
    hide InOrder, Agree, Stocked, Kinds, PlacementOf, StackFits, WallFits, IsDup, Merges, OnGround, Fits, Held, Shows, SlotOf;
    BagAgrees(shop.cat, k);
    match d
    case Buying(data, qty, mounts, dup, pos, into) =>
      if data in shop.cat && data != MUSHROOM && !PlacementOf(shop.cat, data).isWeapon {
        StackInKind(shop, k.bag, data, dup);
      }
    case Equipping(dst, unique) => NowhereIsNoKind(shop.cat, k.bag, unique);
    case Wearing(slot, left) =>
      if slot in k.bag.weapons {
        RecordedAtGuns(shop.cat, k.bag, slot);
      }
    case Walling(dup, unlimited) => WallInKind(shop.cat, k.bag, dup, unlimited);
    case _ =>
  }

  lemma NowhereIsNoKind(cat: Catalogue, b: Bag, unique: nat)
    requires Kinds(cat, b.equip)
    ensures !ShownNowhere(b, unique)
  {
    hide Home;
  }

  lemma StackInKind(shop: Shop, b: Bag, data: nat, dup: nat)
    requires Agree(shop.cat, b) && Stocked(shop.cat) && Kinds(shop.cat, b.equip)
    requires data in shop.cat && !PlacementOf(shop.cat, data).isWeapon && IsDup(b.tracked, data, 0, dup)
    ensures StackFits(shop.cat, b, data, dup)
  {
    hide Agree, PlaceItem, Kinds, Shows, SlotOf;
    InShop(shop.cat, data);
    PlacementKinds(shop.cat, data);
    NoZeroTracked(shop.cat, b);
    var p := PlacementOf(shop.cat, data);
    if p.slot in b.weapons {
      RecordedAtGuns(shop.cat, b, p.slot);
    }
    if dup in b.tracked && !p.isArmor && Shows(b, dup) && p.slot != NO_SLOT {
      OneSlotOfKind(shop.cat, b, dup, p.slot);
    }
  }

  lemma WallInKind(cat: Catalogue, b: Bag, dup: nat, unlimited: bool)
    requires Agree(cat, b) && Stocked(cat) && Kinds(cat, b.equip) && IsDup(b.tracked, GLOO, 0, dup)
    ensures WallFits(b, dup, unlimited)
  {
    hide Agree, Kinds, Shows, SlotOf, Home;
    NoZeroTracked(cat, b);
    GlooHome(cat);
    if BUILDING in b.weapons {
      RecordedAtGuns(cat, b, BUILDING);
    }
    if UsesUp(b, dup, unlimited) && Shows(b, GlooStack(b, dup)) {
      OneSlotOfKind(cat, b, GlooStack(b, dup), BUILDING);
    }
  }

  // ---------------------------------------------------------------- deeds in kind keep the kinds

  lemma BoughtGunFits(shop: Shop, b: Bag, data: nat)
    requires Stocked(shop.cat) && data in shop.cat && PlacementOf(shop.cat, data).isWeapon
    ensures Fits(shop.cat, data, BoughtSlot(b, PlacementOf(shop.cat, data)))
  {
    hide WeaponAmmo, PlaceItem;
    PlacementKinds(shop.cat, data);
  }

  lemma BuyKinds(shop: Shop, k: Kit, data: nat, qty: nat, mounts: nat, dup: nat, pos: Pos, into: nat)
    requires Stocked(shop.cat) && Kinds(shop.cat, k.bag.equip)
    ensures Kinds(shop.cat, Buy(shop, k, data, qty, mounts, dup, pos, into).bag.equip)
  {
    hide Kinds, Fits, PlacementOf, BoughtSlot, MaxDur, ArmorSlot, AmmoReserve;
    if data in shop.cat && data != MUSHROOM {
      var p := PlacementOf(shop.cat, data);
      if p.isWeapon {
        BoughtGunFits(shop, k.bag, data);
        KindsPut(shop.cat, k.bag.equip, BoughtSlot(k.bag, p), Gear(data, k.bag.lastUid + 1));
      } else if p.slot != NO_SLOT {
        StackKind(shop, data);
        var uid := if dup in k.bag.tracked && !p.isArmor then dup else k.bag.lastUid + 1;
        KindsPut(shop.cat, k.bag.equip, p.slot, Gear(data, uid));
      }
    }
  }

  lemma StackKind(shop: Shop, data: nat)
    requires Stocked(shop.cat) && data in shop.cat && !PlacementOf(shop.cat, data).isWeapon
    ensures PlacementOf(shop.cat, data).slot != NO_SLOT ==> Fits(shop.cat, data, PlacementOf(shop.cat, data).slot)
  {
    hide PlaceItem;
    PlacementKinds(shop.cat, data);
  }

  lemma TakeGunKinds(cat: Catalogue, b: Bag, it: Item, mounts: nat)
    requires Stocked(cat) && Kinds(cat, b.equip) && WeaponAmmo(it.data) != 0
    ensures Kinds(cat, TakeGun(b, it, mounts).equip)
  {
    hide Kinds, Fits, WeaponAmmo, PickPrimarySlot;
    var slot := LootSlot(b, it.data);
    KnownGunFits(cat, b, it.data);
    KindsLess(cat, b.equip, b.equip - {slot});
    KindsPut(cat, b.equip, slot, Gear(it.data, it.unique));
    KindsPut(cat, b.equip - {slot}, slot, Gear(it.data, it.unique));
  }

  lemma KnownGunFits(cat: Catalogue, b: Bag, data: nat)
    requires Stocked(cat) && WeaponAmmo(data) != 0
    ensures Fits(cat, data, LootSlot(b, data))
  {
    hide WeaponAmmo, Home;
    KnownGuns(cat, data);
  }

  lemma TakeStackKinds(cat: Catalogue, b: Bag, it: Item, dup: nat)
    requires Agree(cat, b) && Kinds(cat, b.equip) && IsDup(b.tracked, it.data, it.unique, dup)
    ensures Kinds(cat, TakeStack(b, it, dup).equip)
  {
    hide Agree, Kinds, Fits, Shows, SlotOf;
    if dup in b.tracked {
      NoZeroTracked(cat, b);
      KindsLess(cat, b.equip, Strip(b, dup).equip);
      if Shows(b, dup) {
        Whereabouts(cat, b, dup);
        ShownData(cat, b, dup);
        KindOf(cat, b, SlotOf(b, dup));
        KindsPut(cat, Strip(b, dup).equip, SlotOf(b, dup), Gear(it.data, it.unique));
      }
    }
  }

  lemma ShownData(cat: Catalogue, b: Bag, u: nat)
    requires Agree(cat, b) && u in b.tracked && Shows(b, u)
    ensures SlotOf(b, u) in b.equip && b.equip[SlotOf(b, u)].data == b.tracked[u].data
  {
    hide OnePlace, Recorded, OneStack, Real;
    SlotShows(b, u);
  }

  lemma PickupKinds(shop: Shop, k: Kit, unique: nat, mounts: nat, dup: nat, pos: Pos, into: nat)
    requires Agree(shop.cat, k.bag) && Stocked(shop.cat) && Kinds(shop.cat, k.bag.equip)
    requires Possible(k, PickingUp(unique, mounts, dup, pos, into))
    ensures Kinds(shop.cat, Pickup(shop, k, unique, mounts, dup, pos, into).bag.equip)
  {
    hide Agree, Kinds, TakeGun, TakeStack, WeaponAmmo, OnGround, Place, IsDup, Merges, Close, TakeFrom, Displace;
    if OnGround(k.ground, unique) {
      PlacedUnique(k.ground, unique);
      var it := ItemOn(k.ground, unique);
      if WeaponAmmo(it.data) != 0 {
        TakeGunKinds(shop.cat, k.bag, it, mounts);
      } else {
        PlacedUnique(k.ground, unique);
        TakeStackKinds(shop.cat, k.bag, it, dup);
      }
    }
  }

  lemma PlacedUnique(g: Ground, unique: nat)
    requires OnGround(g, unique)
    ensures ItemOn(g, unique).unique == unique
  {
    var p := Place(g, unique);
    assert Lies(g, p.0, p.1, unique);
  }

  lemma EquipKinds(cat: Catalogue, b: Bag, dst: nat, unique: nat)
    requires Agree(cat, b) && Kinds(cat, b.equip) && InKind(cat, b, Equipping(dst, unique))
    ensures Kinds(cat, EquipTo(b, dst, unique).equip)
  {
    hide Agree, Kinds, Home, Shows, SlotOf, SwapWeapons, MoveWeapon;
    var src := SlotOf(b, unique);
    Whereabouts(cat, b, unique);
    if Held(b, unique) && src != dst {
      var gear := Gear(DataOf(b, unique), unique);
      if src != NO_SLOT {
        KindOf(cat, b, src);
        KindsLess(cat, b.equip, b.equip - {src});
        KindsPut(cat, b.equip - {src}, dst, gear);
        if Occupied(b, dst) {
          KindOf(cat, b, dst);
          KindsPut(cat, b.equip, src, b.equip[dst]);
          KindsPut(cat, b.equip[src := b.equip[dst]], dst, gear);
        }
      } else {
        KindsPut(cat, b.equip, dst, gear);
      }
    }
  }

  lemma RestKinds(shop: Shop, k: Kit, d: Deed)
    requires Agree(shop.cat, k.bag) && Stocked(shop.cat) && Kinds(shop.cat, k.bag.equip)
    requires !d.Buying? && !d.PickingUp? && !d.Equipping?
    ensures Kinds(shop.cat, Do(shop, k, d).bag.equip)
  {
    hide Agree, Kinds, Fits, Stocked, IsWeaponUID, BestWeaponUID, GlooStack, DurOf, AmmoReserve;
    var equip := k.bag.equip;
    match d
    case Dropping(unique, pos, into) => KindsLess(shop.cat, equip, Strip(k.bag, unique).equip);
    case Wearing(slot, left) =>
      KindsLess(shop.cat, equip, ClearEquip(k.bag, slot).equip);
      if Occupied(k.bag, slot) {
        KindOf(shop.cat, k.bag, slot);
        KindsPut(shop.cat, equip, slot, Gear(equip[slot].data, k.bag.lastUid + 1));
      }
    case Walling(dup, unlimited) => KindsLess(shop.cat, equip, ClearEquip(k.bag, BUILDING).equip);
    case Resetting(noLoadout, mounts) => BaseKinds(shop, k.bag.lastUid + 1);
    case _ =>
  }

  lemma BaseKinds(shop: Shop, usp: nat)
    requires Stocked(shop.cat)
    ensures Kinds(shop.cat, map[MELEE := FIST]) && Kinds(shop.cat, map[MELEE := FIST][SECONDARY := Gear(USP, usp)])
  {
    KnownGuns(shop.cat, USP);
  }

  lemma DeedKinds(shop: Shop, k: Kit, d: Deed)
    requires InOrder(shop.cat, k) && Stocked(shop.cat) && Kinds(shop.cat, k.bag.equip) && Possible(k, d)
    requires InKind(shop.cat, k.bag, d)
    ensures Kinds(shop.cat, Do(shop, k, d).bag.equip)
  {
    hide InOrder, Agree, Stocked, Kinds, Buy, Pickup, EquipTo, Possible;
    BagAgrees(shop.cat, k);
    match d
    case Buying(data, qty, mounts, dup, pos, into) => BuyKinds(shop, k, data, qty, mounts, dup, pos, into);
    case PickingUp(unique, mounts, dup, pos, into) => PickupKinds(shop, k, unique, mounts, dup, pos, into);
    case Equipping(dst, unique) => EquipKinds(shop.cat, k.bag, dst, unique);
    case _ => RestKinds(shop, k, d);
  }

  ghost predicate KindRun(shop: Shop, run: seq<Deed>) {
    forall n :: 0 <= n < |run| ==>
      Possible(RunDeeds(shop, run[..n]), run[n]) && InKind(shop.cat, RunDeeds(shop, run[..n]).bag, run[n])
  }

  /** Over every run of requests in kind nothing need be guarded: the belongings stay in order, and everything
      in the slots of its kind. */
  lemma {:induction false} KindsRun(shop: Shop, run: seq<Deed>)
    requires Stocked(shop.cat) && KindRun(shop, run)
    ensures InOrder(shop.cat, RunDeeds(shop, run)) && Kinds(shop.cat, RunDeeds(shop, run).bag.equip)
    ensures AllAllowed(shop, run)
  {
    hide Stocked, Possible, Guarded, Do, Kinds, InOrder, InKind;
    if |run| == 0 {
      StartInOrder(shop.cat);
      StartKinds(shop.cat);
    } else {
      var init, d := run[..|run| - 1], run[|run| - 1];
      forall n | 0 <= n < |init|
        ensures Possible(RunDeeds(shop, init[..n]), init[n]) && InKind(shop.cat, RunDeeds(shop, init[..n]).bag, init[n])
      {
        assert init[..n] == run[..n];
      }
      KindsRun(shop, init);
      KindsGuard(shop, RunDeeds(shop, init), d);
      DeedKinds(shop, RunDeeds(shop, init), d);
      DeedKeeps(shop, RunDeeds(shop, init), d);
      forall n | 0 <= n < |run| ensures Allowed(shop, RunDeeds(shop, run[..n]), run[n]) {
        if n < |init| {
          assert init[..n] == run[..n];
          assert Allowed(shop, RunDeeds(shop, init[..n]), init[n]);
        }
      }
    }
  }

  lemma StartKinds(cat: Catalogue)
    ensures Kinds(cat, START.bag.equip)
  {}
}
