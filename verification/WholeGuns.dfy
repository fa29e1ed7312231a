/** Runs in which no weapon is used up: every gun counts one, so that forcing one out of its slot gains nothing,
    and picking up and dropping preserve the total of every item. */
module WholeGuns {
  import opened Items
  import opened GroundLoot
  import opened Loadout
  import opened Deeds
  import opened LoadoutRuns
  import opened Belongings
  import opened Conservation

  ghost predicate Armed(b: Bag, u: nat) {
    exists s :: s in b.weapons && b.weapons[s].unique == u
  }

  /** Guns and whatever is in a weapon record count one. */
  ghost predicate WholeBag(b: Bag) {
    forall u :: u in b.tracked && (WeaponAmmo(b.tracked[u].data) != 0 || Armed(b, u)) ==> b.tracked[u].count == 1
  }

  ghost predicate WholeGround(g: Ground) {
    forall id: nat, i: nat, u: nat :: Lies(g, id, i, u) && WeaponAmmo(g.boxes[id].items[i].data) != 0 ==>
      g.boxes[id].items[i].count == 1
  }

  ghost predicate Whole(k: Kit) {
    WholeBag(k.bag) && WholeGround(k.ground)
  }

  /** Neither a gun of the default shop nor of a weapon kind. */
  predicate Plain(cat: Catalogue, data: nat) {
    WeaponAmmo(data) == 0 && !PlacementOf(cat, data).isWeapon
  }

  /** What is tracked counts one, is no weapon, or is what it was and no more armed than it was. */
  ghost predicate Spared(cat: Catalogue, b: Bag, b': Bag) {
    forall u :: u in b'.tracked ==>
      || b'.tracked[u].count == 1
      || Plain(cat, b'.tracked[u].data)
      || (u in b.tracked && b'.tracked[u] == b.tracked[u] && (Armed(b', u) ==> Armed(b, u)))
  }

  lemma SparedIsWhole(cat: Catalogue, b: Bag, b': Bag)
    requires WholeBag(b) && Agree(cat, b') && Spared(cat, b, b')
    ensures WholeBag(b')
  {
    hide WeaponAmmo, Agree, PlacementOf;
    forall u | u in b'.tracked && (WeaponAmmo(b'.tracked[u].data) != 0 || Armed(b', u)) ensures b'.tracked[u].count == 1 {
      if Armed(b', u) {
        var s :| s in b'.weapons && b'.weapons[s].unique == u;
        WeaponIsTracked(cat, b', s);
      }
    }
  }

  // ---------------------------------------------------------------- the bag

  lemma BuyGunSpares(shop: Shop, b: Bag, data: nat, mounts: nat)
    requires Stocked(shop.cat) && data in shop.cat
    ensures Spared(shop.cat, b, Seeded(BuyGun(shop, b, data, mounts), data))
  {
    hide MaxDur, ArmorSlot, Plain, PlacementOf, BuyGun, Supplied;
    BoughtTracked(shop, b, data, mounts);
    BoughtArms(shop, b, data, mounts);
    var b', b'' := BuyGun(shop, b, data, mounts), Seeded(BuyGun(shop, b, data, mounts), data);
    assert b''.tracked == b'.tracked && b''.weapons == b'.weapons;
  }

  /** A new gun, its ammunition, and what was there. */
  lemma BoughtTracked(shop: Shop, b: Bag, data: nat, mounts: nat)
    requires Stocked(shop.cat) && data in shop.cat
    ensures var b' := BuyGun(shop, b, data, mounts);
            forall u :: u in b'.tracked ==>
              || (u != b.lastUid + 1 && u in b.tracked && b'.tracked[u] == b.tracked[u])
              || b'.tracked[u].count == 1 || Plain(shop.cat, b'.tracked[u].data)
  {
    hide PlacementOf, BoughtSlot, AmmoReserve, Plain;
    BoughtAmmo(shop.cat, data);
    var ammo := PlacementOf(shop.cat, data).ammo;
    if ammo != 0 {
      AmmoIsPlain(shop.cat, ammo);
    }
  }

  lemma AmmoIsPlain(cat: Catalogue, ammo: nat)
    requires Stocked(cat) && IsAmmo(ammo)
    ensures Plain(cat, ammo)
  {}

  /** Only the bought gun is newly armed. */
  lemma BoughtArms(shop: Shop, b: Bag, data: nat, mounts: nat)
    ensures var b' := BuyGun(shop, b, data, mounts);
            forall u :: Armed(b', u) ==> u == b.lastUid + 1 || Armed(b, u)
  {
    hide PlacementOf, AmmoReserve, BoughtSlot;
  }

  lemma BuyStackSpares(shop: Shop, b: Bag, data: nat, qty: nat, dup: nat)
    requires Agree(shop.cat, b) && Stocked(shop.cat) && data in shop.cat && !PlacementOf(shop.cat, data).isWeapon
    requires IsDup(b.tracked, data, 0, dup)
    ensures Spared(shop.cat, b, BuyStack(shop, b, data, qty, dup))
  {
    hide Agree, MaxDur, ArmorSlot, WeaponAmmo, PlacementOf, Stocked;
    if WeaponAmmo(data) != 0 {
      KnownGuns(shop.cat, data);
    }
    var b' := BuyStack(shop, b, data, qty, dup);
    StackTracked(shop, b, data, qty, dup);
    SameArms(b, b');
  }

  lemma StackTracked(shop: Shop, b: Bag, data: nat, qty: nat, dup: nat)
    requires Agree(shop.cat, b) && IsDup(b.tracked, data, 0, dup)
    ensures var b' := BuyStack(shop, b, data, qty, dup);
            && b'.weapons == b.weapons
            && forall u :: u in b'.tracked ==> b'.tracked[u].data == data || (u in b.tracked && b'.tracked[u] == b.tracked[u])
  {
    hide Agree, MaxDur, ArmorSlot, PlacementOf;
    NoZeroTracked(shop.cat, b);
  }

  lemma SameArms(b: Bag, b': Bag)
    ensures b'.weapons == b.weapons ==> forall u :: Armed(b', u) <==> Armed(b, u)
  {}

  lemma TakeGunSpares(cat: Catalogue, b: Bag, it: Item, mounts: nat)
    requires it.count == 1
    ensures Spared(cat, b, TakeGun(b, it, mounts))
  {
    hide WeaponAmmo, PickPrimarySlot, PlacementOf;
    var b' := TakeGun(b, it, mounts);
    assert forall u :: Armed(b', u) ==> u == it.unique || Armed(b, u);
  }

  lemma TakeStackSpares(cat: Catalogue, b: Bag, it: Item, dup: nat)
    requires Agree(cat, b) && WeaponAmmo(it.data) == 0 && it.unique !in b.tracked && it.unique != 0
    ensures WholeBag(b) ==> WholeBag(TakeStack(b, it, dup))
  {
    hide WeaponAmmo, Agree, Shows, SlotOf;
    var b' := TakeStack(b, it, dup);
    NotArmed(cat, b, it.unique);
    assert forall u :: Armed(b', u) ==> Armed(b, u);
    assert forall u :: u in b'.tracked && u != it.unique ==> u in b.tracked && b'.tracked[u] == b.tracked[u];
  }

  lemma NotArmed(cat: Catalogue, b: Bag, u: nat)
    requires Agree(cat, b) && u !in b.tracked
    ensures !Armed(b, u)
  {
    hide Agree;
    if Armed(b, u) {
      var s :| s in b.weapons && b.weapons[s].unique == u;
      WeaponIsTracked(cat, b, s);
    }
  }

  lemma StripSpares(cat: Catalogue, b: Bag, u: nat)
    ensures Spared(cat, b, Strip(b, u))
  {
    hide PlacementOf, WeaponAmmo;
    assert forall x :: Armed(Strip(b, u), x) ==> Armed(b, x);
  }

  lemma EquipSpares(cat: Catalogue, b: Bag, dst: nat, unique: nat)
    ensures Spared(cat, b, EquipTo(b, dst, unique))
  {
    hide PlacementOf, WeaponAmmo, Held, SlotOf, Shows, Occupied;
    SwapArms(b.weapons, SlotOf(b, unique), dst);
    MoveArms(b.weapons, SlotOf(b, unique), dst);
    MoveArms(b.weapons - {dst}, SlotOf(b, unique), dst);
    assert forall u :: Armed(EquipTo(b, dst, unique), u) ==> Armed(b, u);
  }

  ghost predicate Names(weapons: map<nat, Weapon>, u: nat) {
    exists s :: s in weapons && weapons[s].unique == u
  }

  lemma SwapArms(weapons: map<nat, Weapon>, a: nat, b: nat)
    ensures forall u :: Names(SwapWeapons(weapons, a, b), u) ==> Names(weapons, u)
  {}

  lemma MoveArms(weapons: map<nat, Weapon>, a: nat, b: nat)
    ensures forall u :: Names(MoveWeapon(weapons, a, b), u) ==> Names(weapons, u)
  {}

  lemma WearSpares(cat: Catalogue, b: Bag, slot: nat, left: nat)
    ensures Spared(cat, b, Wear(b, slot, left))
  {
    hide PlacementOf, WeaponAmmo;
    assert Wear(b, slot, left).weapons == b.weapons;
    assert forall u :: Armed(Wear(b, slot, left), u) ==> Armed(b, u);
  }

  lemma WallSpares(cat: Catalogue, b: Bag, dup: nat, unlimited: bool)
    requires Agree(cat, b) && Stocked(cat) && IsDup(b.tracked, GLOO, 0, dup)
    ensures Spared(cat, b, PlaceWall(b, dup, unlimited))
  {
    hide Agree, PlaceItem, WeaponAmmo, IsWeaponUID, BestWeaponUID;
    NoZeroTracked(cat, b);
    GlooHome(cat);
    var u := GlooStack(b, dup);
    if u in b.tracked {
      TrackedHere(cat, b, u);
    }
    assert PlaceWall(b, dup, unlimited).weapons == b.weapons;
  }

  lemma ResetSpares(shop: Shop, b: Bag, noLoadout: bool, mounts: nat)
    requires Stocked(shop.cat)
    ensures Spared(shop.cat, b, Fresh(shop, b, noLoadout, mounts))
  {
    hide AmmoReserve;
    MedkitPlace(shop.cat);
    AmmoIsPlain(shop.cat, PISTOL_AMMO);
    hide PlacementOf, WeaponAmmo;
  }

  lemma RefillSpares(cat: Catalogue, b: Bag, dup: nat)
    requires Stocked(cat)
    ensures Spared(cat, b, Refill(b, dup))
  {
    MedkitPlace(cat);
    hide PlacementOf, WeaponAmmo;
    assert Refill(b, dup).weapons == b.weapons;
  }

  /** A weapon is used up. */
  ghost predicate UsesWeapon(b: Bag, d: Deed) {
    d.Using? && d.unique in b.tracked && (WeaponAmmo(b.tracked[d.unique].data) != 0 || Armed(b, d.unique))
  }

  lemma UseIsWhole(cat: Catalogue, b: Bag, unique: nat)
    requires Agree(cat, b) && WholeBag(b) && !UsesWeapon(b, Using(unique))
    ensures WholeBag(Use(b, unique))
  {
    hide Agree, WeaponAmmo;
    if unique in b.tracked {
      TrackedHere(cat, b, unique);
    }
    assert forall u :: Armed(Use(b, unique), u) <==> Armed(b, u);
  }

  // ---------------------------------------------------------------- the ground

  lemma DropWhole(g: Ground, it: Item, pos: Pos, into: nat)
    requires WholeGround(g) && (WeaponAmmo(it.data) != 0 ==> it.count == 1)
    ensures WholeGround(DropTo(g, it, pos, into))
  {
    hide WeaponAmmo;
    var g' := DropTo(g, it, pos, into);
    forall id: nat, i: nat, u: nat | Lies(g', id, i, u) && WeaponAmmo(g'.boxes[id].items[i].data) != 0
      ensures g'.boxes[id].items[i].count == 1
    {
      assert Lies(g, id, i, u) || g'.boxes[id].items[i] == it;
    }
  }

  lemma TakeWhole(g: Ground, id: nat, unique: nat)
    requires WholeGround(g) && id in g.boxes
    ensures WholeGround(TakeFrom(g, id, unique))
  {
    hide WeaponAmmo, Without;
    var g' := TakeFrom(g, id, unique);
    WithoutMembers(g.boxes[id].items, unique);
    forall a: nat, i: nat, u: nat | Lies(g', a, i, u) && WeaponAmmo(g'.boxes[a].items[i].data) != 0
      ensures g'.boxes[a].items[i].count == 1
    {
      if a == id {
        assert g'.boxes[id].items[i] in Without(g.boxes[id].items, unique);
        var j :| 0 <= j < |g.boxes[id].items| && g.boxes[id].items[j] == g'.boxes[id].items[i];
        assert Lies(g, id, j, u);
      } else {
        assert Lies(g, a, i, u);
      }
    }
  }

  lemma CloseWhole(g: Ground, id: nat, emptied: bool)
    requires WholeGround(g)
    ensures WholeGround(Close(g, id, emptied))
  {
    hide WeaponAmmo;
    var g' := Close(g, id, emptied);
    assert forall a: nat, i: nat, u: nat :: Lies(g', a, i, u) ==> Lies(g, a, i, u);
  }

  lemma PickupGround(shop: Shop, k: Kit, unique: nat, mounts: nat, dup: nat, pos: Pos, into: nat)
    requires WholeGround(k.ground)
    ensures WholeGround(Pickup(shop, k, unique, mounts, dup, pos, into).ground)
    ensures OnGround(k.ground, unique) && WeaponAmmo(ItemOn(k.ground, unique).data) != 0 ==>
              ItemOn(k.ground, unique).count == 1
  {
    hide WholeGround, DropTo, Without, Close, OnGround, Place, TakeGun, TakeStack, WeaponAmmo, LootSlot;
    if OnGround(k.ground, unique) {
      var id, it := Place(k.ground, unique).0, ItemOn(k.ground, unique);
      PlaceIsThere(k.ground, unique);
      var g := TakeFrom(k.ground, id, unique);
      TakeWhole(k.ground, id, unique);
      WholeItem(k.ground, unique);
      var slot := LootSlot(k.bag, it.data);
      var emptied := |g.boxes[id].items| == 0;
      if slot in k.bag.weapons {
        DropWhole(g, Loot(shop, k.bag.weapons[slot]), pos, into);
      }
      CloseWhole(Displace(shop, g, k.bag, slot, pos, into), id, emptied && !(slot in k.bag.weapons && into == id));
      CloseWhole(g, id, emptied);
    }
  }

  lemma WholeItem(g: Ground, unique: nat)
    requires WholeGround(g) && OnGround(g, unique)
    ensures WeaponAmmo(ItemOn(g, unique).data) != 0 ==> ItemOn(g, unique).count == 1
  {
    hide WeaponAmmo;
    var p := Place(g, unique);
    assert Lies(g, p.0, p.1, unique);
  }

  // ---------------------------------------------------------------- runs

  lemma PickupWhole(shop: Shop, k: Kit, unique: nat, mounts: nat, dup: nat, pos: Pos, into: nat)
    requires InOrder(shop.cat, k) && Stocked(shop.cat) && Whole(k) && Possible(k, PickingUp(unique, mounts, dup, pos, into))
    ensures Whole(Pickup(shop, k, unique, mounts, dup, pos, into))
  {
    hide Agree, Orderly, RealGround, WholeBag, WholeGround, Spared, TakeGun, TakeStack, Place, OnGround, Close, TakeFrom,
         Displace, WeaponAmmo, LootSlot, IsDup, Merges, Real;
    PickupGround(shop, k, unique, mounts, dup, pos, into);
    if OnGround(k.ground, unique) {
      PickedIs(k, unique);
      var it := ItemOn(k.ground, unique);
      if WeaponAmmo(it.data) != 0 {
        TakeGunAgrees(shop.cat, k.bag, it, mounts);
        TakeGunSpares(shop.cat, k.bag, it, mounts);
        SparedIsWhole(shop.cat, k.bag, TakeGun(k.bag, it, mounts));
      } else {
        TakeStackSpares(shop.cat, k.bag, it, dup);
      }
    }
  }

  lemma BuyWhole(shop: Shop, k: Kit, data: nat, qty: nat, mounts: nat, dup: nat, pos: Pos, into: nat)
    requires InOrder(shop.cat, k) && Stocked(shop.cat) && Whole(k)
    requires Possible(k, Buying(data, qty, mounts, dup, pos, into))
    requires InOrder(shop.cat, Buy(shop, k, data, qty, mounts, dup, pos, into))
    ensures Whole(Buy(shop, k, data, qty, mounts, dup, pos, into))
  {
    hide Agree, Orderly, RealGround, WholeBag, WholeGround, Spared, BuyGun, BuyStack, PlacementOf, BoughtSlot, DropTo,
         WeaponAmmo, IsDup, Merges, Seeded, OnGround;
    if data in shop.cat && data != MUSHROOM {
      if PlacementOf(shop.cat, data).isWeapon {
        var slot := BoughtSlot(k.bag, PlacementOf(shop.cat, data));
        BuyGunSpares(shop, k.bag, data, mounts);
        if slot in k.bag.weapons {
          DropWhole(k.ground, Loot(shop, k.bag.weapons[slot]), pos, into);
        }
      } else {
        BuyStackSpares(shop, k.bag, data, if qty == 0 then 1 else qty, dup);
      }
      SparedIsWhole(shop.cat, k.bag, Buy(shop, k, data, qty, mounts, dup, pos, into).bag);
    }
  }

  lemma DropKitWhole(cat: Catalogue, k: Kit, unique: nat, pos: Pos, into: nat)
    requires InOrder(cat, k) && Whole(k)
    ensures Whole(Deeds.Drop(k, unique, pos, into))
  {
    hide Agree, Orderly, RealGround, Spared, WholeGround, DropTo, Strip, WeaponAmmo, OnGround;
    if unique != 0 && unique in k.bag.tracked {
      StripAgrees(cat, k.bag, unique);
      StripSpares(cat, k.bag, unique);
      SparedIsWhole(cat, k.bag, Strip(k.bag, unique));
      DropWhole(k.ground, k.bag.tracked[unique], pos, into);
    }
  }

  lemma DeedWhole(shop: Shop, k: Kit, d: Deed)
    requires InOrder(shop.cat, k) && Stocked(shop.cat) && Whole(k) && Allowed(shop, k, d) && !UsesWeapon(k.bag, d)
    ensures Whole(Do(shop, k, d))
  {
    hide InOrder, Agree, Stocked, Guarded, UsesWeapon, Buy, Pickup, Deeds.Drop, EquipTo, Wear, PlaceWall, Refill, Use, Fresh,
         WholeBag, WholeGround, Spared, Merges, IsDup, OnGround, IsWeaponUID, DurOf;
    BagAgrees(shop.cat, k);
    DeedKeeps(shop, k, d);
    BagAgrees(shop.cat, Do(shop, k, d));
    match d
    case Buying(data, qty, mounts, dup, pos, into) => BuyWhole(shop, k, data, qty, mounts, dup, pos, into);
    case PickingUp(unique, mounts, dup, pos, into) => PickupWhole(shop, k, unique, mounts, dup, pos, into);
    case Dropping(unique, pos, into) => DropKitWhole(shop.cat, k, unique, pos, into);
    case Equipping(dst, unique) =>
      EquipSpares(shop.cat, k.bag, dst, unique);
      SparedIsWhole(shop.cat, k.bag, EquipTo(k.bag, dst, unique));
    case Wearing(slot, left) =>
      WearSpares(shop.cat, k.bag, slot, left);
      SparedIsWhole(shop.cat, k.bag, Wear(k.bag, slot, left));
    case Walling(dup, unlimited) =>
      WallSpares(shop.cat, k.bag, dup, unlimited);
      SparedIsWhole(shop.cat, k.bag, PlaceWall(k.bag, dup, unlimited));
    case Resetting(noLoadout, mounts) =>
      ResetSpares(shop, k.bag, noLoadout, mounts);
      SparedIsWhole(shop.cat, k.bag, Fresh(shop, k.bag, noLoadout, mounts));
      BareIsWhole(k.ground);
    case Refilling(dup) =>
      RefillSpares(shop.cat, k.bag, dup);
      SparedIsWhole(shop.cat, k.bag, Refill(k.bag, dup));
    case Holding(unique) => HoldIsWhole(k.bag, unique);
    case Using(unique) => UseIsWhole(shop.cat, k.bag, unique);
  }

  lemma BareIsWhole(g: Ground)
    ensures WholeGround(g.(boxes := map[]))
  {}

  lemma HoldIsWhole(b: Bag, unique: nat)
    requires WholeBag(b)
    ensures WholeBag(Hold(b, unique))
  {
    hide WeaponAmmo, IsWeaponUID;
    assert forall u :: Armed(Hold(b, unique), u) <==> Armed(b, u);
  }

  ghost predicate Peaceful(shop: Shop, run: seq<Deed>) {
    forall n :: 0 <= n < |run| ==> !UsesWeapon(RunDeeds(shop, run[..n]).bag, run[n])
  }

  lemma {:induction false} WholeRun(shop: Shop, run: seq<Deed>)
    requires Stocked(shop.cat) && AllAllowed(shop, run) && Peaceful(shop, run)
    ensures Whole(RunDeeds(shop, run))
  {
    hide Stocked, Allowed, Do, InOrder, Whole, UsesWeapon;
    if |run| == 0 {
      StartIsWhole();
    } else {
      var init := run[..|run| - 1];
      forall n | 0 <= n < |init|
        ensures Allowed(shop, RunDeeds(shop, init[..n]), init[n]) && !UsesWeapon(RunDeeds(shop, init[..n]).bag, init[n])
      {
        assert init[..n] == run[..n];
      }
      WholeRun(shop, init);
      RunKeeps(shop, init);
      DeedWhole(shop, RunDeeds(shop, init), run[|run| - 1]);
    }
  }

  lemma StartIsWhole()
    ensures Whole(START)
  {}

  /** After such a run picking up and dropping preserve the total of every item, less what an overwritten or
      deleted box takes with it; with room, exactly. */
  lemma RunConserves(shop: Shop, run: seq<Deed>, d: Deed, data: nat)
    requires Stocked(shop.cat) && AllAllowed(shop, run) && Peaceful(shop, run)
    requires Possible(RunDeeds(shop, run), d) && (d.PickingUp? || d.Dropping?)
    ensures var k := RunDeeds(shop, run);
            && Total(Do(shop, k, d), data) == Total(k, data) - Destroyed(shop, k, d, data)
            && (Room(k.ground, Into(d)) ==> Total(Do(shop, k, d), data) == Total(k, data))
  {
    hide Stocked, AllAllowed, Peaceful, RunDeeds, InOrder, Whole, Possible, Do, Total, Destroyed, Room, Gained;
    var k := RunDeeds(shop, run);
    RunKeeps(shop, run);
    WholeRun(shop, run);
    BagAgrees(shop.cat, k);
    MovingConserves(shop, k, d, data);
    NothingGained(shop, k, d, data);
  }

  lemma NothingGained(shop: Shop, k: Kit, d: Deed, data: nat)
    requires Agree(shop.cat, k.bag) && Whole(k)
    ensures Gained(shop, k, d, data) == 0
  {
    hide Agree, WeaponAmmo, PlacementOf, BoughtSlot, LootSlot, OnGround, Place;
    match d
    case Buying(item, qty, mounts, dup, pos, into) =>
      if Displaces(shop.cat, k.bag, item) {
        ArmedIsOne(shop.cat, k.bag, BoughtSlot(k.bag, PlacementOf(shop.cat, item)));
      }
    case PickingUp(unique, mounts, dup, pos, into) =>
      if Ousts(k, unique) {
        ArmedIsOne(shop.cat, k.bag, LootSlot(k.bag, ItemOn(k.ground, unique).data));
      }
    case _ =>
  }

  lemma ArmedIsOne(cat: Catalogue, b: Bag, slot: nat)
    requires Agree(cat, b) && WholeBag(b) && slot in b.weapons
    ensures var u := b.weapons[slot].unique;
            u in b.tracked && b.tracked[u].count == 1 && b.tracked[u].data == b.weapons[slot].data
  {
    hide Agree, WeaponAmmo;
    WeaponIsTracked(cat, b, slot);
    assert Armed(b, b.weapons[slot].unique);
  }
}
