/** Items, the shop's placement rules of match-server/purchase.go, and totals over collections of items. */
module Items {

  const PRIMARY_1: nat := 0
  const PRIMARY_2: nat := 1
  const SECONDARY: nat := 2
  const EXPLOSIVE: nat := 3
  const MELEE: nat := 4
  const HELMET: nat := 6
  const VEST: nat := 8
  const BUILDING: nat := 13
  const NO_SLOT: nat := 255

  const MEDKIT: nat := 102
  const PISTOL_AMMO: nat := 202
  const USP: nat := 3
  const GLOO: nat := 1201
  const MUSHROOM: nat := 709
  const THROWABLE: nat := 4

  /** One inventory item or ground item; runtime is a loaded magazine or a durability. */
  datatype Item = Item(unique: nat, data: nat, count: nat, runtime: nat)
  /** What a loadout slot shows. */
  datatype Gear = Gear(data: nat, unique: nat)
  datatype Weapon = Weapon(slot: nat, data: nat, unique: nat, ammo: nat)

  // ---------------------------------------------------------------- placement

  datatype SlotKind =
    | Unset | Secondary | Primary | MeleeArm | Vest | Helmet | Grenade | Building | Consumable | Unknown

  datatype ShopItem = ShopItem(itemID: nat, filter: nat, kind: SlotKind, ammo: nat)

  datatype Placement = Placement(slot: nat, ammo: nat, isWeapon: bool, isPrimary: bool, isArmor: bool)

  /** Ammunition of the guns of the default shop; 0 for anything else. */
  function WeaponAmmo(data: nat): nat {
    if data in {3, 10, 25, 9} then 202
    else if data in {8, 7, 32, 15, 88, 43} then 205
    else if data in {33, 24, 6, 12} then 201
    else if data in {21, 4} then 203
    else if data in {5, 41} then 204
    else 0
  }

  function ArmorSlot(data: nat): nat {
    if data in {302, 303, 309} then VEST
    else if data in {305, 306, 310} then HELMET
    else NO_SLOT
  }

  predicate IsAmmo(data: nat) {
    201 <= data <= 205
  }

  function PlaceBySlotKind(item: ShopItem): Placement {
    match item.kind
    case Secondary => Placement(SECONDARY, item.ammo, true, false, false)
    case Primary => Placement(NO_SLOT, item.ammo, true, true, false)
    case MeleeArm => Placement(MELEE, 0, true, false, false)
    case Vest => Placement(VEST, 0, false, false, true)
    case Helmet => Placement(HELMET, 0, false, false, true)
    case Grenade => Placement(EXPLOSIVE, 0, false, false, false)
    case Building => Placement(BUILDING, 0, false, false, false)
    case _ => Placement(NO_SLOT, 0, false, false, false)
  }

  function PlaceItem(item: ShopItem): Placement {
    if item.kind != Unset then PlaceBySlotKind(item)
    else if WeaponAmmo(item.itemID) == PISTOL_AMMO then Placement(SECONDARY, PISTOL_AMMO, true, false, false)
    else if WeaponAmmo(item.itemID) != 0 then Placement(NO_SLOT, WeaponAmmo(item.itemID), true, true, false)
    else if ArmorSlot(item.itemID) != NO_SLOT then Placement(ArmorSlot(item.itemID), 0, false, false, true)
    else if item.itemID == 801 || item.itemID == GLOO then Placement(BUILDING, 0, false, false, false)
    else if item.filter == THROWABLE && item.itemID != MUSHROOM then Placement(EXPLOSIVE, 0, false, false, false)
    else Placement(NO_SLOT, 0, false, false, false)
  }

  /** The slots the other way round: what a shop item must be to be put there, in the default shop, which knows
      the items by number, and in a custom room, which says their kind. */
  lemma PutWhere(item: ShopItem)
    ensures var p, gun := PlaceItem(item), WeaponAmmo(item.itemID);
            var plain := item.kind == Unset && gun == 0;
            && (p.slot == 2 <==> item.kind == Secondary || (item.kind == Unset && gun == 202))
            && (p.isPrimary <==> item.kind == Primary || (item.kind == Unset && gun in {201, 203, 204, 205}))
            && (p.slot == 4 <==> item.kind == MeleeArm)
            && (p.slot == 8 <==> item.kind == Vest || (plain && item.itemID in {302, 303, 309}))
            && (p.slot == 6 <==> item.kind == Helmet || (plain && item.itemID in {305, 306, 310}))
            && (p.slot == 13 <==> item.kind == SlotKind.Building || (plain && item.itemID in {801, 1201}))
            && (p.slot == 3 <==> item.kind == Grenade
                                 || (plain && item.filter == 4 && item.itemID !in {302, 303, 305, 306, 309, 310, 709, 801, 1201}))
            && (p.slot in {2, 3, 4, 6, 8, 13, 255})
            && p.ammo == (if item.kind == Unset then gun else if item.kind in {Secondary, Primary} then item.ammo else 0)
  {
    hide WeaponAmmo;
    AmmoKinds(item.itemID);
  }

  /** Which guns take which ammunition: rifles, pistols, snipers, shotguns and submachine guns. */
  lemma AmmoKinds(data: nat)
    ensures WeaponAmmo(data) == 201 <==> data in {6, 12, 24, 33}
    ensures WeaponAmmo(data) == 202 <==> data in {3, 9, 10, 25}
    ensures WeaponAmmo(data) == 203 <==> data in {4, 21}
    ensures WeaponAmmo(data) == 204 <==> data in {5, 41}
    ensures WeaponAmmo(data) == 205 <==> data in {7, 8, 15, 32, 43, 88}
    ensures WeaponAmmo(data) in {0, 201, 202, 203, 204, 205} && WeaponAmmo(302) == 0 && WeaponAmmo(801) == 0
  {}

  // ---------------------------------------------------------------- the slot an item belongs to

  type Catalogue = map<nat, ShopItem>

  /** A match's shop: one entry an item, and a custom room files the known guns under their own kind. */
  ghost predicate Stocked(cat: Catalogue) {
    && (forall d :: d in cat ==> cat[d].itemID == d && d != 0 && !IsAmmo(d) && (cat[d].ammo == 0 || IsAmmo(cat[d].ammo)))
    && (forall d :: d in cat && cat[d].kind != Unset && WeaponAmmo(d) != 0 ==>
          cat[d].kind == if WeaponAmmo(d) == PISTOL_AMMO then Secondary else Primary)
    && (MEDKIT in cat ==> cat[MEDKIT].kind in {Unset, Consumable} && cat[MEDKIT].filter != THROWABLE)
    && (GLOO in cat ==> cat[GLOO].kind in {Unset, Building})
  }

  function PlacementOf(cat: Catalogue, data: nat): Placement {
    PlaceItem(if data in cat then cat[data] else ShopItem(data, 0, Unset, 0))
  }

  /** The two primary slots count as one. */
  function Base(slot: nat): nat {
    if slot == PRIMARY_2 then PRIMARY_1 else slot
  }

  /** The base slot of an item's kind; the fist, item 0, belongs in the melee slot. */
  function Home(cat: Catalogue, data: nat): nat {
    if data == 0 then MELEE
    else if PlacementOf(cat, data).isPrimary then PRIMARY_1
    else PlacementOf(cat, data).slot
  }

  predicate Fits(cat: Catalogue, data: nat, slot: nat) {
    slot != NO_SLOT && Base(slot) == Home(cat, data)
  }

  predicate GunSlot(slot: nat) {
    slot in {PRIMARY_1, PRIMARY_2, SECONDARY, MELEE}
  }

  /** Counted items that must form one stack: no guns, no armour, no ammunition. */
  predicate Stackable(cat: Catalogue, data: nat) {
    data != 0 && !IsAmmo(data) && !PlacementOf(cat, data).isWeapon && !PlacementOf(cat, data).isArmor
  }

  /** Guns go to gun slots, armour to its own, and the rest elsewhere. */
  lemma PlacementKinds(cat: Catalogue, data: nat)
    requires data != 0
    ensures var p := PlacementOf(cat, data);
            && (p.isWeapon <==> GunSlot(Home(cat, data)))
            && (p.isArmor <==> Home(cat, data) == HELMET || Home(cat, data) == VEST)
            && (!p.isWeapon && !p.isArmor ==> Home(cat, data) in {EXPLOSIVE, BUILDING, NO_SLOT})
            && (p.isPrimary ==> p.isWeapon) && (p.isWeapon && !p.isPrimary ==> p.slot in {SECONDARY, MELEE})
  {
    hide WeaponAmmo;
  }

  lemma KnownGuns(cat: Catalogue, data: nat)
    requires Stocked(cat) && WeaponAmmo(data) != 0
    ensures Home(cat, data) == if WeaponAmmo(data) == PISTOL_AMMO then SECONDARY else PRIMARY_1
    ensures PlacementOf(cat, data).isWeapon && data != 0
  {}

  lemma MedkitPlace(cat: Catalogue)
    requires Stocked(cat)
    ensures Stackable(cat, MEDKIT) && WeaponAmmo(MEDKIT) == 0
  {}

  lemma GlooHome(cat: Catalogue)
    requires Stocked(cat)
    ensures Home(cat, GLOO) == BUILDING && WeaponAmmo(GLOO) == 0 && Stackable(cat, GLOO)
  {}

  lemma BoughtAmmo(cat: Catalogue, data: nat)
    requires Stocked(cat) && data in cat
    ensures PlacementOf(cat, data).ammo == 0 || IsAmmo(PlacementOf(cat, data).ammo)
    ensures PlacementOf(cat, data) == PlaceItem(cat[data]) && data != 0 && cat[data].itemID == data
  {}

  // ---------------------------------------------------------------- totals

  /** The sum of the values of a map. */
  ghost function Sum(m: map<nat, nat>): nat
    decreases |m|
  {
    if |m| == 0 then 0
    else
      assert |m - {AnyKey(m)}| < |m| by { Smaller(m, AnyKey(m)); }
      m[AnyKey(m)] + Sum(m - {AnyKey(m)})
  }

  ghost function AnyKey(m: map<nat, nat>): (k: nat)
    requires |m| > 0
    ensures k in m
  {
    var k :| k in m;
    k
  }

  lemma Smaller(m: map<nat, nat>, k: nat)
    requires k in m
    ensures |m - {k}| == |m| - 1
  {
    assert (m - {k}).Keys == m.Keys - {k};
    assert |m.Keys| == |m| && |(m - {k}).Keys| == |m - {k}|;
  }

  lemma HasKeys(m: map<nat, nat>, k: nat)
    requires k in m
    ensures |m| > 0
  {
    assert k in m.Keys && |m.Keys| == |m|;
  }

  lemma SumStep(m: map<nat, nat>, k: nat) returns (j: nat)
    requires k in m
    ensures j in m && Sum(m) == m[j] + Sum(m - {j})
  {
    HasKeys(m, k);
    j := AnyKey(m);
  }

  lemma {:induction false} SumWithout(m: map<nat, nat>, k: nat)
    requires k in m
    ensures Sum(m) == m[k] + Sum(m - {k})
    decreases |m|
  {
    hide Sum;
    var j := SumStep(m, k);
    if j != k {
      Smaller(m, j);
      Smaller(m, k);
      var mj, mk := m - {j}, m - {k};
      assert k in mj && mj[k] == m[k] && j in mk && mk[j] == m[j];
      SumWithout(mj, k);
      SumWithout(mk, j);
      assert mj - {k} == mk - {j};
    }
  }

  /** Changing or adding one value. */
  lemma SumPut(m: map<nat, nat>, k: nat, v: nat)
    ensures Sum(m[k := v]) == Sum(m) - (if k in m then m[k] else 0) + v
  {
    hide Sum;
    SumWithout(m[k := v], k);
    if k in m {
      SumWithout(m, k);
      assert m[k := v] - {k} == m - {k};
    } else {
      assert m[k := v] - {k} == m;
    }
  }

  lemma SumDrop(m: map<nat, nat>, k: nat)
    ensures Sum(m - {k}) == Sum(m) - if k in m then m[k] else 0
  {
    if k in m {
      SumWithout(m, k);
    } else {
      assert m - {k} == m;
    }
  }

  function CountOf(it: Item, data: nat): nat {
    if it.data == data then it.count else 0
  }

  /** How many of an item the tracked stacks hold. */
  ghost function Weights(tracked: map<nat, Item>, data: nat): map<nat, nat> {
    map u | u in tracked :: CountOf(tracked[u], data)
  }

  ghost function Carried(tracked: map<nat, Item>, data: nat): nat {
    Sum(Weights(tracked, data))
  }

  lemma WeightsPut(tracked: map<nat, Item>, u: nat, it: Item, data: nat)
    ensures Weights(tracked[u := it], data) == Weights(tracked, data)[u := CountOf(it, data)]
  {
    hide CountOf;
  }

  lemma WeightsDrop(tracked: map<nat, Item>, u: nat, data: nat)
    ensures Weights(tracked - {u}, data) == Weights(tracked, data) - {u}
  {
    hide CountOf;
  }

  lemma CarriedPut(tracked: map<nat, Item>, u: nat, it: Item, data: nat)
    ensures Carried(tracked[u := it], data)
         == Carried(tracked, data) - (if u in tracked then CountOf(tracked[u], data) else 0) + CountOf(it, data)
  {
    hide Sum, CountOf;
    SumPut(Weights(tracked, data), u, CountOf(it, data));
    WeightsPut(tracked, u, it, data);
  }

  lemma CarriedDrop(tracked: map<nat, Item>, u: nat, data: nat)
    ensures Carried(tracked - {u}, data) == Carried(tracked, data) - if u in tracked then CountOf(tracked[u], data) else 0
  {
    hide Sum, CountOf;
    SumDrop(Weights(tracked, data), u);
    WeightsDrop(tracked, u, data);
  }
}
