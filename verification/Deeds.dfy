/** What a player does to the loadout and to the ground: buying, picking up, dropping, swapping slots,
    wearing armour down, placing a wall, and the resets between rounds. */
module Deeds {
  import opened Items
  import opened GroundLoot
  import opened Loadout

  /** One player's loadout and the boxes on the ground. */
  datatype Kit = Kit(bag: Bag, ground: Ground)

  const START: Kit := Kit(BARE_HANDS, BARE)

  // ---------------------------------------------------------------- buying

  function AmmoReserve(ammo: nat): nat {
    (if ammo == 203 || ammo == 204 then 2 else 4) * 30
  }

  /** The full durability of a piece of armour. */
  function MaxDur(data: nat): nat {
    if data in {301, 304} then 120
    else if data in {302, 305} then 220
    else if data in {303, 306} then 300
    else if data in {309, 310} then 400
    else 0
  }

  function BoughtSlot(b: Bag, p: Placement): nat {
    if p.isPrimary then PickPrimarySlot(b) else p.slot
  }

  /** The gun and its ammunition are tracked under fresh uniques, and so many for its attachments. */
  function Supplied(shop: Shop, b: Bag, data: nat, p: Placement, mounts: nat): Bag {
    var uid := b.lastUid + 1;
    var b1 := Track(Numbered(b, 1), Item(uid, data, 1, shop.mag(data)));
    var b2 := if p.ammo != 0 then Track(Numbered(b1, 1), Item(uid + 1, p.ammo, AmmoReserve(p.ammo), 0)) else b1;
    Numbered(b2, mounts)
  }

  function BuyGun(shop: Shop, b: Bag, data: nat, mounts: nat): Bag {
    var p := PlacementOf(shop.cat, data);
    var slot := BoughtSlot(b, p);
    var b1 := Supplied(shop, b, data, p, mounts);
    var b2 := if slot in b.weapons then Untrack(b1, b.weapons[slot].unique) else b1;
    Arm(b2, slot, data, b.lastUid + 1, p.ammo)
  }

  function Seeded(b: Bag, data: nat): Bag {
    if ArmorSlot(data) == VEST then b.(vestDur := MaxDur(data))
    else if ArmorSlot(data) == HELMET then b.(helmetDur := MaxDur(data))
    else b
  }

  /** A repeat buy is merged into the stack that is there; armour never is. */
  function StackUp(shop: Shop, b: Bag, data: nat, qty: nat, dup: nat): Bag {
    var p := PlacementOf(shop.cat, data);
    var merge := dup in b.tracked && !p.isArmor;
    var uid := if merge then dup else b.lastUid + 1;
    var it := if merge then b.tracked[dup].(count := b.tracked[dup].count + qty)
              else Item(uid, data, qty, if p.isArmor then MaxDur(data) else 0);
    var b1 := Track(Numbered(b, 1), it);
    if p.slot != NO_SLOT then SetEquip(b1, p.slot, data, uid) else b1
  }

  function BuyStack(shop: Shop, b: Bag, data: nat, qty: nat, dup: nat): Bag {
    Seeded(StackUp(shop, b, data, qty, dup), data)
  }

  function Loot(shop: Shop, w: Weapon): Item {
    Item(w.unique, w.data, 1, shop.mag(w.data))
  }

  /** A weapon forced out of its slot lands on the ground. */
  function Displace(shop: Shop, g: Ground, b: Bag, slot: nat, pos: Pos, into: nat): Ground {
    if slot in b.weapons then DropTo(g, Loot(shop, b.weapons[slot]), pos, into) else g
  }

  const MUSHROOMS_PER_ROUND: nat := 2

  /** What a purchase costs, in Go's uint32; no quantity means one. */
  function Cost(shop: Shop, data: nat, qty: nat): nat {
    shop.price(data) * (if qty == 0 then 1 else qty) % 0x1_0000_0000
  }

  /** The item is in the shop, its limit is not reached, and the coins suffice. */
  predicate Payable(shop: Shop, coins: nat, mushrooms: nat, data: nat, qty: nat) {
    && data in shop.cat && (data == MUSHROOM ==> mushrooms < MUSHROOMS_PER_ROUND) && coins >= Cost(shop, data, qty)
  }

  /** handleCSPurchase once the money is there: an item outside the catalogue is ignored, the mushroom is
      no inventory item, and no quantity means one. */
  function Buy(shop: Shop, k: Kit, data: nat, qty: nat, mounts: nat, dup: nat, pos: Pos, into: nat): Kit {
    if data !in shop.cat || data == MUSHROOM then k
    else if PlacementOf(shop.cat, data).isWeapon then
      Kit(Seeded(BuyGun(shop, k.bag, data, mounts), data),
          Displace(shop, k.ground, k.bag, BoughtSlot(k.bag, PlacementOf(shop.cat, data)), pos, into))
    else
      k.(bag := BuyStack(shop, k.bag, data, if qty == 0 then 1 else qty, dup))
  }

  // ---------------------------------------------------------------- picking up and dropping

  function LootSlot(b: Bag, data: nat): nat {
    if WeaponAmmo(data) == PISTOL_AMMO then SECONDARY else PickPrimarySlot(b)
  }

  function TakeGun(b: Bag, it: Item, mounts: nat): Bag {
    var slot := LootSlot(b, it.data);
    Numbered(Track(Arm(Unarm(b, slot), slot, it.data, it.unique, WeaponAmmo(it.data)), it), mounts)
  }

  /** A stack of the same data is folded into the picked one, slot and hand included. */
  ghost function TakeStack(b: Bag, it: Item, dup: nat): Bag {
    if dup in b.tracked then
      var b1 := Strip(b, dup);
      var b2 := if Shows(b, dup) then SetEquip(b1, SlotOf(b, dup), it.data, it.unique) else b1;
      var b3 := if b.onHand == dup then b2.(onHand := it.unique) else b2;
      Track(b3, it.(count := it.count + b.tracked[dup].count))
    else
      Track(b, it)
  }

  /** findLoot: the box and the position of a unique that lies on the ground. */
  ghost function Place(g: Ground, unique: nat): (nat, nat)
    requires OnGround(g, unique)
  {
    var id: nat, i: nat :| Lies(g, id, i, unique);
    (id, i)
  }

  ghost function Pickup(shop: Shop, k: Kit, unique: nat, mounts: nat, dup: nat, pos: Pos, into: nat): Kit {
    if !OnGround(k.ground, unique) then k
    else
      var at := Place(k.ground, unique);
      var id, i := at.0, at.1;
      var it := k.ground.boxes[id].items[i];
      var g := TakeFrom(k.ground, id, unique);
      var emptied := |g.boxes[id].items| == 0;
      if WeaponAmmo(it.data) != 0 then
        var slot := LootSlot(k.bag, it.data);
        Kit(TakeGun(k.bag, it, mounts),
            Close(Displace(shop, g, k.bag, slot, pos, into), id, emptied && !(slot in k.bag.weapons && into == id)))
      else
        Kit(TakeStack(k.bag, it, dup), Close(g, id, emptied))
  }

  function Drop(k: Kit, unique: nat, pos: Pos, into: nat): Kit {
    if unique == 0 || unique !in k.bag.tracked then k
    else Kit(Strip(k.bag, unique), DropTo(k.ground, k.bag.tracked[unique], pos, into))
  }

  // ---------------------------------------------------------------- slots

  function SwapWeapons(weapons: map<nat, Weapon>, a: nat, b: nat): map<nat, Weapon> {
    var w1 := if b in weapons then weapons[a := weapons[b].(slot := a)] else weapons - {a};
    if a in weapons then w1[b := weapons[a].(slot := b)] else w1 - {b}
  }

  function MoveWeapon(weapons: map<nat, Weapon>, from: nat, to: nat): map<nat, Weapon> {
    if from != NO_SLOT && from in weapons then (weapons - {from})[to := weapons[from].(slot := to)] else weapons
  }

  predicate Occupied(b: Bag, slot: nat) {
    slot in b.equip && b.equip[slot] != FIST
  }

  /** The slot of the item and its data, as handleEquip looks them up; nothing when it is not held. */
  ghost predicate Held(b: Bag, unique: nat) {
    Shows(b, unique) || unique in b.tracked
  }

  ghost function DataOf(b: Bag, unique: nat): nat
    requires Held(b, unique)
  {
    if Shows(b, unique) then b.equip[SlotOf(b, unique)].data else b.tracked[unique].data
  }

  ghost function EquipTo(b: Bag, dst: nat, unique: nat): Bag {
    var src := SlotOf(b, unique);
    if !Held(b, unique) || src == dst then b
    else if Occupied(b, dst) && src != NO_SLOT then
      b.(equip := b.equip[src := b.equip[dst]][dst := Gear(DataOf(b, unique), unique)],
         weapons := SwapWeapons(b.weapons, src, dst))
    else
      b.(equip := (if src != NO_SLOT then b.equip - {src} else b.equip)[dst := Gear(DataOf(b, unique), unique)],
         weapons := MoveWeapon(if Occupied(b, dst) then b.weapons - {dst} else b.weapons, src, dst))
  }

  // ---------------------------------------------------------------- wear, walls, resets

  function DurOf(b: Bag, slot: nat): nat {
    if slot == VEST then b.vestDur else if slot == HELMET then b.helmetDur else 0
  }

  /** wearArmor on a worn slot, with the durability that is left, and syncArmor. */
  function Wear(b: Bag, slot: nat, left: nat): Bag {
    if DurOf(b, slot) == 0 then b
    else
      var b1 := if slot == VEST then b.(vestDur := left) else b.(helmetDur := left);
      if !Occupied(b, slot) then b1
      else if left == 0 then Untrack(ClearEquip(b1, slot), b.equip[slot].unique)
      else
        var uid := b.lastUid + 1;
        SetEquip(Track(Untrack(Numbered(b1, 1), b.equip[slot].unique), Item(uid, b.equip[slot].data, 1, left)),
                 slot, b.equip[slot].data, uid)
  }

  /** The gloo stack that glooCount finds: the one in the building slot first. */
  function GlooStack(b: Bag, dup: nat): nat {
    if BUILDING in b.equip && b.equip[BUILDING].unique in b.tracked && b.tracked[b.equip[BUILDING].unique].data == GLOO
    then b.equip[BUILDING].unique else dup
  }

  /** The last wall of the stack in hand is placed. */
  predicate UsesUp(b: Bag, dup: nat, unlimited: bool) {
    var u := GlooStack(b, dup);
    u in b.tracked && b.tracked[u].count == 1 && !unlimited
  }

  /** The inventory part of handlePlaceIcewall. */
  ghost function PlaceWall(b: Bag, dup: nat, unlimited: bool): Bag {
    var u := GlooStack(b, dup);
    if u !in b.tracked || b.tracked[u].count == 0 || unlimited then b
    else if b.tracked[u].count > 1 then Track(b, b.tracked[u].(count := b.tracked[u].count - 1))
    else
      var b1 := ClearEquip(Untrack(b, u), BUILDING).(beforeGloo := 0);
      var target := if IsWeaponUID(b, b.beforeGloo) then b.beforeGloo else BestWeaponUID(b);
      if target != 0 then b1.(onHand := target) else b1
  }

  /** The fist, two medkits, and a number set aside for the pistol. */
  function Bare(b: Bag): Bag {
    Track(Bag(map[MELEE := FIST], map[], map[], b.lastUid + 2, 0, b.beforeGloo, 0, 0), Item(b.lastUid + 2, MEDKIT, 2, 2))
  }

  /** The pistol in hand and its ammunition, numbered after the attachments. */
  function Starter(shop: Shop, b: Bag, usp: nat, mounts: nat): Bag {
    var b1 := Arm(Track(b, Item(usp, USP, 1, shop.mag(USP))), SECONDARY, USP, usp, PISTOL_AMMO);
    var b2 := Numbered(b1, mounts + 1);
    Track(b2, Item(b2.lastUid, PISTOL_AMMO, AmmoReserve(PISTOL_AMMO), 0))
  }

  /** giveLoadout without the development switches. */
  function Fresh(shop: Shop, b: Bag, noLoadout: bool, mounts: nat): Bag {
    if noLoadout then Bare(b) else Starter(shop, Bare(b), b.lastUid + 1, mounts)
  }

  function Reset(shop: Shop, k: Kit, noLoadout: bool, mounts: nat): Kit {
    Kit(Fresh(shop, k.bag, noLoadout, mounts), k.ground.(boxes := map[]))
  }

  /** reissueLoadout: the medkits are two again. */
  function Refill(b: Bag, dup: nat): Bag {
    if dup in b.tracked then Track(b, Item(dup, MEDKIT, 2, 2))
    else Track(Numbered(b, 1), Item(b.lastUid + 1, MEDKIT, 2, 2))
  }

  ghost function Hold(b: Bag, unique: nat): Bag {
    var gloo := unique in b.tracked && b.tracked[unique].data == GLOO;
    b.(beforeGloo := if gloo && IsWeaponUID(b, b.onHand) then b.onHand else b.beforeGloo, onHand := unique)
  }

  function Use(b: Bag, unique: nat): Bag {
    if unique in b.tracked && b.tracked[unique].count > 0
    then Track(b, b.tracked[unique].(count := b.tracked[unique].count - 1)) else b
  }

  // ---------------------------------------------------------------- runs

  datatype Deed =
    | Buying(data: nat, qty: nat, mounts: nat, dup: nat, pos: Pos, into: nat)
    | PickingUp(unique: nat, mounts: nat, dup: nat, pos: Pos, into: nat)
    | Dropping(unique: nat, pos: Pos, into: nat)
    | Equipping(dst: nat, unique: nat)
    | Wearing(slot: nat, left: nat)
    | Walling(dup: nat, unlimited: bool)
    | Resetting(noLoadout: bool, mounts: nat)
    | Refilling(dup: nat)
    | Holding(unique: nat)
    | Using(unique: nat)

  ghost function Do(shop: Shop, k: Kit, d: Deed): Kit {
    match d
    case Buying(data, qty, mounts, dup, pos, into) => Buy(shop, k, data, qty, mounts, dup, pos, into)
    case PickingUp(unique, mounts, dup, pos, into) => Pickup(shop, k, unique, mounts, dup, pos, into)
    case Dropping(unique, pos, into) => Drop(k, unique, pos, into)
    case Equipping(dst, unique) => k.(bag := EquipTo(k.bag, dst, unique))
    case Wearing(slot, left) => k.(bag := Wear(k.bag, slot, left))
    case Walling(dup, unlimited) => k.(bag := PlaceWall(k.bag, dup, unlimited))
    case Resetting(noLoadout, mounts) => Reset(shop, k, noLoadout, mounts)
    case Refilling(dup) => k.(bag := Refill(k.bag, dup))
    case Holding(unique) => k.(bag := Hold(k.bag, unique))
    case Using(unique) => k.(bag := Use(k.bag, unique))
  }
}
