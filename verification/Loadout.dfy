/** A player's loadout: the equipment list, the weapons map and the tracked items of loot.go, equip.go,
    purchase.go, gloo.go, durability.go and cssync.go, with the steps that edit them, as functions on
    values. The equipment list is taken as the map from slot to item that it stands for. */
module Loadout {
  import opened Items

  /** The shop of the match, the magazine a gun is loaded with, and the prices. */
  datatype Shop = Shop(cat: Catalogue, mag: nat -> nat, price: nat -> nat)

  datatype Bag = Bag(
    equip: map<nat, Gear>,
    weapons: map<nat, Weapon>,
    tracked: map<nat, Item>,
    lastUid: nat,
    onHand: nat,
    beforeGloo: nat,
    vestDur: nat,
    helmetDur: nat)

  const FIST: Gear := Gear(0, 0)
  const BARE_HANDS: Bag := Bag(map[], map[], map[], 0, 0, 0, 0, 0)

  // ---------------------------------------------------------------- small edits

  function SetEquip(b: Bag, slot: nat, data: nat, unique: nat): Bag {
    b.(equip := b.equip[slot := Gear(data, unique)])
  }

  function ClearEquip(b: Bag, slot: nat): Bag {
    b.(equip := b.equip - {slot})
  }

  function Track(b: Bag, it: Item): Bag {
    b.(tracked := b.tracked[it.unique := it])
  }

  function Untrack(b: Bag, unique: nat): Bag {
    b.(tracked := b.tracked - {unique})
  }

  /** A number of fresh uniques. */
  function Numbered(b: Bag, n: nat): Bag {
    b.(lastUid := b.lastUid + n)
  }

  /** removeTrackedItem, where the unique names at most one weapon and one equipped item. */
  function Strip(b: Bag, unique: nat): Bag {
    b.(weapons := map s | s in b.weapons && b.weapons[s].unique != unique :: b.weapons[s],
       equip := map s | s in b.equip && b.equip[s].unique != unique :: b.equip[s],
       tracked := b.tracked - {unique},
       onHand := if b.onHand == unique then 0 else b.onHand)
  }

  /** removeLoadoutWeapon. */
  function Unarm(b: Bag, slot: nat): Bag {
    if slot !in b.weapons then b
    else
      var u := b.weapons[slot].unique;
      b.(weapons := b.weapons - {slot}, equip := b.equip - {slot}, tracked := b.tracked - {u},
         onHand := if b.onHand == u then 0 else b.onHand)
  }

  function Arm(b: Bag, slot: nat, data: nat, unique: nat, ammo: nat): Bag {
    b.(weapons := b.weapons[slot := Weapon(slot, data, unique, ammo)], equip := b.equip[slot := Gear(data, unique)],
       onHand := unique)
  }

  function PickPrimarySlot(b: Bag): (slot: nat)
    ensures slot == PRIMARY_1 || slot == PRIMARY_2
  {
    if PRIMARY_1 !in b.weapons then PRIMARY_1
    else if PRIMARY_2 !in b.weapons then PRIMARY_2
    else if b.weapons[PRIMARY_1].unique == b.onHand then PRIMARY_1
    else if b.weapons[PRIMARY_2].unique == b.onHand then PRIMARY_2
    else PRIMARY_1
  }

  ghost predicate IsWeaponUID(b: Bag, unique: nat) {
    unique != 0 && exists s :: s in b.weapons && b.weapons[s].unique == unique
  }

  function BestWeaponUID(b: Bag): nat {
    if PRIMARY_1 in b.weapons && b.weapons[PRIMARY_1].unique != 0 then b.weapons[PRIMARY_1].unique
    else if PRIMARY_2 in b.weapons && b.weapons[PRIMARY_2].unique != 0 then b.weapons[PRIMARY_2].unique
    else if SECONDARY in b.weapons then b.weapons[SECONDARY].unique
    else 0
  }

  ghost predicate Shows(b: Bag, unique: nat) {
    exists s :: s in b.equip && b.equip[s].unique == unique
  }

  /** The slot that shows an item, or NO_SLOT. A client may name slot 255 as well, which the source takes for
      no slot. */
  ghost function SlotOf(b: Bag, unique: nat): nat {
    if Shows(b, unique) then var s :| s in b.equip && b.equip[s].unique == unique; s else NO_SLOT
  }

  /** An answer of trackedByData: some other tracked stack of the same data, or 0 for none. */
  ghost predicate IsDup(tracked: map<nat, Item>, data: nat, skip: nat, dup: nat) {
    if dup == 0 then forall u :: u in tracked && u != skip ==> tracked[u].data != data
    else dup in tracked && dup != skip && tracked[dup].data == data
  }

  // ---------------------------------------------------------------- the three indexes agree

  /** What the equipment list shows is tracked, and is what it claims to be; only the fist has no unique. */
  ghost predicate Tied(b: Bag) {
    forall s :: s in b.equip ==>
      && (b.equip[s].unique == 0 <==> b.equip[s].data == 0)
      && (b.equip[s].unique != 0 ==>
            b.equip[s].unique in b.tracked && b.tracked[b.equip[s].unique].data == b.equip[s].data)
  }

  /** Nothing is in two slots. */
  ghost predicate OnePlace(b: Bag) {
    forall s, t :: s in b.equip && t in b.equip && s != t ==> b.equip[s].unique != b.equip[t].unique
  }

  /** A weapon record is of a weapon, carries its own slot, and is what the equipment list shows there. */
  ghost predicate Recorded(cat: Catalogue, b: Bag) {
    forall s :: s in b.weapons ==>
      && b.weapons[s].slot == s && b.weapons[s].unique != 0 && PlacementOf(cat, b.weapons[s].data).isWeapon
      && s in b.equip && b.equip[s] == Gear(b.weapons[s].data, b.weapons[s].unique)
  }

  /** Tracked items are filed under uniques that have been given out. */
  ghost predicate Issued(b: Bag) {
    forall u :: u in b.tracked ==> 0 < u <= b.lastUid && b.tracked[u].unique == u && Real(b.tracked[u])
  }

  /** No item is the fist. */
  predicate Real(it: Item) {
    it.data != 0
  }

  ghost predicate OneStack(cat: Catalogue, b: Bag) {
    forall u, v :: u in b.tracked && v in b.tracked && u != v && b.tracked[u].data == b.tracked[v].data ==>
      !Stackable(cat, b.tracked[u].data)
  }

  ghost predicate Agree(cat: Catalogue, b: Bag) {
    Tied(b) && OnePlace(b) && Recorded(cat, b) && Issued(b) && OneStack(cat, b)
  }

  // ---------------------------------------------------------------- small edits keep them in agreement

  lemma NumberedAgrees(cat: Catalogue, b: Bag, n: nat)
    requires Agree(cat, b)
    ensures Agree(cat, Numbered(b, n))
  {
    hide Stackable, PlacementOf, Real;
  }

  lemma HandsAgree(cat: Catalogue, b: Bag, onHand: nat, before: nat, vest: nat, helmet: nat)
    ensures Agree(cat, b.(onHand := onHand, beforeGloo := before, vestDur := vest, helmetDur := helmet)) <==> Agree(cat, b)
  {
    hide Stackable, PlacementOf, Real;
  }

  /** Tracking an item leaves what is shown, unless it changes an item that is. */
  lemma TrackShown(cat: Catalogue, b: Bag, it: Item)
    requires Tied(b) && OnePlace(b) && Recorded(cat, b)
    requires it.unique in b.tracked ==> b.tracked[it.unique].data == it.data
    ensures var b' := Track(b, it); Tied(b') && OnePlace(b') && Recorded(cat, b')
  {
    hide PlacementOf;
  }

  lemma TrackIssued(b: Bag, it: Item)
    requires Issued(b) && 0 < it.unique <= b.lastUid && Real(it)
    ensures Issued(Track(b, it))
  {
    hide Real;
  }

  lemma TrackNewStacks(cat: Catalogue, b: Bag, it: Item)
    requires OneStack(cat, b)
    requires Stackable(cat, it.data) ==> forall u :: u in b.tracked ==> b.tracked[u].data != it.data
    ensures OneStack(cat, Track(b, it))
  {
    hide Stackable;
  }

  lemma RecountStacks(cat: Catalogue, b: Bag, it: Item)
    requires OneStack(cat, b) && it.unique in b.tracked && b.tracked[it.unique].data == it.data
    ensures OneStack(cat, Track(b, it))
  {
    hide Stackable;
  }

  lemma TrackNewAgrees(cat: Catalogue, b: Bag, it: Item)
    requires Agree(cat, b) && it.unique !in b.tracked && 0 < it.unique <= b.lastUid && Real(it)
    requires Stackable(cat, it.data) ==> forall u :: u in b.tracked ==> b.tracked[u].data != it.data
    ensures Agree(cat, Track(b, it))
  {
    hide Tied, OnePlace, Recorded, Issued, OneStack, Track, Real, Stackable;
    TrackShown(cat, b, it);
    TrackIssued(b, it);
    TrackNewStacks(cat, b, it);
  }

  /** Another count for a tracked item. */
  lemma RecountAgrees(cat: Catalogue, b: Bag, it: Item)
    requires Agree(cat, b) && it.unique in b.tracked && b.tracked[it.unique].data == it.data && 0 < it.unique <= b.lastUid
    requires Real(it)
    ensures Agree(cat, Track(b, it))
  {
    hide Tied, OnePlace, Recorded, Issued, OneStack, Track, Real;
    TrackShown(cat, b, it);
    TrackIssued(b, it);
    RecountStacks(cat, b, it);
  }

  lemma SetEquipKeeps(cat: Catalogue, b: Bag, slot: nat, data: nat, unique: nat)
    requires Agree(cat, b) && unique in b.tracked && b.tracked[unique].data == data && slot !in b.weapons
    requires forall s :: s in b.equip && s != slot ==> b.equip[s].unique != unique
    ensures Agree(cat, SetEquip(b, slot, data, unique))
  {
    hide Tied, OnePlace, Recorded, PlacementOf, Stackable, Real;
    IssuedReal(b, unique);
    SetTied(b, slot, data, unique);
    SetOnePlace(b, slot, data, unique);
    SetRecorded(cat, b, slot, data, unique);
  }

  /** What a slot shows may be replaced exactly when no weapon record and no other slot speaks against it. */
  lemma SetEquipAgrees(cat: Catalogue, b: Bag, slot: nat, data: nat, unique: nat)
    requires Agree(cat, b) && unique in b.tracked && b.tracked[unique].data == data && !PlacementOf(cat, data).isWeapon
    ensures Agree(cat, SetEquip(b, slot, data, unique))
       <==> slot !in b.weapons && forall s :: s in b.equip && s != slot ==> b.equip[s].unique != unique
  {
    hide Tied, OnePlace, Recorded, PlacementOf, Stackable;
    IssuedReal(b, unique);
    SetTied(b, slot, data, unique);
    SetOnePlace(b, slot, data, unique);
    SetRecorded(cat, b, slot, data, unique);
  }

  lemma IssuedReal(b: Bag, unique: nat)
    requires Issued(b) && unique in b.tracked
    ensures 0 < unique <= b.lastUid && b.tracked[unique].data != 0 && b.tracked[unique].unique == unique
  {
    assert Real(b.tracked[unique]);
  }

  lemma SetTied(b: Bag, slot: nat, data: nat, unique: nat)
    requires Tied(b) && unique in b.tracked && b.tracked[unique].data == data && unique != 0 && data != 0
    ensures Tied(SetEquip(b, slot, data, unique))
  {}

  lemma SetOnePlace(b: Bag, slot: nat, data: nat, unique: nat)
    requires OnePlace(b)
    ensures OnePlace(SetEquip(b, slot, data, unique))
       <==> forall s :: s in b.equip && s != slot ==> b.equip[s].unique != unique
  {
    var b' := SetEquip(b, slot, data, unique);
    if s :| s in b.equip && s != slot && b.equip[s].unique == unique {
      assert s in b'.equip && slot in b'.equip && b'.equip[s].unique == b'.equip[slot].unique;
    }
  }

  lemma SetRecorded(cat: Catalogue, b: Bag, slot: nat, data: nat, unique: nat)
    requires Recorded(cat, b)
    ensures slot !in b.weapons ==> Recorded(cat, SetEquip(b, slot, data, unique))
    ensures !PlacementOf(cat, data).isWeapon && slot in b.weapons ==> !Recorded(cat, SetEquip(b, slot, data, unique))
  {
    hide PlacementOf;
  }

  lemma ClearEquipAgrees(cat: Catalogue, b: Bag, slot: nat)
    requires Agree(cat, b) && slot !in b.weapons
    ensures Agree(cat, ClearEquip(b, slot))
  {
    hide PlacementOf, Stackable, Real;
  }

  lemma UntrackAgrees(cat: Catalogue, b: Bag, unique: nat)
    requires Agree(cat, b) && forall s :: s in b.equip ==> b.equip[s].unique != unique
    ensures Agree(cat, Untrack(b, unique))
  {
    hide PlacementOf, Stackable, Real;
  }

  lemma StripShown(cat: Catalogue, b: Bag, unique: nat)
    requires Tied(b) && OnePlace(b) && Recorded(cat, b)
    ensures var b' := Strip(b, unique); Tied(b') && OnePlace(b') && Recorded(cat, b')
    ensures forall s :: s in Strip(b, unique).equip ==> Strip(b, unique).equip[s].unique != unique
  {
    hide PlacementOf;
  }

  lemma StripRest(cat: Catalogue, b: Bag, unique: nat)
    requires Issued(b) && OneStack(cat, b)
    ensures var b' := Strip(b, unique); Issued(b') && OneStack(cat, b') && unique !in b'.tracked
  {
    hide Stackable, Real;
  }

  lemma StripAgrees(cat: Catalogue, b: Bag, unique: nat)
    requires Agree(cat, b)
    ensures Agree(cat, Strip(b, unique)) && unique !in Strip(b, unique).tracked
    ensures forall s :: s in Strip(b, unique).equip ==> Strip(b, unique).equip[s].unique != unique
  {
    hide Tied, OnePlace, Recorded, Issued, OneStack, Strip;
    StripShown(cat, b, unique);
    StripRest(cat, b, unique);
  }

  lemma UnarmAgrees(cat: Catalogue, b: Bag, slot: nat)
    requires Agree(cat, b)
    ensures Agree(cat, Unarm(b, slot)) && slot !in Unarm(b, slot).weapons
    ensures slot in b.weapons ==> b.weapons[slot].unique !in Unarm(b, slot).tracked && slot !in Unarm(b, slot).equip
  {
    hide Tied, OnePlace, Recorded, Issued, OneStack, Strip;
    if slot in b.weapons {
      UnarmIsStrip(cat, b, slot);
      StripAgrees(cat, b, b.weapons[slot].unique);
    }
  }

  /** The weapons map and the equipment list name a gun once, in the same slot. */
  lemma UnarmIsStrip(cat: Catalogue, b: Bag, slot: nat)
    requires OnePlace(b) && Recorded(cat, b) && slot in b.weapons
    ensures Unarm(b, slot) == Strip(b, b.weapons[slot].unique)
  {
    hide PlacementOf;
    var u := b.weapons[slot].unique;
    assert Strip(b, u).equip == b.equip - {slot};
    assert Strip(b, u).weapons == b.weapons - {slot};
  }

  lemma ArmAgrees(cat: Catalogue, b: Bag, slot: nat, data: nat, unique: nat, ammo: nat)
    requires Agree(cat, b) && slot !in b.weapons && PlacementOf(cat, data).isWeapon
    requires unique in b.tracked && b.tracked[unique].data == data
    requires forall s :: s in b.equip && s != slot ==> b.equip[s].unique != unique
    ensures Agree(cat, Arm(b, slot, data, unique, ammo))
  {
    hide Tied, OnePlace, Recorded, OneStack, PlacementOf;
    IssuedReal(b, unique);
    SetTied(b, slot, data, unique);
    SetOnePlace(b, slot, data, unique);
    ArmRecorded(cat, b, slot, data, unique, ammo);
    ArmRest(cat, b, slot, data, unique, ammo);
  }

  lemma ArmRecorded(cat: Catalogue, b: Bag, slot: nat, data: nat, unique: nat, ammo: nat)
    requires Recorded(cat, b) && PlacementOf(cat, data).isWeapon && unique != 0
    ensures Recorded(cat, Arm(b, slot, data, unique, ammo))
  {
    hide PlacementOf;
  }

  lemma ArmRest(cat: Catalogue, b: Bag, slot: nat, data: nat, unique: nat, ammo: nat)
    requires Issued(b) && OneStack(cat, b) && Tied(SetEquip(b, slot, data, unique)) && OnePlace(SetEquip(b, slot, data, unique))
    ensures var b' := Arm(b, slot, data, unique, ammo); Issued(b') && OneStack(cat, b') && Tied(b') && OnePlace(b')
  {
    hide Stackable, Real;
  }

  lemma SlotOfIs(b: Bag, s: nat, unique: nat)
    requires OnePlace(b) && s in b.equip && b.equip[s].unique == unique
    ensures SlotOf(b, unique) == s && Shows(b, unique)
  {}

  lemma SlotOfNone(b: Bag, unique: nat)
    requires forall s :: s in b.equip ==> b.equip[s].unique != unique
    ensures SlotOf(b, unique) == NO_SLOT && !Shows(b, unique)
  {}

  lemma SlotShows(b: Bag, u: nat)
    requires Shows(b, u)
    ensures SlotOf(b, u) in b.equip && b.equip[SlotOf(b, u)].unique == u
  {}
}
