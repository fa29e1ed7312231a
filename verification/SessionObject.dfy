/** The session that owns a loadout: the lists and maps of match-server/loot.go, equip.go, purchase.go,
    gloo.go, durability.go and cssync.go, edited in place. Every handler is proved equal to the deed it
    implements, keeps the belongings in order, and tells the other players enough to follow. */
module SessionObject {
  import opened Items
  import opened GroundLoot
  import opened Loadout
  import opened Deeds
  import opened LoadoutRuns
  import opened Belongings
  import opened EquipLog

  datatype Equipment = Equipment(slot: nat, data: nat, unique: nat)

  // ---------------------------------------------------------------- the equipment list as a map

  ghost predicate OneEntryASlot(equipment: seq<Equipment>) {
    forall i, j :: 0 <= i < j < |equipment| ==> equipment[i].slot != equipment[j].slot
  }

  /** What the list shows in each slot. */
  ghost function Shown(equipment: seq<Equipment>): map<nat, Gear> {
    if |equipment| == 0 then map[]
    else
      var e := equipment[|equipment| - 1];
      Shown(equipment[..|equipment| - 1])[e.slot := Gear(e.data, e.unique)]
  }

  lemma {:induction false} ShownSlots(equipment: seq<Equipment>)
    ensures forall s :: s in Shown(equipment) <==> exists i :: 0 <= i < |equipment| && equipment[i].slot == s
  {
    if |equipment| > 0 {
      var init, e := equipment[..|equipment| - 1], equipment[|equipment| - 1];
      ShownSlots(init);
      forall s ensures s in Shown(equipment) <==> exists i :: 0 <= i < |equipment| && equipment[i].slot == s {
        if s in Shown(init) {
          var i :| 0 <= i < |init| && init[i].slot == s;
          assert equipment[i].slot == s;
        }
      }
    }
  }

  lemma {:induction false} ShownAt(equipment: seq<Equipment>, i: nat)
    requires OneEntryASlot(equipment) && i < |equipment|
    ensures equipment[i].slot in Shown(equipment)
    ensures Shown(equipment)[equipment[i].slot] == Gear(equipment[i].data, equipment[i].unique)
  {
    if i < |equipment| - 1 {
      ShownAt(equipment[..|equipment| - 1], i);
    }
  }

  /** Two lists without repeated slots and with the same entries show the same. */
  lemma ShownBy(equipment: seq<Equipment>, m: map<nat, Gear>)
    requires OneEntryASlot(equipment)
    requires forall s :: s in m <==> exists i :: 0 <= i < |equipment| && equipment[i].slot == s
    requires forall i :: 0 <= i < |equipment| ==>
      equipment[i].slot in m && m[equipment[i].slot] == Gear(equipment[i].data, equipment[i].unique)
    ensures Shown(equipment) == m
  {
    ShownSlots(equipment);
    forall s | s in m ensures s in Shown(equipment) && Shown(equipment)[s] == m[s] {
      var i :| 0 <= i < |equipment| && equipment[i].slot == s;
      ShownAt(equipment, i);
    }
  }

  /** Overwriting an entry. */
  lemma ShownReplaced(equipment: seq<Equipment>, i: nat, e: Equipment)
    requires OneEntryASlot(equipment) && i < |equipment| && equipment[i].slot == e.slot
    ensures OneEntryASlot(equipment[i := e])
    ensures Shown(equipment[i := e]) == Shown(equipment)[e.slot := Gear(e.data, e.unique)]
  {
    var m := Shown(equipment)[e.slot := Gear(e.data, e.unique)];
    var after := equipment[i := e];
    ShownSlots(equipment);
    forall s ensures s in m <==> exists j :: 0 <= j < |after| && after[j].slot == s {
      if s in m && s != e.slot {
        var j :| 0 <= j < |equipment| && equipment[j].slot == s;
        assert after[j].slot == s;
      }
      if j :| 0 <= j < |after| && after[j].slot == s {
        assert equipment[j].slot == s;
      }
      assert after[i].slot == e.slot;
    }
    forall j | 0 <= j < |after|
      ensures after[j].slot in m && m[after[j].slot] == Gear(after[j].data, after[j].unique)
    {
      ShownAt(equipment, j);
    }
    ShownBy(after, m);
  }

  lemma ShownLast(equipment: seq<Equipment>, e: Equipment)
    ensures Shown(equipment + [e]) == Shown(equipment)[e.slot := Gear(e.data, e.unique)]
  {
    assert (equipment + [e])[..|equipment|] == equipment;
  }

  lemma ShownAppended(equipment: seq<Equipment>, e: Equipment)
    requires OneEntryASlot(equipment) && forall i :: 0 <= i < |equipment| ==> equipment[i].slot != e.slot
    ensures OneEntryASlot(equipment + [e])
    ensures Shown(equipment + [e]) == Shown(equipment)[e.slot := Gear(e.data, e.unique)]
  {
    hide Shown;
    ShownLast(equipment, e);
  }

  function Except(equipment: seq<Equipment>, slot: nat): seq<Equipment> {
    if |equipment| == 0 then []
    else
      var rest := Except(equipment[..|equipment| - 1], slot);
      if equipment[|equipment| - 1].slot == slot then rest else rest + [equipment[|equipment| - 1]]
  }

  lemma {:induction false} ExceptMembers(equipment: seq<Equipment>, slot: nat)
    ensures forall e :: e in Except(equipment, slot) ==> e in equipment
  {
    if |equipment| > 0 {
      ExceptMembers(equipment[..|equipment| - 1], slot);
    }
  }

  lemma {:induction false} ShownExcept(equipment: seq<Equipment>, slot: nat)
    requires OneEntryASlot(equipment)
    ensures OneEntryASlot(Except(equipment, slot)) && Shown(Except(equipment, slot)) == Shown(equipment) - {slot}
  {
    hide Shown, OneEntryASlot;
    if |equipment| == 0 {
      ShownNothing();
    } else {
      var init, e := equipment[..|equipment| - 1], equipment[|equipment| - 1];
      InitHasOne(equipment);
      ShownExcept(init, slot);
      assert equipment == init + [e];
      if e.slot != slot {
        ExceptKept(init, e, slot);
      } else {
        ExceptGone(init, e);
      }
    }
  }

  lemma ShownNothing()
    ensures Shown([]) == map[] && OneEntryASlot([])
  {}

  lemma InitHasOne(equipment: seq<Equipment>)
    requires OneEntryASlot(equipment) && |equipment| > 0
    ensures OneEntryASlot(equipment[..|equipment| - 1])
  {}

  lemma ExceptKept(init: seq<Equipment>, e: Equipment, slot: nat)
    requires OneEntryASlot(init + [e]) && e.slot != slot && OneEntryASlot(Except(init, slot))
    requires Shown(Except(init, slot)) == Shown(init) - {slot}
    ensures OneEntryASlot(Except(init, slot) + [e]) && Shown(Except(init, slot) + [e]) == Shown(init + [e]) - {slot}
  {
    hide Shown, Except;
    LastIsNew(init, e, slot);
    ShownAppended(Except(init, slot), e);
    ShownLast(init, e);
    DropElsewhere(Shown(init), slot, e.slot, Gear(e.data, e.unique));
  }

  lemma LastIsNew(init: seq<Equipment>, e: Equipment, slot: nat)
    requires OneEntryASlot(init + [e])
    ensures forall i :: 0 <= i < |Except(init, slot)| ==> Except(init, slot)[i].slot != e.slot
  {
    hide Except;
    ExceptMembers(init, slot);
    var rest := Except(init, slot);
    forall i | 0 <= i < |rest| ensures rest[i].slot != e.slot {
      assert rest[i] in init;
      var j :| 0 <= j < |init| && init[j] == rest[i];
      assert (init + [e])[j] == rest[i] && (init + [e])[|init|] == e;
    }
  }

  lemma ExceptGone(init: seq<Equipment>, e: Equipment)
    requires Shown(Except(init, e.slot)) == Shown(init) - {e.slot}
    ensures Shown(Except(init, e.slot)) == Shown(init + [e]) - {e.slot}
  {
    hide Shown, Except;
    ShownLast(init, e);
    DropHere(Shown(init), e.slot, Gear(e.data, e.unique));
  }

  lemma DropElsewhere(m: map<nat, Gear>, s: nat, t: nat, g: Gear)
    requires s != t
    ensures (m - {s})[t := g] == m[t := g] - {s}
  {}

  lemma DropHere(m: map<nat, Gear>, s: nat, g: Gear)
    ensures m[s := g] - {s} == m - {s}
  {}

  // ---------------------------------------------------------------- what the lookups find

  lemma SlotOfAny(cat: Catalogue, b: Bag, s: nat, unique: nat)
    requires Agree(cat, b) && s in b.equip && b.equip[s].unique == unique
    ensures SlotOf(b, unique) == s && Shows(b, unique)
  {
    hide Tied, Recorded, Issued, OneStack;
    SlotOfIs(b, s, unique);
  }

  /** removeTrackedItem through the weapons map. */
  lemma StripWeapon(cat: Catalogue, b: Bag, slot: nat)
    requires Agree(cat, b) && slot in b.weapons
    ensures var u := b.weapons[slot].unique;
            Strip(b, u) == b.(weapons := b.weapons - {slot}, equip := b.equip - {slot}, tracked := b.tracked - {u},
                              onHand := if b.onHand == u then 0 else b.onHand)
  {
    hide PlacementOf, Stackable, Real;
    var u := b.weapons[slot].unique;
    assert Strip(b, u).equip == b.equip - {slot};
    assert Strip(b, u).weapons == b.weapons - {slot};
  }

  /** removeTrackedItem through the equipment list. */
  lemma StripEquipped(cat: Catalogue, b: Bag, u: nat, slot: nat)
    requires Agree(cat, b) && u != 0 && forall s :: s in b.weapons ==> b.weapons[s].unique != u
    requires slot in b.equip && b.equip[slot].unique == u
    ensures Strip(b, u) == b.(equip := b.equip - {slot}, tracked := b.tracked - {u},
                              onHand := if b.onHand == u then 0 else b.onHand)
  {
    hide PlacementOf, Stackable, Real;
    assert Strip(b, u).equip == b.equip - {slot};
    assert Strip(b, u).weapons == b.weapons;
  }

  lemma StripLoose(b: Bag, u: nat)
    requires forall s :: s in b.weapons ==> b.weapons[s].unique != u
    requires forall s :: s in b.equip ==> b.equip[s].unique != u
    ensures Strip(b, u) == b.(tracked := b.tracked - {u}, onHand := if b.onHand == u then 0 else b.onHand)
  {
    assert Strip(b, u).equip == b.equip;
    assert Strip(b, u).weapons == b.weapons;
  }

  lemma PlaceIs(g: Ground, id: nat, i: nat, unique: nat)
    requires Once(g) && Lies(g, id, i, unique)
    ensures OnGround(g, unique) && Place(g, unique) == (id, i)
  {
    var p := Place(g, unique);
    assert Lies(g, p.0, p.1, unique);
  }

  class Session {
    const shop: Shop
    var equipment: seq<Equipment>
    var weapons: map<nat, Weapon>
    var clientUIDs: map<nat, Item>
    var uidCounter: nat
    var itemOnHand: nat
    var heldBeforeGloo: nat
    var vestDur: nat
    var helmetDur: nat
    var coins: nat
    var mushrooms: nat
    // the boxes belong to the match
    var containers: map<nat, Box>
    var nextContainerID: nat
    ghost var allocs: nat
    ghost var wire: seq<Change>

    ghost function Bag(): Bag
      reads this
    {
      Loadout.Bag.Bag(Shown(equipment), weapons, clientUIDs, uidCounter, itemOnHand, heldBeforeGloo, vestDur, helmetDur)
    }

    ghost function Boxes(): Ground
      reads this
    {
      Ground(containers, nextContainerID, allocs)
    }

    ghost function State(): Kit
      reads this
    {
      Kit(Bag(), Boxes())
    }

    ghost predicate Valid()
      reads this
    {
      Stocked(shop.cat) && OneEntryASlot(equipment) && InOrder(shop.cat, State()) && Follows(wire, Bag())
    }

    constructor (s: Shop, purse: nat)
      requires Stocked(s.cat)
      ensures shop == s && State() == START && wire == [] && Valid() && coins == purse && mushrooms == 0
    {
      shop := s;
      coins, mushrooms := purse, 0;
      equipment := [];
      weapons := map[];
      clientUIDs := map[];
      uidCounter := 0;
      itemOnHand := 0;
      heldBeforeGloo := 0;
      vestDur := 0;
      helmetDur := 0;
      containers := map[];
      nextContainerID := BASE_ID;
      allocs := 0;
      wire := [];
      new;
      StartInOrder(s.cat);
      NothingFollows();
    }

    // -------------------------------------------------------------- the equipment list

    method SetEquip(slot: nat, data: nat, unique: nat)
      requires OneEntryASlot(equipment)
      modifies this`equipment
      ensures OneEntryASlot(equipment) && Shown(equipment) == Shown(old(equipment))[slot := Gear(data, unique)]
    {
      for i := 0 to |equipment|
        invariant equipment == old(equipment)
        invariant forall j :: 0 <= j < i ==> equipment[j].slot != slot
      {
        if equipment[i].slot == slot {
          ShownReplaced(equipment, i, Equipment(slot, data, unique));
          equipment := equipment[i := Equipment(slot, data, unique)];
          return;
        }
      }
      ShownAppended(equipment, Equipment(slot, data, unique));
      equipment := equipment + [Equipment(slot, data, unique)];
    }

    method ClearEquip(slot: nat)
      requires OneEntryASlot(equipment)
      modifies this`equipment
      ensures OneEntryASlot(equipment) && Shown(equipment) == Shown(old(equipment)) - {slot}
    {
      var out := [];
      for i := 0 to |equipment|
        invariant out == Except(equipment[..i], slot)
      {
        assert equipment[..i + 1][..i] == equipment[..i];
        if equipment[i].slot != slot {
          out := out + [equipment[i]];
        }
      }
      assert equipment[..|equipment|] == equipment;
      ShownExcept(equipment, slot);
      equipment := out;
    }

    method EquipSlotOf(unique: nat) returns (slot: nat, data: nat, found: bool)
      requires OneEntryASlot(equipment)
      ensures found ==> slot in Shown(equipment) && Shown(equipment)[slot] == Gear(data, unique)
      ensures !found ==> slot == NO_SLOT && forall s :: s in Shown(equipment) ==> Shown(equipment)[s].unique != unique
    {
      for i := 0 to |equipment|
        invariant forall j :: 0 <= j < i ==> equipment[j].unique != unique
      {
        if equipment[i].unique == unique {
          ShownAt(equipment, i);
          return equipment[i].slot, equipment[i].data, true;
        }
      }
      ShownSlots(equipment);
      forall s | s in Shown(equipment) ensures Shown(equipment)[s].unique != unique {
        var i :| 0 <= i < |equipment| && equipment[i].slot == s;
        ShownAt(equipment, i);
      }
      return NO_SLOT, 0, false;
    }

    /** The fist counts as an empty slot. */
    method EquipAt(slot: nat) returns (unique: nat, data: nat, occupied: bool)
      requires OneEntryASlot(equipment)
      ensures occupied <==> Occupied(Bag(), slot)
      ensures if occupied then Shown(equipment)[slot] == Gear(data, unique) else unique == 0 && data == 0
    {
      for i := 0 to |equipment|
        invariant forall j :: 0 <= j < i ==> equipment[j].slot != slot
      {
        if equipment[i].slot == slot {
          ShownAt(equipment, i);
          if equipment[i].unique == 0 && equipment[i].data == 0 {
            return 0, 0, false;
          }
          return equipment[i].unique, equipment[i].data, true;
        }
      }
      ShownSlots(equipment);
      return 0, 0, false;
    }

    // -------------------------------------------------------------- weapons and tracked items

    method FindLoadoutWeapon(unique: nat) returns (slot: nat, found: bool)
      ensures found ==> slot in weapons && weapons[slot].unique == unique
      ensures !found ==> forall s :: s in weapons ==> weapons[s].unique != unique
    {
      var todo := weapons.Keys;
      while todo != {}
        invariant todo <= weapons.Keys
        invariant forall s :: s in weapons && s !in todo ==> weapons[s].unique != unique
      {
        var s :| s in todo;
        if weapons[s].unique == unique {
          return s, true;
        }
        todo := todo - {s};
      }
      return 0, false;
    }

    method TrackedByData(data: nat, skip: nat) returns (dup: nat)
      requires 0 !in clientUIDs
      ensures IsDup(clientUIDs, data, skip, dup)
    {
      var todo := clientUIDs.Keys;
      while todo != {}
        invariant todo <= clientUIDs.Keys
        invariant forall u :: u in clientUIDs && u !in todo && u != skip ==> clientUIDs[u].data != data
      {
        var u :| u in todo;
        if u != skip && clientUIDs[u].data == data {
          return u;
        }
        todo := todo - {u};
      }
      return 0;
    }

    method IsWeapon(unique: nat) returns (yes: bool)
      ensures yes <==> IsWeaponUID(Bag(), unique)
    {
      if unique == 0 {
        return false;
      }
      var slot, found := FindLoadoutWeapon(unique);
      return found;
    }

    method NextUID() returns (uid: nat)
      modifies this`uidCounter
      ensures uidCounter == old(uidCounter) + 1 && uid == uidCounter
    {
      uidCounter := uidCounter + 1;
      uid := uidCounter;
    }

    method RemoveTrackedItem(unique: nat)
      requires OneEntryASlot(equipment) && Agree(shop.cat, Bag()) && unique != 0
      modifies this`equipment, this`weapons, this`clientUIDs, this`itemOnHand
      ensures OneEntryASlot(equipment) && Bag() == Strip(old(Bag()), unique)
    {
      hide Agree, Strip, Shown;
      var slot, found := FindLoadoutWeapon(unique);
      if found {
        StripWeapon(shop.cat, Bag(), slot);
        weapons := weapons - {slot};
        ClearEquip(slot);
      } else {
        var s, _, equipped := EquipSlotOf(unique);
        if equipped {
          StripEquipped(shop.cat, Bag(), unique, s);
          ClearEquip(s);
        } else {
          StripLoose(Bag(), unique);
        }
      }
      clientUIDs := clientUIDs - {unique};
      if itemOnHand == unique {
        itemOnHand := 0;
      }
    }

    method RemoveLoadoutWeapon(slot: nat) returns (w: Weapon)
      requires OneEntryASlot(equipment) && slot in weapons
      modifies this`equipment, this`weapons, this`clientUIDs, this`itemOnHand
      ensures OneEntryASlot(equipment) && Bag() == Unarm(old(Bag()), slot) && w == old(weapons)[slot]
    {
      hide Shown;
      w := weapons[slot];
      weapons := weapons - {slot};
      ClearEquip(slot);
      clientUIDs := clientUIDs - {w.unique};
      if itemOnHand == w.unique {
        itemOnHand := 0;
      }
    }

    method PickPrimary() returns (slot: nat)
      ensures slot == PickPrimarySlot(Bag())
    {
      if PRIMARY_1 !in weapons {
        return PRIMARY_1;
      }
      if PRIMARY_2 !in weapons {
        return PRIMARY_2;
      }
      for s := PRIMARY_1 to PRIMARY_2 + 1
        invariant s == 1 || s == 2 ==> weapons[PRIMARY_1].unique != itemOnHand
        invariant s == 2 ==> weapons[PRIMARY_2].unique != itemOnHand
      {
        if s in weapons && weapons[s].unique == itemOnHand {
          return s;
        }
      }
      return PRIMARY_1;
    }

    // -------------------------------------------------------------- the ground

    method FindLoot(unique: nat) returns (id: nat, i: nat, found: bool)
      ensures found ==> Lies(Boxes(), id, i, unique)
      ensures !found ==> !OnGround(Boxes(), unique)
    {
      var todo := containers.Keys;
      while todo != {}
        invariant todo <= containers.Keys
        invariant forall c: nat, j: nat :: c !in todo ==> !Lies(Boxes(), c, j, unique)
      {
        var c :| c in todo;
        var items := containers[c].items;
        for j := 0 to |items|
          invariant forall n: nat :: n < j ==> !Lies(Boxes(), c, n, unique)
        {
          if items[j].unique == unique {
            return c, j, true;
          }
        }
        todo := todo - {c};
      }
      return 0, 0, false;
    }

    method RemoveFromContainer(id: nat, unique: nat)
      requires id in containers
      modifies this`containers
      ensures Boxes() == TakeFrom(old(Boxes()), id, unique)
    {
      var items, out := containers[id].items, [];
      for i := 0 to |items|
        invariant out == Without(items[..i], unique)
      {
        assert items[..i + 1][..i] == items[..i];
        if items[i].unique != unique {
          out := out + [items[i]];
        }
      }
      assert items[..|items|] == items;
      containers := containers[id := containers[id].(items := out)];
    }

    /** The nearest box within the merge radius, or 0. */
    method NearestBox(pos: Pos) returns (box: nat)
      requires forall id :: id in containers ==> id != 0
      ensures Merges(Boxes(), pos, box)
    {
      hide Dist2;
      var best := MERGE;
      box := 0;
      var todo := containers.Keys;
      while todo != {}
        invariant todo <= containers.Keys && best <= MERGE
        invariant box == 0 || (box in containers && Dist2(containers[box].pos, pos) == best)
        invariant box == 0 ==> best == MERGE && forall c :: c in containers && c !in todo ==> Dist2(containers[c].pos, pos) > MERGE
        invariant box != 0 ==> forall c :: c in containers && c !in todo ==> best <= Dist2(containers[c].pos, pos)
      {
        var c :| c in todo;
        todo := todo - {c};
        var d := Dist2(containers[c].pos, pos);
        if d <= best {
          best, box := d, c;
        }
      }
    }

    method AllocContainerID() returns (id: nat)
      requires BASE_ID <= nextContainerID <= MAX_ID
      modifies this`nextContainerID, this`allocs
      ensures id == old(nextContainerID) && nextContainerID == NextId(id) && allocs == old(allocs) + 1
    {
      id := nextContainerID;
      var next := (id + 1) % 0x1_0000;
      if next > MAX_ID || next < BASE_ID {
        next := BASE_ID;
      }
      nextContainerID := next;
      allocs := allocs + 1;
    }

    /** The box that the item merged into, or 0 when it opened one. */
    method DropToGround(it: Item, pos: Pos) returns (into: nat)
      requires Keyed(Boxes())
      modifies this`containers, this`nextContainerID, this`allocs
      ensures Merges(old(Boxes()), pos, into) && Boxes() == DropTo(old(Boxes()), it, pos, into)
    {
      hide Merges;
      var box := NearestBox(pos);
      into := box;
      if it.unique == 0 && it.data == 0 {
        return;
      }
      NoBoxZero(Boxes(), pos, box);
      if box == 0 {
        var id := AllocContainerID();
        containers := containers[id := Box(id, pos, [it])];
      } else {
        containers := containers[box := containers[box].(items := containers[box].items + [it])];
      }
    }

    method DeleteBox(id: nat, emptied: bool)
      modifies this`containers
      ensures Boxes() == Close(old(Boxes()), id, emptied)
    {
      if emptied {
        containers := containers - {id};
      }
    }

    // -------------------------------------------------------------- telling the others

    method EquipSnapshot() returns (snap: map<nat, nat>)
      requires OneEntryASlot(equipment)
      ensures Snapped(snap, Shown(equipment))
    {
      snap := map[];
      for i := 0 to |equipment|
        invariant Snapped(snap, Shown(equipment[..i]))
      {
        assert equipment[..i + 1][..i] == equipment[..i];
        snap := snap[equipment[i].slot := equipment[i].unique];
      }
      assert equipment[..|equipment|] == equipment;
    }

    /** The slots that gained or changed an item. */
    method TellShown(snap: map<nat, nat>, ghost before: map<nat, Gear>) returns (seen: set<nat>, ghost order: seq<nat>)
      requires OneEntryASlot(equipment) && Snapped(snap, before)
      modifies this`wire
      ensures wire == old(wire) + Diff(before, Shown(equipment), order)
      ensures forall s :: s in seen <==> s in order
      ensures forall s :: s in seen <==> s in Shown(equipment)
    {
      hide Diff;
      ghost var after := Shown(equipment);
      ShownSlots(equipment);
      DiffNothing(before, after);
      order, seen := [], {};
      for i := 0 to |equipment|
        invariant wire == old(wire) + Diff(before, after, order)
        invariant forall s :: s in seen <==> s in order
        invariant forall j :: 0 <= j < i ==> equipment[j].slot in seen
        invariant forall s :: s in seen ==> s in after
      {
        var e := equipment[i];
        ShownAt(equipment, i);
        var was := if e.slot in snap then snap[e.slot] else 0;
        DiffOneMore(before, after, order, e.slot);
        seen := seen + {e.slot};
        order := order + [e.slot];
        if was != e.unique {
          wire := wire + [Change(e.slot, e.unique)];
        }
      }
    }

    method BroadcastEquipDiff(snap: map<nat, nat>, ghost before: map<nat, Gear>) returns (ghost order: seq<nat>)
      requires OneEntryASlot(equipment) && Snapped(snap, before)
      modifies this`wire
      ensures Covers(order, before, Shown(equipment))
      ensures wire == old(wire) + Diff(before, Shown(equipment), order)
    {
      hide Diff;
      ghost var after := Shown(equipment);
      var seen;
      seen, order := TellShown(snap, before);
      var todo := snap.Keys;
      while todo != {}
        invariant todo <= snap.Keys
        invariant wire == old(wire) + Diff(before, after, order)
        invariant forall s :: s in after ==> s in order
        invariant forall s :: s in snap && s !in todo ==> s in order
      {
        var s :| s in todo;
        todo := todo - {s};
        if s !in seen {
          DiffOneMore(before, after, order, s);
          order := order + [s];
          if snap[s] != 0 {
            wire := wire + [Change(s, 0)];
          }
        }
      }
    }

    // -------------------------------------------------------------- slots

    method SwapWeaponSlots(a: nat, b: nat)
      modifies this`weapons
      ensures weapons == SwapWeapons(old(weapons), a, b)
    {
      var there, here := b in weapons, a in weapons;
      var wa := if here then weapons[a] else Weapon(0, 0, 0, 0);
      var wb := if there then weapons[b] else Weapon(0, 0, 0, 0);
      if there {
        weapons := weapons[a := wb.(slot := a)];
      } else {
        weapons := weapons - {a};
      }
      if here {
        weapons := weapons[b := wa.(slot := b)];
      } else {
        weapons := weapons - {b};
      }
    }

    method MoveWeaponSlot(src: nat, dst: nat)
      modifies this`weapons
      ensures weapons == MoveWeapon(old(weapons), src, dst)
    {
      if src != NO_SLOT && src in weapons {
        var w := weapons[src];
        weapons := weapons - {src};
        weapons := weapons[dst := w.(slot := dst)];
      }
    }

    /** handleEquip carries out whatever is asked; the belongings stay in order exactly when nothing is taken out
        of slot 255. */
    method HandleEquip(dst: nat, unique: nat)
      requires Valid()
      modifies this`equipment, this`weapons, this`wire
      ensures State() == Do(shop, old(State()), Equipping(dst, unique)) && OneEntryASlot(equipment) && Follows(wire, Bag())
      ensures Valid() <==> Guarded(shop.cat, old(Bag()), Equipping(dst, unique))
      ensures wire == old(wire) + EquipChanges(old(Bag()), dst, unique)
    {
      hide InOrder, Follows, Stocked, Agree, Shown, EquipTo, EquipChanges, Guarded;
      ghost var k, d := State(), Equipping(dst, unique);
      BagAgrees(shop.cat, k);
      DeedKeeps(shop, k, d);
      DeedFollows(shop, k, d, [], wire);
      MoveGear(dst, unique);
    }

    /** The list and map edits, and the two changes. */
    method MoveGear(dst: nat, unique: nat)
      requires OneEntryASlot(equipment) && Agree(shop.cat, Bag())
      modifies this`equipment, this`weapons, this`wire
      ensures OneEntryASlot(equipment) && Bag() == EquipTo(old(Bag()), dst, unique)
      ensures wire == old(wire) + EquipChanges(old(Bag()), dst, unique)
    {
      hide SlotOf, Shows, Shown, SwapWeapons, MoveWeapon, Agree, OneEntryASlot;
      ghost var b := Bag();
      Whereabouts(shop.cat, b, unique);
      NoChanges(wire);
      var src, data, equipped := EquipSlotOf(unique);
      if equipped {
        SlotOfAny(shop.cat, b, src, unique);
      } else {
        SlotOfNone(b, unique);
        if unique !in clientUIDs {
          return;
        }
        data := clientUIDs[unique].data;
      }
      if src == dst {
        return;
      }
      assert data == DataOf(b, unique) && Held(b, unique);
      var existUnique, existData, occupied := EquipAt(dst);
      if occupied && src != NO_SLOT {
        SetEquip(src, existData, existUnique);
        SetEquip(dst, data, unique);
        SwapWeaponSlots(src, dst);
      } else {
        if occupied {
          weapons := weapons - {dst};
        }
        if src != NO_SLOT {
          ClearEquip(src);
        }
        SetEquip(dst, data, unique);
        MoveWeaponSlot(src, dst);
      }
      if src != NO_SLOT {
        wire := wire + [Change(src, existUnique)];
      }
      wire := wire + [Change(dst, unique)];
      assert wire == old(wire) + EquipChanges(b, dst, unique);
    }

    // -------------------------------------------------------------- dropping and picking up

    method HandleDrop(unique: nat, pos: Pos) returns (ghost into: nat, ghost order: seq<nat>)
      requires Valid()
      modifies this
      ensures State() == Do(shop, old(State()), Dropping(unique, pos, into)) && Valid()
      ensures Merges(old(Boxes()), pos, into)
      ensures wire == old(wire) + Sent(shop, old(State()), Dropping(unique, pos, into), order)
    {
      hide InOrder, Follows, Stocked, Shown, Agree, Strip, DropTo, Merges, Diff;
      ghost var k := State();
      BagAgrees(shop.cat, k);
      GroundKeyed(shop.cat, k);
      DiffSame(Shown(equipment));
      order := [];
      into := NearestBox(pos);
      ghost var d := Dropping(unique, pos, into);
      if unique == 0 || unique !in clientUIDs {
        DeedKeeps(shop, k, d);
        NoChanges(wire);
        return;
      }
      var it := clientUIDs[unique];
      var before := EquipSnapshot();
      RemoveTrackedItem(unique);
      into := DropToGround(it, pos);
      d := Dropping(unique, pos, into);
      order := BroadcastEquipDiff(before, Shown(old(equipment)));
      DeedKeeps(shop, k, d);
      DeedFollows(shop, k, d, order, old(wire));
    }

    /** The picked gun takes its slot; a gun that held it is returned. */
    method InstallGun(it: Item, mounts: nat) returns (displaced: seq<Item>)
      requires OneEntryASlot(equipment) && WeaponAmmo(it.data) != 0
      requires forall s :: s in weapons ==> weapons[s].unique != it.unique
      modifies this`equipment, this`weapons, this`clientUIDs, this`itemOnHand, this`uidCounter
      ensures OneEntryASlot(equipment) && Bag() == TakeGun(old(Bag()), it, mounts)
      ensures var slot := LootSlot(old(Bag()), it.data);
              displaced == if slot in old(weapons) then [Loot(shop, old(weapons)[slot])] else []
    {
      hide Shown, WeaponAmmo, PickPrimarySlot;
      var slot := SECONDARY;
      if WeaponAmmo(it.data) != PISTOL_AMMO {
        slot := PickPrimary();
      }
      displaced := [];
      if slot in weapons && weapons[slot].unique != it.unique {
        var w := RemoveLoadoutWeapon(slot);
        displaced := [Loot(shop, w)];
      }
      weapons := weapons[slot := Weapon(slot, it.data, it.unique, WeaponAmmo(it.data))];
      SetEquip(slot, it.data, it.unique);
      clientUIDs := clientUIDs[it.unique := it];
      itemOnHand := it.unique;
      uidCounter := uidCounter + mounts;
    }

    /** A stack of the same data is folded into the picked one. */
    method InstallStack(it: Item) returns (ghost dup: nat)
      requires OneEntryASlot(equipment) && Agree(shop.cat, Bag()) && it.unique !in clientUIDs
      modifies this`equipment, this`weapons, this`clientUIDs, this`itemOnHand
      ensures OneEntryASlot(equipment) && Bag() == TakeStack(old(Bag()), it, dup)
      ensures IsDup(old(clientUIDs), it.data, it.unique, dup)
    {
      hide Shown, Agree, Strip, SlotOf, Shows;
      ghost var b := Bag();
      NoZeroTracked(shop.cat, b);
      var u := TrackedByData(it.data, it.unique);
      dup := u;
      var count := it.count;
      if u != 0 {
        count := count + clientUIDs[u].count;
        var slot, _, had := EquipSlotOf(u);
        if had {
          SlotOfAny(shop.cat, b, slot, u);
        } else {
          SlotOfNone(b, u);
        }
        var wasHeld := itemOnHand == u;
        RemoveTrackedItem(u);
        if had {
          SetEquip(slot, it.data, it.unique);
        }
        if wasHeld {
          itemOnHand := it.unique;
        }
      }
      clientUIDs := clientUIDs[it.unique := it.(count := count)];
    }

    method HandlePickup(unique: nat, mounts: nat, pos: Pos)
      returns (ghost dup: nat, ghost into: nat, ghost order: seq<nat>)
      requires Valid()
      modifies this
      ensures State() == Do(shop, old(State()), PickingUp(unique, mounts, dup, pos, into)) && Valid()
      ensures Allowed(shop, old(State()), PickingUp(unique, mounts, dup, pos, into))
      ensures wire == old(wire) + Sent(shop, old(State()), PickingUp(unique, mounts, dup, pos, into), order)
    {
      hide InOrder, Follows, Stocked, Shown, Agree, Merges, Diff, IsDup, Pickup, Once, Keyed, OnGround, Place;
      ghost var k := State();
      BagAgrees(shop.cat, k);
      GroundKeyed(shop.cat, k);
      DiffSame(Shown(equipment));
      dup, order := 0, [];
      into := NearestBox(pos);
      var id, i, found := FindLoot(unique);
      if !found {
        NothingPicked(shop, k, unique, mounts, dup, pos, into);
        return;
      }
      PlaceIs(Boxes(), id, i, unique);
      PickedFacts(shop, k, unique, pos);
      var before := EquipSnapshot();
      dup, into := TakeLoot(id, i, unique, mounts, pos);
      order := BroadcastEquipDiff(before, Shown(old(equipment)));
      ghost var d := PickingUp(unique, mounts, dup, pos, into);
      DeedKeeps(shop, k, d);
      DeedFollows(shop, k, d, order, old(wire));
    }

    /** The item leaves its box and is installed; a gun that it forces out falls. */
    method TakeLoot(id: nat, i: nat, unique: nat, mounts: nat, pos: Pos) returns (ghost dup: nat, ghost into: nat)
      requires OneEntryASlot(equipment) && Agree(shop.cat, Bag()) && Keyed(Boxes()) && Once(Boxes())
      requires Lies(Boxes(), id, i, unique) && unique !in clientUIDs
      requires forall s :: s in weapons ==> weapons[s].unique != unique
      modifies this
      ensures OneEntryASlot(equipment) && wire == old(wire) && OnGround(old(Boxes()), unique)
      ensures State() == Pickup(shop, old(State()), unique, mounts, dup, pos, into)
      ensures IsDup(old(clientUIDs), ItemOn(old(Boxes()), unique).data, unique, dup) && Merges(old(Boxes()), pos, into)
    {
      hide Stocked, Shown, Agree, TakeGun, TakeStack, DropTo, Merges, Place, Without, Close, OneEntryASlot,
           WeaponAmmo, LootSlot, IsDup, Once, Keyed, OnGround, Loot;
      ghost var k := State();
      PlaceIs(Boxes(), id, i, unique);
      NoZeroTracked(shop.cat, k.bag);
      NoBoxIsZero(Boxes());
      into := NearestBox(pos);
      var it := containers[id].items[i];
      RemoveFromContainer(id, unique);
      // the handler keeps a pointer to this box: what it holds is what is left here, and what falls into it
      var emptied := |containers[id].items| == 0;
      if WeaponAmmo(it.data) != 0 {
        dup := AnyDup(k.bag.tracked, it.data, unique);
        var displaced := InstallGun(it, mounts);
        if |displaced| > 0 {
          TakenKeyed(k.ground, id, unique);
          var box := DropToGround(displaced[0], pos);
          SameMerges(k.ground, id, unique, pos, box);
          into := box;
          if box == id {
            emptied := false;
          }
        }
      } else {
        dup := InstallStack(it);
      }
      DeleteBox(id, emptied);
    }

    // -------------------------------------------------------------- buying

    /** The gun and its ammunition become tracked items. */
    method SupplyGun(data: nat, place: Placement, mounts: nat) returns (uid: nat)
      modifies this`clientUIDs, this`uidCounter
      ensures Bag() == Supplied(shop, old(Bag()), data, place, mounts) && uid == old(uidCounter) + 1
    {
      hide Shown, AmmoReserve;
      uid := NextUID();
      clientUIDs := clientUIDs[uid := Item(uid, data, 1, shop.mag(data))];
      if place.ammo != 0 {
        var spare := NextUID();
        clientUIDs := clientUIDs[spare := Item(spare, place.ammo, AmmoReserve(place.ammo), 0)];
      }
      uidCounter := uidCounter + mounts;
    }

    method BuyWeapon(data: nat, mounts: nat) returns (displaced: seq<Item>)
      requires OneEntryASlot(equipment)
      modifies this`equipment, this`weapons, this`clientUIDs, this`itemOnHand, this`uidCounter
      ensures OneEntryASlot(equipment) && Bag() == BuyGun(shop, old(Bag()), data, mounts)
      ensures var slot := BoughtSlot(old(Bag()), PlacementOf(shop.cat, data));
              displaced == if slot in old(weapons) then [Loot(shop, old(weapons)[slot])] else []
    {
      hide Shown, PlacementOf, PickPrimarySlot, Supplied;
      var place := PlacementOf(shop.cat, data);
      var slot := place.slot;
      if place.isPrimary {
        slot := PickPrimary();
      }
      SuppliedFrame(shop, Bag(), data, place, mounts);
      var uid := SupplyGun(data, place, mounts);
      displaced := [];
      if slot in weapons {
        displaced := [Loot(shop, weapons[slot])];
        clientUIDs := clientUIDs - {weapons[slot].unique};
      }
      itemOnHand := uid;
      weapons := weapons[slot := Weapon(slot, data, uid, place.ammo)];
      SetEquip(slot, data, uid);
    }

    method BuyPlain(data: nat, qty: nat) returns (ghost dup: nat)
      requires OneEntryASlot(equipment) && Agree(shop.cat, Bag())
      modifies this`equipment, this`clientUIDs, this`uidCounter
      ensures OneEntryASlot(equipment) && Bag() == StackUp(shop, old(Bag()), data, qty, dup)
      ensures IsDup(old(clientUIDs), data, 0, dup)
    {
      hide Shown, Agree, PlacementOf, MaxDur;
      ghost var b := Bag();
      NoZeroTracked(shop.cat, b);
      var place := PlacementOf(shop.cat, data);
      var uid := NextUID();
      var u := TrackedByData(data, 0);
      dup := u;
      if u != 0 && !place.isArmor {
        TrackedHere(shop.cat, b, u);
        clientUIDs := clientUIDs[u := clientUIDs[u].(count := clientUIDs[u].count + qty)];
        uid := u;
      } else {
        clientUIDs := clientUIDs[uid := Item(uid, data, qty, if place.isArmor then MaxDur(data) else 0)];
      }
      if place.slot != NO_SLOT {
        SetEquip(place.slot, data, uid);
      }
    }

    method EquipArmor(data: nat)
      modifies this`vestDur, this`helmetDur
      ensures Bag() == Seeded(old(Bag()), data)
    {
      if ArmorSlot(data) == VEST {
        vestDur := MaxDur(data);
      } else if ArmorSlot(data) == HELMET {
        helmetDur := MaxDur(data);
      }
    }

    /** handleCSPurchase: a purchase that is denied or unknown changes nothing; one that is paid for takes the
        cost and is delivered. The mushroom is delivered as energy. */
    method HandlePurchase(data: nat, qty: nat, mounts: nat, pos: Pos)
      returns (paid: bool, ghost dup: nat, ghost into: nat, ghost order: seq<nat>)
      requires Valid()
      modifies this
      ensures paid == Payable(shop, old(coins), old(mushrooms), data, qty)
      ensures coins == if paid then old(coins) - Cost(shop, data, qty) else old(coins)
      ensures mushrooms == if paid && data == MUSHROOM then old(mushrooms) + 1 else old(mushrooms)
      ensures OneEntryASlot(equipment) && Follows(wire, Bag())
      ensures paid ==>
        && State() == Do(shop, old(State()), Buying(data, qty, mounts, dup, pos, into))
        && Possible(old(State()), Buying(data, qty, mounts, dup, pos, into))
        && wire == old(wire) + Sent(shop, old(State()), Buying(data, qty, mounts, dup, pos, into), order)
        && (Valid() <==> Guarded(shop.cat, old(Bag()), Buying(data, qty, mounts, dup, pos, into)))
      ensures !paid ==> State() == old(State()) && wire == old(wire) && Valid()
    {
      hide InOrder, Stocked, Agree, Follows, Shown, Guarded, Possible, Do, Sent;
      dup, into, order := 0, 0, [];
      if data !in shop.cat {
        return false, dup, into, order;
      }
      var price := shop.price(data) * (if qty == 0 then 1 else qty) % 0x1_0000_0000;
      if data == MUSHROOM && mushrooms >= MUSHROOMS_PER_ROUND {
        return false, dup, into, order;
      }
      if coins < price {
        return false, dup, into, order;
      }
      coins := coins - price;
      paid := true;
      if data == MUSHROOM {
        mushrooms := mushrooms + 1;
      }
      dup, into, order := Deliver(data, qty, mounts, pos);
    }

    /** The purchase of a player who has paid. */
    method Deliver(data: nat, qty: nat, mounts: nat, pos: Pos)
      returns (ghost dup: nat, ghost into: nat, ghost order: seq<nat>)
      requires Valid()
      modifies this`equipment, this`weapons, this`clientUIDs, this`itemOnHand, this`uidCounter, this`vestDur, this`helmetDur
      modifies this`containers, this`nextContainerID, this`allocs, this`wire
      ensures State() == Do(shop, old(State()), Buying(data, qty, mounts, dup, pos, into)) && OneEntryASlot(equipment)
      ensures Follows(wire, Bag()) && Possible(old(State()), Buying(data, qty, mounts, dup, pos, into))
      ensures Valid() <==> Guarded(shop.cat, old(Bag()), Buying(data, qty, mounts, dup, pos, into))
      ensures wire == old(wire) + Sent(shop, old(State()), Buying(data, qty, mounts, dup, pos, into), order)
    {
      hide InOrder, Follows, Stocked, Shown, Agree, BuyGun, BuyStack, DropTo, Merges, Diff, Seeded, PlacementOf, IsDup,
           Keyed, BoughtSlot, Loot, Guarded, Buy, Displace, OneEntryASlot;
      ghost var k := State();
      BagAgrees(shop.cat, k);
      GroundKeyed(shop.cat, k);
      DiffSame(Shown(equipment));
      NoZeroTracked(shop.cat, k.bag);
      order := [];
      into := NearestBox(pos);
      dup := AnyDup(k.bag.tracked, data, 0);
      if data !in shop.cat || data == MUSHROOM {
        NothingBought(shop, k, data, qty, mounts, dup, pos, into);
        return;
      }
      var before := EquipSnapshot();
      var displaced;
      displaced, dup := Furnish(data, if qty == 0 then 1 else qty, mounts);
      order := BroadcastEquipDiff(before, Shown(old(equipment)));
      if |displaced| > 0 {
        into := DropToGround(displaced[0], pos);
      }
      ghost var d := Buying(data, qty, mounts, dup, pos, into);
      BoughtIs(shop, k, data, qty, mounts, dup, pos, into);
      DeedKeeps(shop, k, d);
      DeedFollows(shop, k, d, order, old(wire));
    }

    /** The bought item joins the loadout; a gun that it forces out is returned. */
    method Furnish(data: nat, qty: nat, mounts: nat) returns (displaced: seq<Item>, ghost dup: nat)
      requires OneEntryASlot(equipment) && Agree(shop.cat, Bag())
      modifies this`equipment, this`weapons, this`clientUIDs, this`itemOnHand, this`uidCounter, this`vestDur, this`helmetDur
      ensures OneEntryASlot(equipment) && IsDup(old(clientUIDs), data, 0, dup)
      ensures var gun, slot := PlacementOf(shop.cat, data).isWeapon, BoughtSlot(old(Bag()), PlacementOf(shop.cat, data));
              && Bag() == (if gun then Seeded(BuyGun(shop, old(Bag()), data, mounts), data)
                           else BuyStack(shop, old(Bag()), data, qty, dup))
              && displaced == if gun && slot in old(weapons) then [Loot(shop, old(weapons)[slot])] else []
    {
      hide Shown, Agree, OneEntryASlot, BuyGun, StackUp, Seeded, PlacementOf, IsDup, BoughtSlot, Loot;
      NoZeroTracked(shop.cat, Bag());
      displaced := [];
      dup := AnyDup(clientUIDs, data, 0);
      if PlacementOf(shop.cat, data).isWeapon {
        displaced := BuyWeapon(data, mounts);
      } else {
        dup := BuyPlain(data, qty);
      }
      EquipArmor(data);
    }

    // -------------------------------------------------------------- wear, walls, resets

    /** wearArmor on a piece that took the hit, with what is left of it. */
    method WearArmor(slot: nat, left: nat)
      requires Valid() && (slot == VEST || slot == HELMET) && left < DurOf(Bag(), slot)
      modifies this`equipment, this`clientUIDs, this`uidCounter, this`vestDur, this`helmetDur
      ensures State() == Do(shop, old(State()), Wearing(slot, left)) && OneEntryASlot(equipment) && Follows(wire, Bag())
      ensures Valid() <==> Guarded(shop.cat, old(Bag()), Wearing(slot, left))
    {
      hide InOrder, Follows, Stocked, Agree, Wear, Bag, Guarded;
      ghost var k, d := State(), Wearing(slot, left);
      BagAgrees(shop.cat, k);
      DeedKeeps(shop, k, d);
      DeedFollows(shop, k, d, [], wire);
      NoChanges(wire);
      SyncArmor(slot, left);
    }

    /** The worn piece is remade or removed. */
    method SyncArmor(slot: nat, left: nat)
      requires OneEntryASlot(equipment) && (slot == VEST || slot == HELMET) && left < DurOf(Bag(), slot)
      modifies this`equipment, this`clientUIDs, this`uidCounter, this`vestDur, this`helmetDur
      ensures OneEntryASlot(equipment) && Bag() == Wear(old(Bag()), slot, left)
    {
      hide Shown, OneEntryASlot;
      if slot == VEST {
        vestDur := left;
      } else {
        helmetDur := left;
      }
      var was, data, worn := EquipAt(slot);
      if !worn {
        return;
      }
      if left == 0 {
        ClearEquip(slot);
        clientUIDs := clientUIDs - {was};
        return;
      }
      var uid := NextUID();
      clientUIDs := clientUIDs - {was};
      clientUIDs := clientUIDs[uid := Item(uid, data, 1, left)];
      SetEquip(slot, data, uid);
    }

    method GlooCount() returns (u: nat, ghost dup: nat)
      requires OneEntryASlot(equipment) && 0 !in clientUIDs
      ensures IsDup(clientUIDs, GLOO, 0, dup) && u == GlooStack(Bag(), dup)
    {
      ShownSlots(equipment);
      var d := TrackedByData(GLOO, 0);
      dup := d;
      for i := 0 to |equipment|
        invariant forall j :: 0 <= j < i && equipment[j].slot == BUILDING ==>
                    !(equipment[j].unique in clientUIDs && clientUIDs[equipment[j].unique].data == GLOO)
      {
        if equipment[i].slot == BUILDING {
          ShownAt(equipment, i);
          if equipment[i].unique in clientUIDs && clientUIDs[equipment[i].unique].data == GLOO {
            return equipment[i].unique, d;
          }
        }
      }
      if BUILDING in Shown(equipment) {
        ghost var i :| 0 <= i < |equipment| && equipment[i].slot == BUILDING;
        ShownAt(equipment, i);
      }
      return d, d;
    }

    method BestWeapon() returns (unique: nat)
      ensures unique == BestWeaponUID(Bag())
    {
      if PRIMARY_1 in weapons && weapons[PRIMARY_1].unique != 0 {
        return weapons[PRIMARY_1].unique;
      }
      if PRIMARY_2 in weapons && weapons[PRIMARY_2].unique != 0 {
        return weapons[PRIMARY_2].unique;
      }
      if SECONDARY in weapons && weapons[SECONDARY].unique != 0 {
        return weapons[SECONDARY].unique;
      }
      return 0;
    }

    /** The inventory part of handlePlaceIcewall. */
    method PlaceIcewall(unlimited: bool) returns (ghost dup: nat)
      requires Valid()
      modifies this`equipment, this`clientUIDs, this`itemOnHand, this`heldBeforeGloo
      ensures State() == Do(shop, old(State()), Walling(dup, unlimited)) && OneEntryASlot(equipment) && Follows(wire, Bag())
      ensures Valid() <==> Guarded(shop.cat, old(Bag()), Walling(dup, unlimited))
    {
      hide Guarded, InOrder, Follows, Stocked, Shown, Agree, GlooStack, PlaceWall, IsDup;
      ghost var k := State();
      BagAgrees(shop.cat, k);
      NoZeroTracked(shop.cat, k.bag);
      NoChanges(wire);
      var u;
      u, dup := GlooCount();
      DeedKeeps(shop, k, Walling(dup, unlimited));
      DeedFollows(shop, k, Walling(dup, unlimited), [], wire);
      if u in clientUIDs {
        TrackedHere(shop.cat, k.bag, u);
      }
      SpendWall(u, dup, unlimited);
    }

    /** consumeGloo: one wall less, and with the last one the hand goes to a gun. */
    method SpendWall(u: nat, ghost dup: nat, unlimited: bool)
      requires OneEntryASlot(equipment) && u == GlooStack(Bag(), dup)
      requires u in clientUIDs ==> clientUIDs[u].unique == u
      modifies this`equipment, this`clientUIDs, this`itemOnHand, this`heldBeforeGloo
      ensures OneEntryASlot(equipment) && Bag() == PlaceWall(old(Bag()), dup, unlimited)
    {
      hide Shown, OneEntryASlot, GlooStack, IsWeaponUID, BestWeaponUID;
      if u !in clientUIDs || clientUIDs[u].count == 0 || unlimited {
        return;
      }
      var left := clientUIDs[u].count - 1;
      if left > 0 {
        clientUIDs := clientUIDs[u := clientUIDs[u].(count := left)];
        return;
      }
      var target := heldBeforeGloo;
      var gun := IsWeapon(target);
      if !gun {
        target := BestWeapon();
      }
      clientUIDs := clientUIDs - {u};
      ClearEquip(BUILDING);
      if target != 0 {
        itemOnHand := target;
      }
      heldBeforeGloo := 0;
    }

    method ClearBag() returns (usp: nat)
      modifies this`equipment, this`weapons, this`clientUIDs, this`uidCounter, this`itemOnHand, this`vestDur, this`helmetDur
      ensures equipment == [Equipment(MELEE, 0, 0)] && Bag() == Bare(old(Bag())) && usp == old(uidCounter) + 1
    {
      hide Shown;
      usp := NextUID();
      var kit := NextUID();
      StartingList(usp);
      equipment := [Equipment(MELEE, 0, 0)];
      weapons := map[];
      clientUIDs := map[kit := Item(kit, MEDKIT, 2, 2)];
      itemOnHand := 0;
      vestDur := 0;
      helmetDur := 0;
    }

    method AddStarter(usp: nat, mounts: nat)
      requires equipment == [Equipment(MELEE, 0, 0)]
      modifies this`equipment, this`weapons, this`clientUIDs, this`uidCounter, this`itemOnHand
      ensures OneEntryASlot(equipment) && Bag() == Starter(shop, old(Bag()), usp, mounts)
    {
      hide AmmoReserve, Shown;
      StartingList(usp);
      equipment := equipment + [Equipment(SECONDARY, USP, usp)];
      weapons := weapons[SECONDARY := Weapon(SECONDARY, USP, usp, PISTOL_AMMO)];
      clientUIDs := clientUIDs[usp := Item(usp, USP, 1, shop.mag(USP))];
      itemOnHand := usp;
      uidCounter := uidCounter + mounts;
      var spare := NextUID();
      clientUIDs := clientUIDs[spare := Item(spare, PISTOL_AMMO, AmmoReserve(PISTOL_AMMO), 0)];
    }

    /** giveLoadout without the development switches and the coins. */
    method GiveLoadout(noLoadout: bool, mounts: nat) returns (ghost order: seq<nat>)
      requires Valid()
      modifies this
      ensures State() == Do(shop, old(State()), Resetting(noLoadout, mounts)) && Valid()
      ensures wire == old(wire) + Sent(shop, old(State()), Resetting(noLoadout, mounts), order)
    {
      hide InOrder, Follows, Stocked, Agree, Diff, Bare, Starter, Shown, Buy, Pickup, Deeds.Drop, EquipTo, Wear, PlaceWall,
           Refill, Hold, Use;
      ghost var k := State();
      BagAgrees(shop.cat, k);
      var before := EquipSnapshot();
      containers := map[];
      var usp := ClearBag();
      if !noLoadout {
        AddStarter(usp, mounts);
      }
      order := BroadcastEquipDiff(before, Shown(old(equipment)));
      DeedKeeps(shop, k, Resetting(noLoadout, mounts));
      DeedFollows(shop, k, Resetting(noLoadout, mounts), order, old(wire));
    }

    /** reissueLoadout: the magazines and reserves are only re-sent; the medkits are two again. */
    method ReissueLoadout() returns (ghost dup: nat)
      requires Valid()
      modifies this`clientUIDs, this`uidCounter
      ensures State() == Do(shop, old(State()), Refilling(dup)) && Valid()
    {
      hide InOrder, Follows, Stocked, Shown, Agree, IsDup;
      ghost var k := State();
      BagAgrees(shop.cat, k);
      NoZeroTracked(shop.cat, k.bag);
      NoChanges(wire);
      var u := TrackedByData(MEDKIT, 0);
      dup := u;
      DupIsTracked(clientUIDs, MEDKIT, u);
      DeedKeeps(shop, k, Refilling(dup));
      DeedFollows(shop, k, Refilling(dup), [], wire);
      if u == 0 {
        u := NextUID();
      }
      clientUIDs := clientUIDs[u := Item(u, MEDKIT, 2, 2)];
    }

    method ChangeHeldItem(unique: nat)
      requires Valid()
      modifies this`itemOnHand, this`heldBeforeGloo
      ensures State() == Do(shop, old(State()), Holding(unique)) && Valid()
    {
      hide InOrder, Follows, Stocked, Shown, Agree, IsWeaponUID;
      ghost var k := State();
      BagAgrees(shop.cat, k);
      NoChanges(wire);
      DeedKeeps(shop, k, Holding(unique));
      DeedFollows(shop, k, Holding(unique), [], wire);
      var gun := IsWeapon(itemOnHand);
      if unique in clientUIDs && clientUIDs[unique].data == GLOO && gun {
        heldBeforeGloo := itemOnHand;
      }
      itemOnHand := unique;
    }

    /** The counting part of handleUseInventory. */
    method UseInventory(unique: nat)
      requires Valid()
      modifies this`clientUIDs
      ensures State() == Do(shop, old(State()), Using(unique)) && Valid()
    {
      hide InOrder, Follows, Stocked, Shown, Agree, IsWeaponUID, WeaponAmmo;
      ghost var k := State();
      BagAgrees(shop.cat, k);
      NoChanges(wire);
      DeedKeeps(shop, k, Using(unique));
      DeedFollows(shop, k, Using(unique), [], wire);
      if unique in clientUIDs {
        TrackedHere(shop.cat, k.bag, unique);
        var it := clientUIDs[unique];
        if it.count > 0 {
          clientUIDs := clientUIDs[unique := it.(count := it.count - 1)];
        }
      }
    }
  }

  /** A snapshot has the unique of every slot. */
  ghost predicate Snapped(snap: map<nat, nat>, shown: map<nat, Gear>) {
    (forall s :: s in snap <==> s in shown) && forall s :: s in snap ==> snap[s] == shown[s].unique
  }

  lemma DiffOneMore(before: map<nat, Gear>, after: map<nat, Gear>, order: seq<nat>, s: nat)
    ensures Diff(before, after, order + [s])
         == Diff(before, after, order)
          + if UniqueAt(before, s) != UniqueAt(after, s) then [Change(s, UniqueAt(after, s))] else []
  {
    assert (order + [s])[..|order|] == order;
  }

  lemma DiffNothing(before: map<nat, Gear>, after: map<nat, Gear>)
    ensures Diff(before, after, []) == []
  {}

  lemma DiffSame(equip: map<nat, Gear>)
    ensures forall order :: Diff(equip, equip, order) == []
  {
    forall order ensures Diff(equip, equip, order) == [] {
      DiffSameIn(equip, order);
    }
  }

  lemma {:induction false} DiffSameIn(equip: map<nat, Gear>, order: seq<nat>)
    ensures Diff(equip, equip, order) == []
  {
    if |order| > 0 {
      DiffSameIn(equip, order[..|order| - 1]);
    }
  }

  lemma NoChanges(wire: seq<Change>)
    ensures wire + [] == wire
  {}

  lemma GroundKeyed(cat: Catalogue, k: Kit)
    requires InOrder(cat, k)
    ensures Keyed(k.ground) && Once(k.ground) && forall id :: id in k.ground.boxes ==> id != 0
  {}

  lemma NoBoxIsZero(g: Ground)
    requires Keyed(g)
    ensures forall id :: id in g.boxes ==> id != 0
  {}

  lemma NothingBought(shop: Shop, k: Kit, data: nat, qty: nat, mounts: nat, dup: nat, pos: Pos, into: nat)
    requires data !in shop.cat || data == MUSHROOM
    ensures Buy(shop, k, data, qty, mounts, dup, pos, into) == k
    ensures Guarded(shop.cat, k.bag, Buying(data, qty, mounts, dup, pos, into))
  {}

  lemma BoughtIs(shop: Shop, k: Kit, data: nat, qty: nat, mounts: nat, dup: nat, pos: Pos, into: nat)
    requires data in shop.cat && data != MUSHROOM
    ensures var gun, slot := PlacementOf(shop.cat, data).isWeapon, BoughtSlot(k.bag, PlacementOf(shop.cat, data));
            Buy(shop, k, data, qty, mounts, dup, pos, into)
            == Kit(if gun then Seeded(BuyGun(shop, k.bag, data, mounts), data)
                   else BuyStack(shop, k.bag, data, if qty == 0 then 1 else qty, dup),
                   if gun && slot in k.bag.weapons then DropTo(k.ground, Loot(shop, k.bag.weapons[slot]), pos, into)
                   else k.ground)
  {}

  lemma NothingPicked(shop: Shop, k: Kit, unique: nat, mounts: nat, dup: nat, pos: Pos, into: nat)
    requires !OnGround(k.ground, unique)
    ensures Pickup(shop, k, unique, mounts, dup, pos, into) == k
  {}

  /** What a picked item is. */
  lemma PickedFacts(shop: Shop, k: Kit, unique: nat, pos: Pos)
    requires InOrder(shop.cat, k) && OnGround(k.ground, unique)
    ensures unique !in k.bag.tracked && ItemOn(k.ground, unique).unique == unique
    ensures forall s :: s in k.bag.weapons ==> k.bag.weapons[s].unique != unique
    ensures 0 !in k.bag.tracked
  {
    hide Orderly, Real, Place, OnGround, OnePlace, OneStack, Issued, PlacementOf;
    PickedIs(k, unique);
    NoZeroTracked(shop.cat, k.bag);
  }

  /** Taking an item moves no box. */
  lemma SameMerges(g: Ground, id: nat, unique: nat, pos: Pos, into: nat)
    requires id in g.boxes && Merges(TakeFrom(g, id, unique), pos, into)
    ensures Merges(g, pos, into)
  {
    hide Without, Dist2;
    var g' := TakeFrom(g, id, unique);
    assert forall a :: a in g.boxes <==> a in g'.boxes;
    assert forall a :: a in g.boxes ==> g'.boxes[a].pos == g.boxes[a].pos;
  }

  lemma TakenKeyed(g: Ground, id: nat, unique: nat)
    requires Keyed(g) && id in g.boxes
    ensures Keyed(TakeFrom(g, id, unique))
  {
    hide Without;
  }

  lemma AnyDup(tracked: map<nat, Item>, data: nat, skip: nat) returns (dup: nat)
    requires 0 !in tracked
    ensures IsDup(tracked, data, skip, dup)
  {
    if u :| u in tracked && u != skip && tracked[u].data == data {
      dup := u;
    } else {
      dup := 0;
    }
  }

  lemma DupIsTracked(tracked: map<nat, Item>, data: nat, dup: nat)
    requires IsDup(tracked, data, 0, dup) && 0 !in tracked
    ensures dup in tracked <==> dup != 0
  {}

  lemma StartingList(usp: nat)
    ensures var fist, gun := Equipment(MELEE, 0, 0), Equipment(SECONDARY, USP, usp);
            && Shown([fist]) == map[MELEE := FIST]
            && Shown([fist] + [gun]) == map[MELEE := FIST][SECONDARY := Gear(USP, usp)]
  {
    var fist, gun := Equipment(MELEE, 0, 0), Equipment(SECONDARY, USP, usp);
    assert [fist][..0] == [];
    assert ([fist] + [gun])[..1] == [fist];
  }

  lemma NoBoxZero(g: Ground, pos: Pos, box: nat)
    requires Keyed(g) && Merges(g, pos, box)
    ensures box == 0 <==> box !in g.boxes
    ensures BASE_ID <= g.next <= MAX_ID
  {}
}
