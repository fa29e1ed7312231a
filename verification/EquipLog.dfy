/** What the other players are told about a loadout: the cmd-121 changes of match-server/equip.go, each of
    which sets one slot of the view an observer has, and how far that view follows the server. */
module EquipLog {
  import opened Items
  import opened GroundLoot
  import opened Loadout
  import opened Deeds
  import opened LoadoutRuns
  import opened Belongings

  /** A slot and the unique that comes in; 0 empties the slot. */
  datatype Change = Change(slot: nat, unique: nat)

  function UniqueAt(equip: map<nat, Gear>, slot: nat): nat {
    if slot in equip then equip[slot].unique else 0
  }

  /** What an observer shows in a slot: the last change sets it. */
  function View(wire: seq<Change>, slot: nat): nat {
    if |wire| == 0 then 0
    else if wire[|wire| - 1].slot == slot then wire[|wire| - 1].unique
    else View(wire[..|wire| - 1], slot)
  }

  /** broadcastEquipDiff: the equipment list first, then the slots of the snapshot in any order. */
  function Diff(before: map<nat, Gear>, after: map<nat, Gear>, order: seq<nat>): seq<Change> {
    if |order| == 0 then []
    else
      var s := order[|order| - 1];
      Diff(before, after, order[..|order| - 1])
      + if UniqueAt(before, s) != UniqueAt(after, s) then [Change(s, UniqueAt(after, s))] else []
  }

  ghost predicate Covers(order: seq<nat>, before: map<nat, Gear>, after: map<nat, Gear>) {
    forall s :: s in before || s in after ==> s in order
  }

  /** The two changes of handleEquip: the vacated slot, if any, then the destination. */
  ghost function EquipChanges(b: Bag, dst: nat, unique: nat): seq<Change> {
    var src := SlotOf(b, unique);
    if !Held(b, unique) || src == dst then []
    else
      (if src != NO_SLOT then [Change(src, if Occupied(b, dst) then b.equip[dst].unique else 0)] else [])
      + [Change(dst, unique)]
  }

  /** resendEquipTo: every equipped item, for a newcomer. */
  function Resync(equip: map<nat, Gear>, order: seq<nat>): seq<Change> {
    if |order| == 0 then []
    else
      var s := order[|order| - 1];
      Resync(equip, order[..|order| - 1]) + if UniqueAt(equip, s) != 0 then [Change(s, UniqueAt(equip, s))] else []
  }

  // ---------------------------------------------------------------- replaying

  lemma ViewOneMore(wire: seq<Change>, c: Change, slot: nat)
    ensures View(wire + [c], slot) == if c.slot == slot then c.unique else View(wire, slot)
  {
    assert (wire + [c])[..|wire|] == wire;
  }

  /** Applied to any view, the difference sets the slots that differ and leaves the others. */
  lemma {:induction false} DiffSets(wire: seq<Change>, before: map<nat, Gear>, after: map<nat, Gear>, order: seq<nat>,
                                    slot: nat)
    ensures View(wire + Diff(before, after, order), slot)
         == if slot in order && UniqueAt(before, slot) != UniqueAt(after, slot) then UniqueAt(after, slot)
            else View(wire, slot)
  {
    hide UniqueAt;
    if |order| == 0 {
      assert wire + [] == wire;
    } else {
      var init, s := order[..|order| - 1], order[|order| - 1];
      DiffSets(wire, before, after, init, slot);
      assert slot in order <==> slot in init || slot == s;
      if UniqueAt(before, s) != UniqueAt(after, s) {
        var c := Change(s, UniqueAt(after, s));
        ViewOneMore(wire + Diff(before, after, init), c, slot);
        assert wire + Diff(before, after, init) + [c] == wire + Diff(before, after, order);
      } else {
        assert Diff(before, after, init) + [] == Diff(before, after, init);
      }
    }
  }

  /** An observer that showed the snapshot shows the current map, in every slot. */
  lemma DiffReplays(wire: seq<Change>, before: map<nat, Gear>, after: map<nat, Gear>, order: seq<nat>, slot: nat)
    requires Covers(order, before, after) && View(wire, slot) == UniqueAt(before, slot)
    ensures View(wire + Diff(before, after, order), slot) == UniqueAt(after, slot)
  {
    DiffSets(wire, before, after, order, slot);
  }

  /** A newcomer shows the current map. */
  lemma {:induction false} ResyncShows(equip: map<nat, Gear>, order: seq<nat>, slot: nat)
    ensures View(Resync(equip, order), slot) == if slot in order then UniqueAt(equip, slot) else 0
  {
    hide UniqueAt;
    if |order| > 0 {
      var init, s := order[..|order| - 1], order[|order| - 1];
      ResyncShows(equip, init, slot);
      assert slot in order <==> slot in init || slot == s;
      if UniqueAt(equip, s) != 0 {
        ViewOneMore(Resync(equip, init), Change(s, UniqueAt(equip, s)), slot);
      } else {
        assert Resync(equip, init) + [] == Resync(equip, init);
      }
    }
  }

  /** The placeholder of the fist is not sent, and nothing is sent twice. */
  lemma {:induction false} ResyncIsLean(equip: map<nat, Gear>, order: seq<nat>)
    ensures forall c :: c in Resync(equip, order) ==> c.unique != 0 && c.slot in order && c.slot in equip
    ensures (forall i, j :: 0 <= i < j < |order| ==> order[i] != order[j]) ==>
              forall i, j :: 0 <= i < j < |Resync(equip, order)| ==> Resync(equip, order)[i].slot != Resync(equip, order)[j].slot
  {
    if |order| > 0 {
      var init := order[..|order| - 1];
      ResyncIsLean(equip, init);
      assert order == init + [order[|order| - 1]];
    }
  }

  lemma EquipReplays(wire: seq<Change>, b: Bag, dst: nat, unique: nat, slot: nat)
    requires View(wire, slot) == UniqueAt(b.equip, slot)
    ensures View(wire + EquipChanges(b, dst, unique), slot) == UniqueAt(EquipTo(b, dst, unique).equip, slot)
  {
    hide View, SlotOf, Shows, SwapWeapons, MoveWeapon;
    var src := SlotOf(b, unique);
    if !Held(b, unique) || src == dst {
      assert wire + [] == wire;
    } else {
      var into := Change(dst, unique);
      if src != NO_SLOT {
        var out := Change(src, if Occupied(b, dst) then b.equip[dst].unique else 0);
        ViewOneMore(wire, out, slot);
        ViewOneMore(wire + [out], into, slot);
        assert wire + [out] + [into] == wire + EquipChanges(b, dst, unique);
      } else {
        ViewOneMore(wire, into, slot);
        assert [] + [into] == [into];
      }
    }
  }

  // ---------------------------------------------------------------- whole runs

  /** What a deed sends to an observer that is there all the time. Armour wear is sent to its owner alone
      and a placed wall empties its slot in silence. */
  ghost function Sent(shop: Shop, k: Kit, d: Deed, order: seq<nat>): seq<Change> {
    match d
    case Equipping(dst, unique) => EquipChanges(k.bag, dst, unique)
    case Wearing(slot, left) => []
    case Walling(dup, unlimited) => []
    case Refilling(dup) => []
    case Holding(unique) => []
    case Using(unique) => []
    case _ => Diff(k.bag.equip, Do(shop, k, d).bag.equip, order)
  }

  /** The deeds after which an observer no longer shows a slot as it is. */
  predicate FallsBehind(b: Bag, d: Deed, slot: nat) {
    match d
    case Wearing(worn, _) => slot == worn && Occupied(b, worn)
    case Walling(dup, unlimited) => slot == BUILDING && UsesUp(b, dup, unlimited) && Occupied(b, BUILDING)
    case _ => false
  }

  /** Worn armour is remade under a fresh unique, or removed, and the others are not told. */
  lemma WornSlotShows(cat: Catalogue, b: Bag, worn: nat, left: nat, slot: nat)
    requires Agree(cat, b) && left < DurOf(b, worn)
    ensures UniqueAt(Wear(b, worn, left).equip, slot) == UniqueAt(b.equip, slot) <==> !(slot == worn && Occupied(b, worn))
  {
    hide Agree, DurOf;
    FreshIsNew(cat, b, 1);
    if Occupied(b, worn) {
      OccupiedIsTracked(cat, b, worn);
    }
  }

  /** The last wall empties its slot in silence. */
  lemma WallSlotShows(cat: Catalogue, b: Bag, dup: nat, unlimited: bool, slot: nat)
    requires Agree(cat, b)
    ensures UniqueAt(PlaceWall(b, dup, unlimited).equip, slot) == UniqueAt(b.equip, slot)
       <==> !(slot == BUILDING && UsesUp(b, dup, unlimited) && Occupied(b, BUILDING))
  {
    hide Agree, IsWeaponUID, BestWeaponUID, GlooStack;
    if Occupied(b, BUILDING) {
      OccupiedIsTracked(cat, b, BUILDING);
    }
  }

  lemma QuietSlots(shop: Shop, k: Kit, d: Deed, slot: nat)
    requires Agree(shop.cat, k.bag) && Possible(k, d)
    requires d.Wearing? || d.Walling? || d.Refilling? || d.Holding? || d.Using?
    ensures UniqueAt(Do(shop, k, d).bag.equip, slot) == UniqueAt(k.bag.equip, slot) <==> !FallsBehind(k.bag, d, slot)
  {
    hide Agree, IsDup, IsWeaponUID, Occupied, UniqueAt, Wear, PlaceWall, UsesUp, DurOf;
    match d
    case Wearing(worn, left) => WornSlotShows(shop.cat, k.bag, worn, left, slot);
    case Walling(dup, unlimited) => WallSlotShows(shop.cat, k.bag, dup, unlimited, slot);
    case _ =>
  }

  /** Where an observer shows a slot as it is, it still does after a deed, told in any order, exactly when
      the deed is none of the two that fall behind. */
  lemma DeedReplays(shop: Shop, k: Kit, d: Deed, order: seq<nat>, wire: seq<Change>, slot: nat)
    requires Agree(shop.cat, k.bag) && Possible(k, d) && View(wire, slot) == UniqueAt(k.bag.equip, slot)
    requires d.Buying? || d.PickingUp? || d.Dropping? || d.Resetting? ==>
               Covers(order, k.bag.equip, Do(shop, k, d).bag.equip)
    ensures View(wire + Sent(shop, k, d, order), slot) == UniqueAt(Do(shop, k, d).bag.equip, slot)
       <==> !FallsBehind(k.bag, d, slot)
  {
    hide Agree, Possible, View, Diff, UniqueAt, Buy, Pickup, Deeds.Drop, Reset, EquipTo, Wear, PlaceWall, Refill,
         Hold, Use, Covers, EquipChanges, UsesUp, Occupied;
    var after := Do(shop, k, d).bag.equip;
    match d
    case Equipping(dst, unique) =>
      EquipReplays(wire, k.bag, dst, unique, slot);
    case Buying(data, qty, mounts, dup, pos, into) => DiffReplays(wire, k.bag.equip, after, order, slot);
    case PickingUp(unique, mounts, dup, pos, into) => DiffReplays(wire, k.bag.equip, after, order, slot);
    case Dropping(unique, pos, into) => DiffReplays(wire, k.bag.equip, after, order, slot);
    case Resetting(noLoadout, mounts) => DiffReplays(wire, k.bag.equip, after, order, slot);
    case _ =>
      QuietSlots(shop, k, d, slot);
      assert wire + [] == wire;
  }

  ghost function Wire(shop: Shop, run: seq<Deed>, orders: seq<seq<nat>>): seq<Change>
    requires |orders| == |run|
  {
    if |run| == 0 then []
    else
      var n := |run| - 1;
      Wire(shop, run[..n], orders[..n]) + Sent(shop, RunDeeds(shop, run[..n]), run[n], orders[n])
  }

  ghost predicate AllCovered(shop: Shop, run: seq<Deed>, orders: seq<seq<nat>>) {
    && |orders| == |run|
    && forall n :: 0 <= n < |run| ==>
         Covers(orders[n], RunDeeds(shop, run[..n]).bag.equip, RunDeeds(shop, run[..n + 1]).bag.equip)
  }

  /** No deed of the run makes the slot fall behind. */
  ghost predicate NeverBehind(shop: Shop, run: seq<Deed>, slot: nat) {
    forall n :: 0 <= n < |run| ==> !FallsBehind(RunDeeds(shop, run[..n]).bag, run[n], slot)
  }

  lemma RunPrefix(shop: Shop, run: seq<Deed>, orders: seq<seq<nat>>, slot: nat)
    requires |run| > 0 && AllAllowed(shop, run) && AllCovered(shop, run, orders) && NeverBehind(shop, run, slot)
    ensures var n := |run| - 1;
            && AllAllowed(shop, run[..n]) && AllCovered(shop, run[..n], orders[..n]) && NeverBehind(shop, run[..n], slot)
            && Allowed(shop, RunDeeds(shop, run[..n]), run[n]) && !FallsBehind(RunDeeds(shop, run[..n]).bag, run[n], slot)
            && Covers(orders[n], RunDeeds(shop, run[..n]).bag.equip, RunDeeds(shop, run).bag.equip)
  {
    hide Allowed, Covers, FallsBehind, RunDeeds;
    var n := |run| - 1;
    var init := run[..n];
    forall i | 0 <= i < n
      ensures Allowed(shop, RunDeeds(shop, init[..i]), init[i])
      ensures !FallsBehind(RunDeeds(shop, init[..i]).bag, init[i], slot)
      ensures Covers(orders[..n][i], RunDeeds(shop, init[..i]).bag.equip, RunDeeds(shop, init[..i + 1]).bag.equip)
    {
      assert init[..i] == run[..i] && init[..i + 1] == run[..i + 1];
    }
    assert run[..n + 1] == run;
  }

  /** Over every run, whatever the order of Go's map loops: an observer that was there all the time shows
      the server's item in every slot that never fell behind. */
  lemma {:induction false} WireFollows(shop: Shop, run: seq<Deed>, orders: seq<seq<nat>>, slot: nat)
    requires Stocked(shop.cat) && AllAllowed(shop, run) && AllCovered(shop, run, orders) && NeverBehind(shop, run, slot)
    ensures View(Wire(shop, run, orders), slot) == UniqueAt(RunDeeds(shop, run).bag.equip, slot)
  {
    hide Stocked, Possible, Guarded, InOrder, Do, Agree, Sent, Covers, FallsBehind, UniqueAt, View, AllAllowed, NeverBehind;
    if |run| == 0 {
      NothingShows(slot);
    } else {
      var n := |run| - 1;
      var init := run[..n];
      RunPrefix(shop, run, orders, slot);
      WireFollows(shop, init, orders[..n], slot);
      RunKeeps(shop, init);
      BagAgrees(shop.cat, RunDeeds(shop, init));
      DeedReplays(shop, RunDeeds(shop, init), run[n], orders[n], Wire(shop, init, orders[..n]), slot);
    }
  }

  lemma NothingShows(slot: nat)
    ensures View([], slot) == UniqueAt(START.bag.equip, slot)
  {}

  /** All slots but the armour and the wall. */
  predicate Followed(slot: nat) {
    slot != HELMET && slot != VEST && slot != BUILDING
  }

  ghost predicate Follows(wire: seq<Change>, b: Bag) {
    forall slot: nat :: Followed(slot) ==> View(wire, slot) == UniqueAt(b.equip, slot)
  }

  lemma NothingFollows()
    ensures Follows([], START.bag)
  {}

  lemma KeepsUp(k: Kit, d: Deed, slot: nat)
    requires Followed(slot) && Possible(k, d)
    ensures !FallsBehind(k.bag, d, slot)
  {
    hide IsDup, Merges, OnGround, Occupied, UsesUp, DurOf;
  }

  lemma NeverBehindThere(shop: Shop, run: seq<Deed>, slot: nat)
    requires Followed(slot) && AllAllowed(shop, run)
    ensures NeverBehind(shop, run, slot)
  {
    hide Possible, Guarded, FallsBehind, RunDeeds, Followed;
    forall n | 0 <= n < |run| ensures !FallsBehind(RunDeeds(shop, run[..n]).bag, run[n], slot) {
      KeepsUp(RunDeeds(shop, run[..n]), run[n], slot);
    }
  }

  lemma DeedFollows(shop: Shop, k: Kit, d: Deed, order: seq<nat>, wire: seq<Change>)
    requires Agree(shop.cat, k.bag) && Possible(k, d) && Follows(wire, k.bag)
    requires d.Buying? || d.PickingUp? || d.Dropping? || d.Resetting? ==>
               Covers(order, k.bag.equip, Do(shop, k, d).bag.equip)
    ensures Follows(wire + Sent(shop, k, d, order), Do(shop, k, d).bag)
  {
    hide View, UniqueAt, Agree, Possible, Covers, Do, Sent, Followed, FallsBehind;
    forall slot: nat | Followed(slot)
      ensures View(wire + Sent(shop, k, d, order), slot) == UniqueAt(Do(shop, k, d).bag.equip, slot)
    {
      KeepsUp(k, d, slot);
      DeedReplays(shop, k, d, order, wire, slot);
    }
  }

  /** Those slots never fall behind, the five weapon slots among them. */
  lemma FollowedKeepsUp(shop: Shop, run: seq<Deed>, orders: seq<seq<nat>>)
    requires Stocked(shop.cat) && AllAllowed(shop, run) && AllCovered(shop, run, orders)
    ensures Follows(Wire(shop, run, orders), RunDeeds(shop, run).bag)
  {
    hide View, UniqueAt, Stocked, Allowed, Covers, RunDeeds, Followed, NeverBehind;
    forall slot: nat | Followed(slot)
      ensures View(Wire(shop, run, orders), slot) == UniqueAt(RunDeeds(shop, run).bag.equip, slot)
    {
      NeverBehindThere(shop, run, slot);
      WireFollows(shop, run, orders, slot);
    }
  }

  // ---------------------------------------------------------------- where the promises end

  /** The melee entry is moved to a free slot, its own left without a fist: unique 0 names the fist itself. */
  predicate MovedAway(b: Bag, src: nat, dst: nat) {
    src == MELEE && dst != MELEE && !Occupied(b, dst)
  }

  /** The melee entry that must always be there goes exactly when the item in it is dropped, or a request
      moves it to a free slot. */
  lemma MeleeEntryStays(shop: Shop, k: Kit, d: Deed)
    requires Agree(shop.cat, k.bag) && Stocked(shop.cat) && Possible(k, d) && MELEE in k.bag.equip
    ensures MELEE in Do(shop, k, d).bag.equip
       <==> && !(d.Dropping? && d.unique != 0 && d.unique == k.bag.equip[MELEE].unique)
            && !(d.Equipping? && MovedAway(k.bag, SlotOf(k.bag, d.unique), d.dst))
  {
    hide MovedAway, Agree, Stocked, PlacementOf, Supplied, IsDup, Merges, Fits, WeaponAmmo, IsWeaponUID, BestWeaponUID, GlooStack,
         SlotOf, Place, OnGround, Held, Buy, Pickup, EquipTo;
    match d
    case Buying(data, qty, mounts, dup, pos, into) => BuyKeepsMelee(shop, k, data, qty, mounts, dup, pos, into);
    case PickingUp(unique, mounts, dup, pos, into) => PickupKeepsMelee(shop, k, unique, mounts, dup, pos, into);
    case Equipping(dst, unique) => EquipKeepsMelee(shop.cat, k.bag, dst, unique);
    case Dropping(unique, pos, into) => MeleeIsTracked(shop.cat, k.bag);
    case _ =>
  }

  lemma MeleeIsTracked(cat: Catalogue, b: Bag)
    requires Agree(cat, b) && MELEE in b.equip
    ensures b.equip[MELEE].unique != 0 ==> b.equip[MELEE].unique in b.tracked
  {
    hide OnePlace, Recorded, Issued, OneStack;
  }

  lemma BuyKeepsMelee(shop: Shop, k: Kit, data: nat, qty: nat, mounts: nat, dup: nat, pos: Pos, into: nat)
    requires MELEE in k.bag.equip
    ensures MELEE in Buy(shop, k, data, qty, mounts, dup, pos, into).bag.equip
  {
    hide PlacementOf, ArmorSlot, MaxDur, AmmoReserve;
  }

  lemma PickupKeepsMelee(shop: Shop, k: Kit, unique: nat, mounts: nat, dup: nat, pos: Pos, into: nat)
    requires Agree(shop.cat, k.bag) && MELEE in k.bag.equip
    requires OnGround(k.ground, unique) ==> IsDup(k.bag.tracked, ItemOn(k.ground, unique).data, unique, dup)
    ensures MELEE in Pickup(shop, k, unique, mounts, dup, pos, into).bag.equip
  {
    hide OnGround, Place, WeaponAmmo, Close, TakeFrom, Displace, Agree;
    NoZeroTracked(shop.cat, k.bag);
    if k.bag.equip[MELEE].unique == dup && dup in k.bag.tracked {
      WornOnce(shop.cat, k.bag, MELEE, dup);
    }
  }

  lemma EquipKeepsMelee(cat: Catalogue, b: Bag, dst: nat, unique: nat)
    requires Agree(cat, b) && MELEE in b.equip
    ensures MELEE in EquipTo(b, dst, unique).equip <==> !MovedAway(b, SlotOf(b, unique), dst)
  {
    hide SlotOf, Shows, SwapWeapons, MoveWeapon, Agree;
    Whereabouts(cat, b, unique);
    OccupiedIsTracked(cat, b, dst);
  }

  lemma WornOnce(cat: Catalogue, b: Bag, s: nat, u: nat)
    requires Agree(cat, b) && s in b.equip && b.equip[s].unique == u
    ensures SlotOf(b, u) == s && Shows(b, u)
  {
    hide Tied, Recorded, Issued, OneStack;
    SlotOfIs(b, s, u);
  }

  /** So it goes right after the base loadout is given, when a request names slot 3 and the unique 0. */
  lemma FistMovedAway(shop: Shop, k: Kit, noLoadout: bool, mounts: nat)
    requires Stocked(shop.cat)
    ensures var k1 := Do(shop, k, Resetting(noLoadout, mounts));
            MELEE in k1.bag.equip && MELEE !in Do(shop, k1, Equipping(EXPLOSIVE, 0)).bag.equip
  {
    hide Agree;
    var k1 := Do(shop, k, Resetting(noLoadout, mounts));
    FreshAgrees(shop, k.bag, noLoadout, mounts);
    WornOnce(shop.cat, k1.bag, MELEE, 0);
    EquipKeepsMelee(shop.cat, k1.bag, EXPLOSIVE, 0);
  }
}
