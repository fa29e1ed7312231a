/** Runs from the start that reach the boundaries of LoadoutRuns, Armoury and Conservation: everything is in order until
    the last deed. */
module LoadoutBreaks {
  import opened Items
  import opened GroundLoot
  import opened Loadout
  import opened Deeds
  import opened LoadoutRuns
  import opened Belongings
  import opened Conservation
  import opened Armoury

  const HERE: Pos := Pos(0, 0, 0)
  const THERE: Pos := Pos(1_000_000, 0, 0)
  const AWAY: Pos := Pos(2_000_000, 0, 0)

  // ---------------------------------------------------------------- one deed more

  lemma NoDeeds(shop: Shop)
    ensures AllAllowed(shop, []) && RunDeeds(shop, []) == START
  {}

  lemma Extend(shop: Shop, run: seq<Deed>, d: Deed)
    requires AllAllowed(shop, run) && Allowed(shop, RunDeeds(shop, run), d)
    ensures AllAllowed(shop, run + [d]) && RunDeeds(shop, run + [d]) == Do(shop, RunDeeds(shop, run), d)
  {
    hide Allowed, Do;
    assert (run + [d])[..|run|] == run;
    forall n | 0 <= n < |run + [d]| ensures Allowed(shop, RunDeeds(shop, (run + [d])[..n]), (run + [d])[n]) {
      if n < |run| {
        assert (run + [d])[..n] == run[..n];
        assert Allowed(shop, RunDeeds(shop, run[..n]), run[n]);
      }
    }
  }

  /** A deed that can happen and is not guarded ends the order. */
  lemma Breaks(shop: Shop, run: seq<Deed>, d: Deed)
    requires Stocked(shop.cat) && AllAllowed(shop, run)
    requires Possible(RunDeeds(shop, run), d) && !Guarded(shop.cat, RunDeeds(shop, run).bag, d)
    ensures InOrder(shop.cat, RunDeeds(shop, run)) && !InOrder(shop.cat, RunDeeds(shop, run + [d]))
  {
    hide Possible, Guarded, Do, InOrder;
    RunKeeps(shop, run);
    DeedKeeps(shop, RunDeeds(shop, run), d);
    assert (run + [d])[..|run|] == run;
  }

  /** The base loadout: the fist, and the pistol under the first unique. */
  lemma Base(shop: Shop)
    requires Stocked(shop.cat)
    ensures var run, k := [] + [Resetting(false, 0)], Do(shop, START, Resetting(false, 0));
            && AllAllowed(shop, run) && RunDeeds(shop, run) == k
            && k.bag.equip == map[MELEE := FIST, SECONDARY := Gear(USP, 1)]
            && k.bag.weapons == map[SECONDARY := Weapon(SECONDARY, USP, 1, PISTOL_AMMO)]
            && k.bag.tracked.Keys == {1, 2, 3} && k.bag.lastUid == 3 && k.bag.onHand == 1
            && k.bag.tracked[1] == Item(1, USP, 1, shop.mag(USP)) && k.bag.tracked[2] == Item(2, MEDKIT, 2, 2)
            && k.bag.tracked[3].data == PISTOL_AMMO
            && k.ground == BARE
  {
    NoDeeds(shop);
    Extend(shop, [], Resetting(false, 0));
  }

  // ---------------------------------------------------------------- slots out of kind

  /** Slot 255 and out of it again: the pistol is shown twice. */
  lemma TakenOutOfNowhere(shop: Shop) returns (run: seq<Deed>)
    requires Stocked(shop.cat)
    ensures |run| > 0 && InOrder(shop.cat, RunDeeds(shop, run[..|run| - 1])) && !InOrder(shop.cat, RunDeeds(shop, run))
  {
    hide RunDeeds, AllAllowed, InOrder;
    var base := [] + [Resetting(false, 0)];
    Base(shop);
    var b := RunDeeds(shop, base).bag;
    SlotOfPistol(b);
    var d, e := Equipping(NO_SLOT, 1), Equipping(PRIMARY_1, 1);
    Extend(shop, base, d);
    assert RunDeeds(shop, base + [d]).bag == EquipTo(b, NO_SLOT, 1);
    Breaks(shop, base + [d], e);
    run := base + [d] + [e];
    assert run[..|run| - 1] == base + [d];
  }

  lemma SlotOfPistol(b: Bag)
    requires b.equip == map[MELEE := FIST, SECONDARY := Gear(USP, 1)]
    ensures SlotOf(b, 1) == SECONDARY && Shows(b, 1) && !ShownNowhere(b, 1)
  {
    assert b.equip[SECONDARY].unique == 1;
  }

  /** The pistol in the grenade slot, and a grenade: the weapon record contradicts the list. */
  lemma GrenadeOverPistol(shop: Shop, grenade: nat) returns (run: seq<Deed>)
    requires Stocked(shop.cat) && grenade in shop.cat && grenade != MUSHROOM && grenade != MEDKIT
    requires PlacementOf(shop.cat, grenade) == Placement(EXPLOSIVE, 0, false, false, false)
    ensures |run| > 0 && InOrder(shop.cat, RunDeeds(shop, run[..|run| - 1])) && !InOrder(shop.cat, RunDeeds(shop, run))
  {
    hide RunDeeds, AllAllowed, InOrder, PlacementOf;
    var base := [] + [Resetting(false, 0)];
    Base(shop);
    var b := RunDeeds(shop, base).bag;
    SlotOfPistol(b);
    var d, e := Equipping(EXPLOSIVE, 1), Buying(grenade, 1, 0, 0, HERE, 0);
    Extend(shop, base, d);
    var b1 := EquipTo(b, EXPLOSIVE, 1);
    assert RunDeeds(shop, base + [d]) == Kit(b1, BARE);
    assert EXPLOSIVE in b1.weapons;
    NotInShop(shop.cat, grenade);
    KnownItem(shop.cat);
    assert IsDup(b1.tracked, grenade, 0, 0);
    Breaks(shop, base + [d], e);
    run := base + [d] + [e];
    assert run[..|run| - 1] == base + [d];
  }

  lemma NotInShop(cat: Catalogue, data: nat)
    requires Stocked(cat) && data in cat
    ensures data != PISTOL_AMMO && data != 0
  {}

  lemma KnownItem(cat: Catalogue)
    requires Stocked(cat)
    ensures PlacementOf(cat, USP).isWeapon
  {
    KnownGuns(cat, USP);
  }

  /** A vest, the pistol in its slot, and a hit. */
  lemma PistolInVestSlot(shop: Shop, vest: nat) returns (run: seq<Deed>)
    requires Stocked(shop.cat) && vest in shop.cat && vest in {302, 303, 309}
    requires PlacementOf(shop.cat, vest) == Placement(VEST, 0, false, false, true)
    ensures |run| > 0 && InOrder(shop.cat, RunDeeds(shop, run[..|run| - 1])) && !InOrder(shop.cat, RunDeeds(shop, run))
  {
    hide RunDeeds, AllAllowed, InOrder, PlacementOf;
    var base := [] + [Resetting(false, 0)];
    Base(shop);
    var b := RunDeeds(shop, base).bag;
    var d, e, f := Buying(vest, 1, 0, 0, HERE, 0), Equipping(VEST, 1), Wearing(VEST, 1);
    NotInShop(shop.cat, vest);
    assert IsDup(b.tracked, vest, 0, 0);
    Extend(shop, base, d);
    var b1 := BuyStack(shop, b, vest, 1, 0);
    assert RunDeeds(shop, base + [d]) == Kit(b1, BARE);
    VestBought(shop, b, vest);
    Extend(shop, base + [d], e);
    assert RunDeeds(shop, base + [d] + [e]).bag == EquipTo(b1, VEST, 1);
    Breaks(shop, base + [d] + [e], f);
    run := base + [d] + [e] + [f];
    assert run[..|run| - 1] == base + [d] + [e];
  }

  lemma VestBought(shop: Shop, b: Bag, vest: nat)
    requires b.equip == map[MELEE := FIST, SECONDARY := Gear(USP, 1)] && b.lastUid == 3 && vest in {302, 303, 309}
    requires 0 !in b.tracked && PlacementOf(shop.cat, vest) == Placement(VEST, 0, false, false, true)
    ensures var b1 := BuyStack(shop, b, vest, 1, 0);
            && b1.equip == b.equip[VEST := Gear(vest, 4)] && b1.weapons == b.weapons && b1.vestDur > 1
            && SlotOf(b1, 1) == SECONDARY && Shows(b1, 1) && !ShownNowhere(b1, 1)
  {
    hide PlacementOf;
    var b1 := BuyStack(shop, b, vest, 1, 0);
    assert b1.equip[SECONDARY].unique == 1;
  }

  /** The wall carried in a gun slot, and placed. */
  lemma WallInGunSlot(shop: Shop) returns (run: seq<Deed>)
    requires Stocked(shop.cat) && GLOO in shop.cat
    ensures |run| > 0 && InOrder(shop.cat, RunDeeds(shop, run[..|run| - 1])) && !InOrder(shop.cat, RunDeeds(shop, run))
  {
    hide RunDeeds, AllAllowed, InOrder, PlacementOf;
    var base := [] + [Resetting(false, 0)];
    Base(shop);
    var b := RunDeeds(shop, base).bag;
    var d, e, f := Buying(GLOO, 1, 0, 0, HERE, 0), Equipping(PRIMARY_1, 4), Walling(4, false);
    WallPlacement(shop.cat);
    assert IsDup(b.tracked, GLOO, 0, 0);
    Extend(shop, base, d);
    var b1 := BuyStack(shop, b, GLOO, 1, 0);
    assert RunDeeds(shop, base + [d]) == Kit(b1, BARE);
    WallBought(shop, b);
    Extend(shop, base + [d], e);
    var b2 := EquipTo(b1, PRIMARY_1, 4);
    assert RunDeeds(shop, base + [d] + [e]).bag == b2;
    WallMoved(b1);
    Breaks(shop, base + [d] + [e], f);
    run := base + [d] + [e] + [f];
    assert run[..|run| - 1] == base + [d] + [e];
  }

  lemma WallPlacement(cat: Catalogue)
    requires Stocked(cat) && GLOO in cat
    ensures PlacementOf(cat, GLOO) == Placement(BUILDING, 0, false, false, false)
  {}

  lemma WallBought(shop: Shop, b: Bag)
    requires b.equip == map[MELEE := FIST, SECONDARY := Gear(USP, 1)] && b.lastUid == 3
    requires 0 !in b.tracked && PlacementOf(shop.cat, GLOO) == Placement(BUILDING, 0, false, false, false)
    ensures var b1 := BuyStack(shop, b, GLOO, 1, 0);
            && b1.equip == b.equip[BUILDING := Gear(GLOO, 4)] && b1.weapons == b.weapons
            && b1.tracked == b.tracked[4 := Item(4, GLOO, 1, 0)] && SlotOf(b1, 4) == BUILDING && Shows(b1, 4)
            && !ShownNowhere(b1, 4)
  {
    hide PlacementOf;
    var b1 := BuyStack(shop, b, GLOO, 1, 0);
    assert b1.equip[BUILDING].unique == 4;
  }

  lemma WallMoved(b: Bag)
    requires b.equip == map[MELEE := FIST, SECONDARY := Gear(USP, 1)][BUILDING := Gear(GLOO, 4)]
    requires 4 in b.tracked && b.tracked[4] == Item(4, GLOO, 1, 0) && SlotOf(b, 4) == BUILDING && Shows(b, 4)
    ensures var b2 := EquipTo(b, PRIMARY_1, 4);
            UsesUp(b2, 4, false) && GlooStack(b2, 4) == 4 && Shows(b2, 4) && SlotOf(b2, 4) == PRIMARY_1
            && b2.tracked == b.tracked
  {
    var b2 := EquipTo(b, PRIMARY_1, 4);
    assert b2.equip[PRIMARY_1].unique == 4;
  }

  /** A medkit put over the pistol takes its record, and the pistol goes into another slot without one. */
  lemma PistolUnrecorded(shop: Shop) returns (run: seq<Deed>)
    requires Stocked(shop.cat)
    ensures |run| > 0 && AllAllowed(shop, run)
    ensures Armed(shop.cat, RunDeeds(shop, run[..|run| - 1]).bag) && !Armed(shop.cat, RunDeeds(shop, run).bag)
  {
    hide RunDeeds, AllAllowed, PlacementOf, Stocked, Armed;
    var base, d, e := [] + [Resetting(false, 0)], Equipping(SECONDARY, 2), Equipping(PRIMARY_1, 1);
    Base(shop);
    var b := RunDeeds(shop, base).bag;
    NotShown(b, 2);
    Extend(shop, base, d);
    var b1 := EquipTo(b, SECONDARY, 2);
    assert RunDeeds(shop, base + [d]) == Kit(b1, BARE);
    assert b1.equip == map[MELEE := FIST, SECONDARY := Gear(MEDKIT, 2)] && b1.weapons == map[];
    NotShown(b1, 1);
    Extend(shop, base + [d], e);
    run := base + [d] + [e];
    assert run[..|run| - 1] == base + [d];
    MedkitIsNoWeapon(shop.cat, b1);
    KnownItem(shop.cat);
    assert RunDeeds(shop, run).bag == EquipTo(b1, PRIMARY_1, 1);
    Unarmed(shop.cat, RunDeeds(shop, run).bag, PRIMARY_1, Gear(USP, 1));
  }

  lemma NotShown(b: Bag, u: nat)
    requires forall s :: s in b.equip ==> b.equip[s].unique != u
    ensures !Shows(b, u) && SlotOf(b, u) == NO_SLOT && !ShownNowhere(b, u)
  {}

  lemma MedkitIsNoWeapon(cat: Catalogue, b: Bag)
    requires Stocked(cat) && b.equip == map[MELEE := FIST, SECONDARY := Gear(MEDKIT, 2)]
    ensures Armed(cat, b)
  {
    MedkitPlace(cat);
  }

  // ---------------------------------------------------------------- totals

  /** A pistol used up, and another bought over it: one more than was paid for. */
  lemma UsedPistolGains(shop: Shop) returns (run: seq<Deed>, d: Deed)
    requires Stocked(shop.cat) && USP in shop.cat && PlacementOf(shop.cat, USP) == Placement(SECONDARY, PISTOL_AMMO, true, false, false)
    ensures AllAllowed(shop, run) && Possible(RunDeeds(shop, run), d)
    ensures d == Buying(USP, 1, 0, 0, HERE, 0) || d == Buying(USP, 1, 0, 1, HERE, 0)
    ensures Total(Do(shop, RunDeeds(shop, run), d), USP) == Total(RunDeeds(shop, run), USP) + 2
  {
    hide RunDeeds, AllAllowed, InOrder, PlacementOf, Total, Destroyed, Gained, Buy;
    var base := [] + [Resetting(false, 0)];
    Base(shop);
    var k := RunDeeds(shop, base);
    Extend(shop, base, Using(1));
    run := base + [Using(1)];
    d := Buying(USP, 1, 0, 1, HERE, 0);
    var k1 := RunDeeds(shop, run);
    assert k1 == Kit(Use(k.bag, 1), BARE);
    RunKeeps(shop, run);
    BagAgrees(shop.cat, k1);
    BuyingGunAdds(shop, k1, USP, 1, 0, 1, HERE, 0, USP);
    UsedGain(shop, k1);
  }

  lemma UsedGain(shop: Shop, k: Kit)
    requires Agree(shop.cat, k.bag) && k.ground == BARE && USP in shop.cat && 1 in k.bag.tracked
    requires PlacementOf(shop.cat, USP) == Placement(SECONDARY, PISTOL_AMMO, true, false, false)
    requires k.bag.weapons == map[SECONDARY := Weapon(SECONDARY, USP, 1, PISTOL_AMMO)] && k.bag.tracked[1].count == 0
    ensures Gained(shop, k, Buying(USP, 1, 0, 1, HERE, 0), USP) == 1 && Destroyed(shop, k, Buying(USP, 1, 0, 1, HERE, 0), USP) == 0
  {
    hide Agree, PlacementOf;
    WeaponIsTracked(shop.cat, k.bag, SECONDARY);
  }

  // ---------------------------------------------------------------- a box id comes round

  const BOUGHT: Weapon := Weapon(SECONDARY, USP, 4, PISTOL_AMMO)
  const KIT: Item := Item(2, MEDKIT, 2, 2)

  /** The first pistol lies here in the first box, the second is carried, and so is a medkit. */
  ghost predicate Juggling(k: Kit, gun: Item, n: nat) {
    && JugglingBag(k.bag) && gun.unique == 1 && gun.data == USP
    && k.ground == Ground(map[BASE_ID := Box(BASE_ID, HERE, [gun])], NthId(n), n)
  }

  ghost predicate JugglingBag(b: Bag) {
    && b.weapons == map[SECONDARY := BOUGHT] && b.onHand == 4
    && 2 in b.tracked && b.tracked[2] == KIT && 0 !in b.tracked && 1 !in b.tracked
    && (forall u :: u in b.tracked && u != 2 ==> b.tracked[u].data != MEDKIT)
    && (forall s :: s in b.equip ==> b.equip[s].unique != 2)
  }

  function Down(): Deed {
    Dropping(2, THERE, 0)
  }

  function Up(): Deed {
    PickingUp(2, 0, 0, AWAY, 0)
  }

  lemma Begin(shop: Shop) returns (run: seq<Deed>, gun: Item)
    requires Stocked(shop.cat) && USP in shop.cat && PlacementOf(shop.cat, USP) == Placement(SECONDARY, PISTOL_AMMO, true, false, false)
    ensures AllAllowed(shop, run) && Juggling(RunDeeds(shop, run), gun, 1)
  {
    hide RunDeeds, AllAllowed, PlacementOf;
    var base, d := [] + [Resetting(false, 0)], Buying(USP, 1, 0, 1, HERE, 0);
    Base(shop);
    var k := RunDeeds(shop, base);
    Extend(shop, base, d);
    run, gun := base + [d], Item(1, USP, 1, shop.mag(USP));
    assert RunDeeds(shop, run) == Buy(shop, k, USP, 1, 0, 1, HERE, 0);
    SecondPistol(shop, k);
  }

  lemma SecondPistol(shop: Shop, k: Kit)
    requires USP in shop.cat && PlacementOf(shop.cat, USP) == Placement(SECONDARY, PISTOL_AMMO, true, false, false)
    requires k.bag.equip == map[MELEE := FIST, SECONDARY := Gear(USP, 1)] && k.ground == BARE && k.bag.lastUid == 3
    requires k.bag.weapons == map[SECONDARY := Weapon(SECONDARY, USP, 1, PISTOL_AMMO)]
    requires k.bag.tracked.Keys == {1, 2, 3} && k.bag.tracked[2] == KIT && k.bag.tracked[3].data == PISTOL_AMMO
    ensures Juggling(Buy(shop, k, USP, 1, 0, 1, HERE, 0), Item(1, USP, 1, shop.mag(USP)), 1)
  {
    hide PlacementOf, AmmoReserve;
    var k1 := Buy(shop, k, USP, 1, 0, 1, HERE, 0);
    assert k1.bag.tracked.Keys == {2, 3, 4, 5};
    assert k1.bag.equip == map[MELEE := FIST, SECONDARY := Gear(USP, 4)];
  }

  /** Dropping the medkit there opens the next box. */
  lemma MedkitDown(shop: Shop, k: Kit, gun: Item, n: nat)
    requires Juggling(k, gun, n) && 0 < n < BAND
    ensures Allowed(shop, k, Down())
    ensures Do(shop, k, Down()) == Kit(Strip(k.bag, 2), Ground(k.ground.boxes[NthId(n) := Box(NthId(n), THERE, [KIT])],
                                                            NthId(n + 1), n + 1))
  {
    hide Strip;
    NextNth(n);
  }

  lemma NextNth(n: nat)
    ensures NextId(NthId(n)) == NthId(n + 1) && BASE_ID <= NthId(n) <= MAX_ID
    ensures 0 < n < BAND ==> NthId(n) != BASE_ID && NthId(n) != 0
  {
    IdsCycle(n);
    IdsCycle(n + 1);
  }

  /** The ground with the medkit down. */
  function WithKit(gun: Item, n: nat): Ground {
    Ground(map[BASE_ID := Box(BASE_ID, HERE, [gun])][NthId(n) := Box(NthId(n), THERE, [KIT])], NthId(n + 1), n + 1)
  }

  lemma KitLies(gun: Item, n: nat)
    requires gun.unique == 1 && NthId(n) != BASE_ID
    ensures var g := WithKit(gun, n); OnGround(g, 2) && Place(g, 2) == (NthId(n), 0) && ItemOn(g, 2) == KIT
  {
    hide NthId;
    var g := WithKit(gun, n);
    assert Lies(g, NthId(n), 0, 2);
    forall a: nat, i: nat | Lies(g, a, i, 2) ensures a == NthId(n) && i == 0 {}
  }

  /** Picking it up again closes that box, and only the counter has moved. */
  lemma MedkitUp(shop: Shop, k: Kit, gun: Item, n: nat)
    requires Juggling(k, gun, n) && 0 < n < BAND
    ensures var k1 := Do(shop, k, Down());
            Allowed(shop, k1, Up()) && Juggling(Do(shop, k1, Up()), gun, n + 1)
  {
    hide Strip, NthId, Place, OnGround, JugglingBag, Do, Pickup;
    MedkitDown(shop, k, gun, n);
    NextNth(n);
    KitLies(gun, n);
    var k1 := Do(shop, k, Down());
    assert k1 == Kit(Strip(k.bag, 2), WithKit(gun, n));
    Relisted(k.bag);
    UpAllowed(shop, k.bag, gun, n);
    UpEffect(shop, k.bag, gun, n);
  }

  lemma UpAllowed(shop: Shop, b: Bag, gun: Item, n: nat)
    requires JugglingBag(b) && gun.unique == 1 && NthId(n) != BASE_ID && NthId(n) != 0
    requires OnGround(WithKit(gun, n), 2) && ItemOn(WithKit(gun, n), 2) == KIT
    ensures Allowed(shop, Kit(Strip(b, 2), WithKit(gun, n)), Up())
  {
    hide NthId, Place, OnGround, Strip, ItemOn;
    StripFrame(b, 2);
  }

  lemma UpEffect(shop: Shop, b: Bag, gun: Item, n: nat)
    requires JugglingBag(b) && gun.unique == 1 && NthId(n) != BASE_ID
    requires OnGround(WithKit(gun, n), 2) && Place(WithKit(gun, n), 2) == (NthId(n), 0)
    ensures Do(shop, Kit(Strip(b, 2), WithKit(gun, n)), Up())
         == Kit(Track(Strip(b, 2), KIT), Ground(map[BASE_ID := Box(BASE_ID, HERE, [gun])], NthId(n + 1), n + 1))
  {
    hide NthId, Place, OnGround, Strip, Without;
    StripFrame(b, 2);
    NothingLeft();
    var g1 := TakeFrom(WithKit(gun, n), NthId(n), 2);
    assert g1.boxes[NthId(n)].items == [];
    assert Close(g1, NthId(n), true).boxes == map[BASE_ID := Box(BASE_ID, HERE, [gun])];
  }

  lemma NothingLeft()
    ensures Without([KIT], 2) == []
  {
    assert [KIT][..0] == [];
  }

  lemma Relisted(b: Bag)
    requires JugglingBag(b)
    ensures JugglingBag(Track(Strip(b, 2), KIT))
  {
    var b1 := Strip(b, 2);
    assert b1.weapons == b.weapons;
  }

  lemma {:induction false} Juggle(shop: Shop, run: seq<Deed>, gun: Item, n: nat, m: nat) returns (longer: seq<Deed>)
    requires AllAllowed(shop, run) && Juggling(RunDeeds(shop, run), gun, n) && 0 < n <= m <= BAND
    ensures AllAllowed(shop, longer) && Juggling(RunDeeds(shop, longer), gun, m)
    decreases m - n
  {
    hide RunDeeds, AllAllowed, Juggling, Allowed, Do;
    if n == m {
      longer := run;
    } else {
      var k := RunDeeds(shop, run);
      MedkitDown(shop, k, gun, n);
      Extend(shop, run, Down());
      MedkitUp(shop, k, gun, n);
      Extend(shop, run + [Down()], Up());
      longer := Juggle(shop, run + [Down()] + [Up()], gun, n + 1, m);
    }
  }

  /** After 25536 boxes the first id is given out again, over the pistol that still lies there: it is gone. */
  lemma BoxOverwritten(shop: Shop) returns (run: seq<Deed>, d: Deed)
    requires Stocked(shop.cat) && USP in shop.cat && PlacementOf(shop.cat, USP) == Placement(SECONDARY, PISTOL_AMMO, true, false, false)
    ensures AllAllowed(shop, run) && Allowed(shop, RunDeeds(shop, run), d) && d.Dropping?
    ensures OnGround(RunDeeds(shop, run).ground, 1) && !OnGround(Do(shop, RunDeeds(shop, run), d).ground, 1)
  {
    hide RunDeeds, AllAllowed, PlacementOf, Stocked;
    var start, gun := Begin(shop);
    run := Juggle(shop, start, gun, 1, BAND);
    d := Dropping(2, AWAY, 0);
    Overlaid(shop, RunDeeds(shop, run), gun);
  }

  lemma Overlaid(shop: Shop, k: Kit, gun: Item)
    requires Juggling(k, gun, BAND)
    ensures var d := Dropping(2, AWAY, 0);
            && Allowed(shop, k, d) && OnGround(k.ground, 1) && !OnGround(Do(shop, k, d).ground, 1)
  {
    hide Strip;
    assert NthId(BAND) == BASE_ID;
    assert Lies(k.ground, BASE_ID, 0, 1);
  }

  /** Or the pistol is picked up just then, and the one carried falls into a box of the same id, which is
      deleted as the emptied one: it is nowhere. */
  lemma PistolVanishes(shop: Shop) returns (run: seq<Deed>, d: Deed)
    requires Stocked(shop.cat) && USP in shop.cat && PlacementOf(shop.cat, USP) == Placement(SECONDARY, PISTOL_AMMO, true, false, false)
    ensures AllAllowed(shop, run) && Allowed(shop, RunDeeds(shop, run), d) && d.PickingUp?
    ensures var k, k' := RunDeeds(shop, run), Do(shop, RunDeeds(shop, run), d);
            4 in k.bag.tracked && 4 !in k'.bag.tracked && !OnGround(k'.ground, 4)
  {
    hide RunDeeds, AllAllowed, PlacementOf, Stocked, InOrder, Pickup;
    var start, gun := Begin(shop);
    run := Juggle(shop, start, gun, 1, BAND);
    var k := RunDeeds(shop, run);
    RunKeeps(shop, run);
    BagAgrees(shop.cat, k);
    var dup := AnyStack(k.bag.tracked, USP, 1);
    d := PickingUp(1, 0, dup, AWAY, 0);
    LastPick(k, gun, dup);
    WeaponIsTracked(shop.cat, k.bag, SECONDARY);
    OustedGunStays(shop, k, 1, 0, dup, AWAY, 0);
  }

  lemma AnyStack(tracked: map<nat, Item>, data: nat, skip: nat) returns (dup: nat)
    requires 0 !in tracked
    ensures IsDup(tracked, data, skip, dup)
  {
    if u :| u in tracked && u != skip && tracked[u].data == data {
      dup := u;
    } else {
      dup := 0;
    }
  }

  lemma LastPick(k: Kit, gun: Item, dup: nat)
    requires Juggling(k, gun, BAND) && IsDup(k.bag.tracked, USP, 1, dup)
    ensures Possible(k, PickingUp(1, 0, dup, AWAY, 0)) && Ousts(k, 1) && Ousted(k, 1) == BOUGHT && Vanishes(k, 1, 0)
  {
    assert NthId(BAND) == BASE_ID;
    var g := k.ground;
    assert Lies(g, BASE_ID, 0, 1);
    forall a: nat, i: nat | Lies(g, a, i, 1) ensures a == BASE_ID && i == 0 {}
    assert Place(g, 1) == (BASE_ID, 0) && ItemOn(g, 1) == gun;
    assert Without([gun], 1) == [] by { assert [gun][..0] == []; }
  }
}
