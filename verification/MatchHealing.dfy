/** What medkits and mushrooms do for a player in a match: over every run of ticks, however they are timed. */
module MatchHealing {
  import opened Vitals
  import opened MatchState
  import opened MatchVitals

  /** A living player of the match, with a full HP that no step leaves. */
  ghost predicate Up(w: World, p: Entity) {
    && Invariant(w) && p in w.players && LifeOf(w, p) == Alive && SafeMaxHP(w.maxHP)
  }

  /** Only this player's heal record, energy and HP may differ. */
  ghost predicate OnlyThis(w: World, w': World, p: Entity) {
    && p in w.sessions && p in w.hp && p in w'.sessions && p in w'.hp
    && w' == w.(sessions := w.sessions[p := w.sessions[p].(heal := w'.sessions[p].heal, energy := w'.sessions[p].energy)],
                hp := w.hp[p := w'.hp[p]])
  }

  lemma Fields(w: World, p: Entity)
    requires Up(w, p)
    ensures p in w.sessions && p in w.hp && 0 < w.hp[p] <= w.maxHP && w.sessions[p].energy.ep <= MAX_EP
    ensures HPOf(w, p) == w.hp[p] && OnlyThis(w, w, p)
  {
    hide Roster, Tracked;
    PlayerSession(w, p);
    assert Participates(w, p) && Sound(w, p);
    assert w.sessions[p := w.sessions[p]] == w.sessions && w.hp[p := w.hp[p]] == w.hp;
  }

  lemma PlayerSession(w: World, p: Entity)
    requires Roster(w) && p in w.players
    ensures p in w.sessions
  {}

  lemma StaysUp(w: World, w': World, p: Entity)
    requires Up(w, p) && Invariant(w') && OnlyThis(w, w', p)
    ensures Up(w', p)
  {
    hide Invariant;
  }

  lemma Twice(w: World, w1: World, w2: World, p: Entity)
    requires OnlyThis(w, w1, p) && OnlyThis(w1, w2, p)
    ensures OnlyThis(w, w2, p)
  {
    assert w.sessions[p := w1.sessions[p]][p := w2.sessions[p]] == w.sessions[p := w2.sessions[p]];
    assert w.hp[p := w1.hp[p]][p := w2.hp[p]] == w.hp[p := w2.hp[p]];
  }

  // ---------------------------------------------------------------- medkits

  lemma OneHeal(w: World, p: Entity, now: int)
    requires Up(w, p)
    ensures var w' := Step(w, HealOne(p, now));
            && OnlyThis(w, w', p) && Up(w', p) && w'.sessions[p].energy == w.sessions[p].energy
            && (w'.sessions[p].heal, w'.hp[p]) == HealTick(w.sessions[p].heal, w.hp[p], true, w.maxHP, now)
  {
    hide Invariant, HealTick;
    Fields(w, p);
    StepKeeps(w, HealOne(p, now));
    NoStepNoHP(w.sessions[p].heal, w.hp[p], w.maxHP, now);
    var w' := Step(w, HealOne(p, now));
    SameFields(w, w', p);
    StaysUp(w, w', p);
  }

  lemma NoStepNoHP(h: Heal, hp: nat, maxHP: nat, now: int)
    ensures var t := HealTick(h, hp, true, maxHP, now);
            (t.0.applied == h.applied ==> t.1 == hp) && (!h.active ==> t == (h, hp))
  {
    hide Div;
  }

  lemma SameFields(w: World, w': World, p: Entity)
    requires p in w.sessions && p in w.hp && p in w'.sessions && p in w'.hp
    requires w' == w.(sessions := w'.sessions, hp := w'.hp)
    requires w'.sessions == w.sessions || w'.sessions == w.sessions[p := w.sessions[p].(heal := w'.sessions[p].heal)]
             || w'.sessions == w.sessions[p := w.sessions[p].(energy := w'.sessions[p].energy)]
    requires w'.hp == w.hp || w'.hp == w.hp[p := w'.hp[p]]
    ensures OnlyThis(w, w', p)
  {
    assert w.sessions[p := w.sessions[p]] == w.sessions && w.hp[p := w.hp[p]] == w.hp;
  }

  function HealEvents(p: Entity, ticks: seq<int>): (run: seq<Event>)
    ensures |run| == |ticks|
  {
    seq(|ticks|, i requires 0 <= i < |ticks| => HealOne(p, ticks[i]))
  }

  lemma {:induction false} HealRun(w: World, p: Entity, ticks: seq<int>)
    requires Up(w, p)
    ensures var w' := Run(w, HealEvents(p, ticks));
            && OnlyThis(w, w', p) && Up(w', p) && w'.sessions[p].energy == w.sessions[p].energy
            && (w'.sessions[p].heal, w'.hp[p]) == HealTicks(w.sessions[p].heal, w.hp[p], w.maxHP, ticks)
  {
    hide Step, Up, HealTick;
    Fields(w, p);
    if |ticks| > 0 {
      var init, now := ticks[..|ticks| - 1], ticks[|ticks| - 1];
      HealRun(w, p, init);
      assert HealEvents(p, ticks)[..|ticks| - 1] == HealEvents(p, init);
      var w1 := Run(w, HealEvents(p, init));
      OneHeal(w1, p, now);
      Twice(w, w1, Step(w1, HealOne(p, now)), p);
    }
  }

  /** A medkit finished at the given time has given the player one HP every 66666666 nanoseconds by the last
      tick, 75 at most and never over the full HP, whatever the ticks in between; five seconds are enough. */
  lemma MedkitHeals(w: World, p: Entity, start: int, ticks: seq<int>)
    requires Up(w, p) && Ordered(ticks) && |ticks| > 0 && start <= ticks[|ticks| - 1] && w.maxHP + 75 <= 0xFFFF
    ensures var w' := Run(Step(w, Medkit(p, start)), HealEvents(p, ticks));
            var passed := ticks[|ticks| - 1] - start;
            && OnlyThis(w, w', p)
            && w'.hp[p] == Min(w.maxHP, w.hp[p] + Min(75, passed / 66_666_666))
            && (passed >= 5_000_000_000 ==> w'.hp[p] == Min(w.maxHP, w.hp[p] + 75))
  {
    hide Up, HealTicks, Run, HealEvents, Invariant;
    Armed(w, p, start);
    var w1 := Step(w, Medkit(p, start));
    HealRun(w1, p, ticks);
    Twice(w, w1, Run(w1, HealEvents(p, ticks)), p);
    Fields(w, p);
    UpIsSafe(w, p);
    MedkitGives(w.hp[p], w.maxHP, start, ticks);
  }

  lemma UpIsSafe(w: World, p: Entity)
    requires Up(w, p)
    ensures 0 < w.maxHP <= MAX_SAFE_HP
  {
    hide Invariant;
  }

  lemma Armed(w: World, p: Entity, start: int)
    requires Up(w, p)
    ensures var w' := Step(w, Medkit(p, start));
            && OnlyThis(w, w', p) && Up(w', p) && p in w.hp && w'.hp[p] == w.hp[p] && w'.maxHP == w.maxHP
            && w'.sessions[p].heal == Heal(true, start, 0)
  {
    hide Invariant;
    Fields(w, p);
    StepKeeps(w, Medkit(p, start));
    var w' := Step(w, Medkit(p, start));
    SameFields(w, w', p);
    StaysUp(w, w', p);
  }

  // ---------------------------------------------------------------- mushrooms

  lemma OneFeed(w: World, p: Entity, now: int)
    requires Up(w, p)
    ensures var w' := Step(w, EnergyOne(p, now));
            && OnlyThis(w, w', p) && Up(w', p) && w'.sessions[p].heal == w.sessions[p].heal
            && (w'.sessions[p].energy, w'.hp[p]) == EnergyTick(w.sessions[p].energy, w.hp[p], true, w.maxHP, now)
  {
    hide Invariant, Div, Wrap16;
    Fields(w, p);
    StepKeeps(w, EnergyOne(p, now));
    NoChangeNoGain(w.sessions[p].energy, w.hp[p], w.maxHP, now);
    var w' := Step(w, EnergyOne(p, now));
    SameFields(w, w', p);
    StaysUp(w, w', p);
  }

  lemma NoChangeNoGain(e: Energy, hp: nat, maxHP: nat, now: int)
    requires hp <= maxHP <= MAX_SAFE_HP && e.ep <= MAX_EP
    ensures var t := EnergyTick(e, hp, true, maxHP, now); t.0.ep == e.ep ==> t.1 == hp
  {
    hide Div;
    SmallWrap(hp);
  }

  function FeedEvents(p: Entity, ticks: seq<int>): (run: seq<Event>)
    ensures |run| == |ticks|
  {
    seq(|ticks|, i requires 0 <= i < |ticks| => EnergyOne(p, ticks[i]))
  }

  lemma {:induction false} FeedRun(w: World, p: Entity, ticks: seq<int>)
    requires Up(w, p)
    ensures var w' := Run(w, FeedEvents(p, ticks));
            && OnlyThis(w, w', p) && Up(w', p) && w'.sessions[p].heal == w.sessions[p].heal
            && (w'.sessions[p].energy, w'.hp[p]) == EnergyTicks(w.sessions[p].energy, w.hp[p], w.maxHP, ticks)
  {
    hide Step, Up, EnergyTick;
    Fields(w, p);
    if |ticks| > 0 {
      var init, now := ticks[..|ticks| - 1], ticks[|ticks| - 1];
      FeedRun(w, p, init);
      assert FeedEvents(p, ticks)[..|ticks| - 1] == FeedEvents(p, init);
      var w1 := Run(w, FeedEvents(p, init));
      OneFeed(w1, p, now);
      Twice(w, w1, Step(w1, EnergyOne(p, now)), p);
    }
  }

  /** A mushroom bought at the given time fills up the energy by a hundred, to two hundred at most, and it has
      become one HP every quarter of a second by the last tick, until it was used up or the HP were full. */
  lemma MushroomFeeds(w: World, p: Entity, now: int, ticks: seq<int>)
    requires Up(w, p) && Ordered(ticks) && |ticks| > 0 && now <= ticks[|ticks| - 1]
    requires p in w.sessions && ShortGaps(Mushroom(w.sessions[p].energy, now), ticks)
    ensures var w' := Run(Step(w, MushroomBuy(p, now)), FeedEvents(p, ticks));
            var ep := if w.sessions[p].energy.ep <= 100 then w.sessions[p].energy.ep + 100 else 200;
            && OnlyThis(w, w', p)
            && var gain := Min(Min(ep, w.maxHP - w.hp[p]), (ticks[|ticks| - 1] - now) / 250_000_000);
               w'.hp[p] == w.hp[p] + gain && w'.sessions[p].energy.ep == ep - gain
  {
    hide Up, EnergyTicks, Run, FeedEvents, Invariant, ShortGaps;
    Fed(w, p, now);
    var w1 := Step(w, MushroomBuy(p, now));
    FeedRun(w1, p, ticks);
    Twice(w, w1, Run(w1, FeedEvents(p, ticks)), p);
    Fields(w, p);
    UpIsSafe(w, p);
    MushroomGives(w.sessions[p].energy, now, w.hp[p], w.maxHP, ticks);
  }

  lemma Fed(w: World, p: Entity, now: int)
    requires Up(w, p)
    ensures var w' := Step(w, MushroomBuy(p, now));
            && OnlyThis(w, w', p) && Up(w', p) && p in w.hp && w'.hp[p] == w.hp[p] && w'.maxHP == w.maxHP
            && w'.sessions[p].energy == Mushroom(w.sessions[p].energy, now)
  {
    hide Invariant, Mushroom;
    Fields(w, p);
    StepKeeps(w, MushroomBuy(p, now));
    var w' := Step(w, MushroomBuy(p, now));
    SameFields(w, w', p);
    StaysUp(w, w', p);
  }
}
