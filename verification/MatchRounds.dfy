/** Where the HP rules end: the full HP for which they are safe in every run, with the runs that break them
    outside; and what a departure does to spectators and rescues. */
module MatchRounds {
  import opened Vitals
  import opened MatchState
  import opened MatchVitals

  // ---------------------------------------------------------------- the full HP

  lemma RunOneMore(w: World, run: seq<Event>, ev: Event)
    ensures Run(w, run + [ev]) == Step(Run(w, run), ev)
  {
    hide Step;
    assert (run + [ev])[..|run|] == run;
  }

  ghost predicate Starts(w: World, maxHP: nat) {
    Roster(w) && w == Initial(w.players, w.nextSlot, w.bot, maxHP)
  }

  const P1: Entity := 0x100_0001
  const P3: Entity := 0x100_0003
  const E3: Entity := 0x200_0003

  /** Two teammates against nobody. */
  function Pair(maxHP: nat): World {
    Initial([P1, P3], 3, 0, maxHP)
  }

  lemma Teams()
    ensures TeamOf(P1) == 1 && TeamOf(P3) == 1 && TeamOf(E3) == 2
    ensures Slot(P1) == 1 && Slot(P3) == 3 && Slot(E3) == 3
  {}

  lemma PairStarts(maxHP: nat)
    ensures Starts(Pair(maxHP), maxHP)
    ensures Pair(maxHP).players == [P1, P3] && Pair(maxHP).hp == map[P1 := maxHP, P3 := maxHP]
    ensures Pair(maxHP).life == map[P1 := Alive, P3 := Alive]
  {
    hide TeamOf, Slot;
    Teams();
  }

  lemma PairCounts(w: World)
    requires w.players == [P1, P3] && w.bot == 0 && LifeOf(w, P3) == Alive
    ensures TeamSize(w, 1) == 2 && TeamAlive(w, 1) > 0
  {
    hide TeamOf;
    Teams();
    assert [P1, P3][..1] == [P1] && [P1][..0] == [];
    assert CountTeam([P1], 1) == 1;
    assert CountTeam([P1, P3], 1) == 2;
    assert CountAlive(w, [P1, P3], 1) == CountAlive(w, [P1], 1) + 1;
  }

  lemma PairKnock(maxHP: nat)
    requires maxHP > 0
    ensures var w := Pair(maxHP);
            Step(w, Damage(P1, 0, maxHP, 0, [])) == KnockPlayer(w.(hp := w.hp[P1 := 0]), P1, 0, 0)
  {
    hide Initial, TeamOf, TeamSize, TeamAlive, KnockPlayer, SweepTeam, KillEntity;
    Teams();
    PairStarts(maxHP);
    var w := Pair(maxHP);
    var w1 := w.(hp := w.hp[P1 := 0]);
    KnockFields(w1, P1);
    assert w.bot == 0 && !w.roundOver by { PairQuiet(maxHP); }
    PairCounts(w1);
    PairCounts(KnockPlayer(w1, P1, 0, 0));
  }

  lemma PairQuiet(maxHP: nat)
    ensures Pair(maxHP).bot == 0 && !Pair(maxHP).roundOver && Pair(maxHP).rescues == map[]
    ensures Pair(maxHP).maxHP == maxHP && P1 in Pair(maxHP).sessions && Pair(maxHP).sessions[P1].energy == NO_ENERGY
  {}

  lemma KnockFields(w: World, e: Entity)
    ensures var w' := KnockPlayer(w, e, 0, 0);
            && w'.players == w.players && w'.bot == w.bot && w'.rescues == w.rescues && w'.maxHP == w.maxHP
            && w'.sessions == w.sessions
            && LifeOf(w', e) == Knocked && forall x :: x != e ==> LifeOf(w', x) == LifeOf(w, x)
  {}

  /** A revive restores 20 HP even where the full HP is less. */
  lemma SmallFullHPFails(maxHP: nat) returns (w: World, run: seq<Event>)
    requires 0 < maxHP < REVIVE_HP
    ensures Starts(w, maxHP) && Feasible(w, run) && !AllSound(Run(w, run))
  {
    hide Step, Feasible, Starts, Initial, KnockPlayer, Run;
    w := Pair(maxHP);
    PairStarts(maxHP);
    var e1, e2, e3 := Damage(P1, 0, maxHP, 0, []), RescueStart(P3, P1, 0), RescueTick(REVIVE_DURATION, [P1]);
    run := [e1, e2, e3];
    ThreeSteps(w, e1, e2, e3);
    PairKnock(maxHP);
    PairQuiet(maxHP);
    KnockFields(w.(hp := w.hp[P1 := 0]), P1);
    var w2 := Step(w, e1);
    RescueWorks(w2);
    var w4 := Step(Step(w2, e2), e3);
    assert Participates(w4, P1) && !Sound(w4, P1);
  }

  lemma RescueWorks(w: World)
    requires P1 in w.players && LifeOf(w, P1) == Knocked && LifeOf(w, P3) == Alive && w.rescues == map[]
    ensures var w' := Step(Step(w, RescueStart(P3, P1, 0)), RescueTick(REVIVE_DURATION, [P1]));
            && LifeOf(w', P1) == Alive && P1 in w'.hp && w'.hp[P1] == REVIVE_HP
            && w'.players == w.players && w'.maxHP == w.maxHP
  {
    hide TeamOf, StepRescue;
    Teams();
    RescueSingle(Step(w, RescueStart(P3, P1, 0)), REVIVE_DURATION, P1);
  }

  lemma RescueSingle(w: World, now: int, e: Entity)
    ensures StepRescue(w, now, [e]) == RescueOne(w, e, now)
  {
    assert [e][..0] == [];
    assert StepRescue(w, now, []) == w;
  }

  predicate Plain(ev: Event) {
    !ev.Arrival? && !ev.BotSpawn?
  }

  lemma ThreeSteps(w: World, a: Event, b: Event, c: Event)
    requires Plain(a) && Plain(b) && Plain(c)
    ensures Run(w, [a, b, c]) == Step(Step(Step(w, a), b), c) && Feasible(w, [a, b, c])
  {
    hide Step;
    RunOneMore(w, [], a);
    RunOneMore(w, [a], b);
    RunOneMore(w, [a, b], c);
    assert [] + [a] == [a] && [a] + [b] == [a, b] && [a, b] + [c] == [a, b, c];
    assert Run(w, []) == w;
  }

  /** Above the bound a mushroom tick can leave 16 bits and kill a living player. */
  lemma LargeFullHPFails(maxHP: nat) returns (w: World, run: seq<Event>)
    requires MAX_SAFE_HP < maxHP <= 0xFFFF
    ensures Starts(w, maxHP) && Feasible(w, run) && !AllSound(Run(w, run))
  {
    hide Step, Feasible, Starts, Initial, Run;
    w := Pair(maxHP);
    PairStarts(maxHP);
    PairQuiet(maxHP);
    var e1, m, e4 := Damage(P1, 0, maxHP - MAX_SAFE_HP, 0, []), MushroomBuy(P1, 0), EnergyOne(P1, MAX_EP * EP_INTERVAL);
    run := [e1, m, m] + [e4];
    ThreeSteps(w, e1, m, m);
    RunOneMore(w, [e1, m, m], e4);
    FeasibleOneMore(w, [e1, m, m], e4);
    Scratch(w, maxHP);
    var w3 := Step(Step(Step(w, e1), m), m);
    TwoMushrooms(Step(w, e1));
    var w4 := Step(w3, e4);
    OverflowingTick(w3);
    assert Participates(w4, P1) && !Sound(w4, P1);
  }

  lemma Scratch(w: World, maxHP: nat)
    requires MAX_SAFE_HP < maxHP && P1 in w.hp && w.hp[P1] == maxHP && LifeOf(w, P1) == Alive && !w.roundOver
    ensures Step(w, Damage(P1, 0, maxHP - MAX_SAFE_HP, 0, [])) == w.(hp := w.hp[P1 := MAX_SAFE_HP])
  {}

  lemma TwoMushrooms(w: World)
    requires P1 in w.sessions && w.sessions[P1].energy == NO_ENERGY
    ensures var w' := Step(Step(w, MushroomBuy(P1, 0)), MushroomBuy(P1, 0));
            && w' == w.(sessions := w'.sessions) && P1 in w'.sessions
            && w'.sessions[P1].energy == Energy(MAX_EP, 0, 2)
  {}

  lemma OverflowingTick(w: World)
    requires P1 in w.sessions && w.sessions[P1].energy == Energy(MAX_EP, 0, 2) && LifeOf(w, P1) == Alive
    requires P1 in w.hp && w.hp[P1] == MAX_SAFE_HP < w.maxHP <= 0xFFFF
    ensures var w' := Step(w, EnergyOne(P1, MAX_EP * EP_INTERVAL));
            LifeOf(w', P1) == Alive && P1 in w'.hp && w'.hp[P1] == 0 && w'.players == w.players
  {
    hide Div;
    assert Div(MAX_EP * EP_INTERVAL - 0, EP_INTERVAL) == MAX_EP by { FullBar(); }
    assert Wrap16(MAX_EP) == MAX_EP && Wrap16(MAX_SAFE_HP + MAX_EP) == 0;
  }

  lemma FullBar()
    ensures Div(MAX_EP * EP_INTERVAL, EP_INTERVAL) == MAX_EP
  {}

  lemma FeasibleOneMore(w: World, run: seq<Event>, ev: Event)
    requires Feasible(w, run) && Plain(ev)
    ensures Feasible(w, run + [ev])
  {
    hide Step;
    forall n | 0 <= n < |run + [ev]| ensures Enabled(Run(w, (run + [ev])[..n]), (run + [ev])[n]) {
      if n < |run| {
        assert (run + [ev])[..n] == run[..n];
        assert Enabled(Run(w, run[..n]), run[n]);
      }
    }
  }

  /** A full HP is safe in every run exactly when it lies between 20 and 65336. */
  lemma FullHPBounds(maxHP: nat)
    requires 0 < maxHP <= 0xFFFF
    ensures (forall w: World, run: seq<Event> :: Starts(w, maxHP) && Feasible(w, run) ==> AllSound(Run(w, run)))
       <==> SafeMaxHP(maxHP)
  {
    hide AllSound, Starts, Feasible, Run;
    if SafeMaxHP(maxHP) {
      forall w: World, run: seq<Event> | Starts(w, maxHP) && Feasible(w, run) ensures AllSound(Run(w, run)) {
        StartIsInvariant(w, maxHP);
        RunKeeps(w, run);
        InvariantIsSound(Run(w, run));
      }
    } else if maxHP < REVIVE_HP {
      var w, run := SmallFullHPFails(maxHP);
    } else {
      var w, run := LargeFullHPFails(maxHP);
    }
  }

  lemma StartIsInvariant(w: World, maxHP: nat)
    requires Starts(w, maxHP) && maxHP > 0
    ensures Invariant(w) && w.maxHP == maxHP
  {
    hide Invariant, Roster;
    InitialInvariant(w.players, w.nextSlot, w.bot, maxHP);
  }

  lemma InvariantIsSound(w: World)
    requires Invariant(w)
    ensures AllSound(w)
  {}

  // ---------------------------------------------------------------- departures

  lemma {:induction false} FirstAliveIsAlive(w: World, i: nat, team: nat, except: Entity)
    requires i <= |w.players|
    ensures var r := FirstAliveFrom(w, i, team, except);
            r != 0 ==> Participates(w, r) && LifeOf(w, r) == Alive && r != except
    decreases |w.players| - i
  {
    hide TeamOf;
    if i < |w.players| {
      FirstAliveIsAlive(w, i + 1, team, except);
    }
  }

  /** Right after a player left, nobody watches it. */
  lemma NobodyWatchesLeaver(w: World, e: Entity)
    requires Roster(w) && e in w.players
    ensures forall p :: p in RemovePlayer(w, e).sessions ==> RemovePlayer(w, e).sessions[p].observing != e
  {
    hide SpectateFor, TeamOf, Slot;
    DropMembers(w.players, e);
    BotIsNoPlayer(w);
    NoZero(w, e);
    var w1 := Gone(w, e);
    forall p | p in w1.sessions ensures NextTarget(w1, p, 0) != e {
      TargetTakesPart(w1, p);
    }
  }

  lemma NoZero(w: World, e: Entity)
    requires Roster(w) && e in w.players
    ensures e != 0
  {}

  lemma TargetTakesPart(w: World, p: Entity)
    ensures SpectateFor(w, p) != 0 ==> Participates(w, SpectateFor(w, p)) && LifeOf(w, SpectateFor(w, p)) == Alive
    ensures SpectateFor(w, p) != 0 ==> SpectateFor(w, p) != p
  {
    FirstAliveIsAlive(w, 0, TeamOf(p), p);
    FirstAliveIsAlive(w, 0, OtherTeam(TeamOf(p)), p);
  }

  /** A departure moves spectators and drops the leaver, and nothing else. */
  lemma DepartureFrame(w: World, e: Entity)
    requires e in w.players
    ensures OnlyObserving(Gone(w, e), RemovePlayer(w, e))
  {
    RepointOnlyObserving(Gone(w, e), e, 0);
  }

  lemma RescueOutcome(w: World, target: Entity, now: int)
    requires target in w.rescues && LifeOf(w, target) == Knocked
    ensures LifeOf(RescueOne(w, target, now), target) == Alive
       <==> LifeOf(w, w.rescues[target].reviver) == Alive && now >= w.rescues[target].completeAt
  {}

  /** A rescue outlives its reviver. While the reviver stays, the target stands up when the time is over
      and the reviver is alive; once it has left it reads as alive, whatever it was, and only the time
      counts. */
  lemma DepartedReviverRevives(w: World, e: Entity, target: Entity, now: int)
    requires e in w.players && e != target && LifeOf(w, target) == Knocked
    requires target in w.rescues && w.rescues[target].reviver == e
    ensures LifeOf(RescueOne(w, target, now), target) == Alive
       <==> LifeOf(w, e) == Alive && now >= w.rescues[target].completeAt
    ensures LifeOf(RescueOne(RemovePlayer(w, e), target, now), target) == Alive <==> now >= w.rescues[target].completeAt
  {
    hide RescueOne, RemovePlayer, Drop;
    DepartureFrame(w, e);
    RescueOutcome(w, target, now);
    RescueOutcome(RemovePlayer(w, e), target, now);
  }
}
