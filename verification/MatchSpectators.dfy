/** Spectating in a match of humans: whoever watches someone is dead, and while anybody is up no watched
    player is dead, through chains of deaths, the sweep of a wiped team, arrivals, departures and rescues;
    with the exact condition on those that put somebody on their feet. */
module MatchSpectators {
  import opened Vitals
  import opened MatchState
  import opened MatchVitals
  import opened MatchRounds

  ghost predicate SomeoneUp(w: World) {
    exists e :: e in w.players && LifeOf(w, e) == Alive
  }

  ghost predicate Spectating(w: World) {
    forall p :: p in w.sessions && w.sessions[p].observing != 0 ==>
      && LifeOf(w, p) == Dead
      && w.sessions[p].observing in w.players
      && (SomeoneUp(w) ==> LifeOf(w, w.sessions[p].observing) != Dead)
  }

  /** There is no bot and no record of one. */
  ghost predicate Humans(w: World) {
    w.bot == 0 && BOT !in w.hp && BOT !in w.knock && BOT !in w.life
  }

  ghost predicate Watched(w: World) {
    Humans(w) && Spectating(w)
  }

  // ---------------------------------------------------------------- a death

  lemma {:induction false} NobodyFrom(w: World, i: nat, team: nat, except: Entity, e: Entity)
    requires i <= |w.players| && FirstAliveFrom(w, i, team, except) == 0
    requires e in w.players[i..] && e != except && 0 !in w.players
    ensures TeamOf(e) != team || LifeOf(w, e) != Alive
    decreases |w.players| - i
  {
    hide TeamOf;
    if e != w.players[i] {
      assert w.players[i..][1..] == w.players[i + 1..];
      NobodyFrom(w, i + 1, team, except, e);
    }
  }

  /** Nobody to watch means nobody is up. */
  lemma NobodyToWatch(w: World, victim: Entity)
    requires Roster(w) && victim in w.players && LifeOf(w, victim) == Dead && SpectateFor(w, victim) == 0
    ensures !SomeoneUp(w)
  {
    hide Slot, FirstAliveFrom;
    assert 0 !in w.players;
    forall e | e in w.players ensures LifeOf(w, e) != Alive {
      if e != victim {
        assert e in w.players[0..];
        NobodyFrom(w, 0, TeamOf(victim), victim, e);
        NobodyFrom(w, 0, OtherTeam(TeamOf(victim)), victim, e);
      }
    }
  }

  /** The spectators after a death, whatever else the death changes. */
  lemma DeathWatched(w: World, w1: World, e: Entity)
    requires Watched(w) && Humans(w1) && Roster(w1) && e in w.players && LifeOf(w, e) != Dead
    requires w1.players == w.players && w1.sessions == w.sessions
    requires LifeOf(w1, e) == Dead && forall x :: x != e ==> LifeOf(w1, x) == LifeOf(w, x)
    ensures Watched(EmitDeath(w1, e, Observed(w1, e)))
  {
    hide SpectateFor, Roster;
    var o := SpectateFor(w1, e);
    assert Observed(w1, e) == o;
    TargetTakesPart(w1, e);
    EmitDeathOnlyObserving(w1, e, o);
    if o == 0 {
      NobodyToWatch(w1, e);
      assert !SomeoneUp(w1);
    } else {
      WatchersFollow(w1, e, o);
      NoZero(w1, e);
      FollowedWatched(w, w1, EmitDeath(w1, e, o), e, o);
    }
  }

  lemma FollowedWatched(w: World, w1: World, w2: World, e: Entity, o: Entity)
    requires Watched(w) && LifeOf(w, e) != Dead && e in w.players && e != 0
    requires w1.players == w.players && Humans(w1) && w1.sessions == w.sessions && OnlyObserving(w1, w2)
    requires LifeOf(w1, e) == Dead && forall x :: x != e ==> LifeOf(w1, x) == LifeOf(w, x)
    requires o in w.players && LifeOf(w1, o) == Alive
    requires forall p :: p in w.sessions ==>
      w2.sessions[p].observing == if p == e || w.sessions[p].observing == e then o else w.sessions[p].observing
    ensures Watched(w2)
  {
    assert forall x :: LifeOf(w2, x) == LifeOf(w1, x);
    assert LifeOf(w, o) == Alive;
    assert SomeoneUp(w);
    forall p | p in w2.sessions && w2.sessions[p].observing != 0
      ensures LifeOf(w2, p) == Dead && w2.sessions[p].observing in w.players && LifeOf(w2, w2.sessions[p].observing) != Dead
    {
      assert p in w1.sessions.Keys;
    }
  }

  /** Everyone who watched the victim, and the victim, watches its new focus. */
  lemma WatchersFollow(w: World, e: Entity, o: Entity)
    requires o != 0 && LifeOf(w, o) == Alive
    ensures var w' := EmitDeath(w, e, o);
            && w'.sessions.Keys == w.sessions.Keys
            && forall p :: p in w.sessions ==>
                 w'.sessions[p].observing == if p == e || w.sessions[p].observing == e then o else w.sessions[p].observing
  {
    hide SpectateFor;
    var w1 := if e in w.sessions then w.(sessions := w.sessions[e := w.sessions[e].(observing := o)]) else w;
    assert LifeOf(w1, o) == Alive;
  }

  lemma KillWatched(w: World, e: Entity, killer: Entity)
    requires Watched(w) && Roster(w) && e in w.players && LifeOf(w, e) != Dead
    ensures Watched(KillEntity(w, e, killer))
  {
    hide EmitDeath, Observed, CreditDeath, Watched;
    NoBotRecords(w);
    BotIsNoPlayer(w);
    CreditFrame(w, e, killer);
    DeathWatched(w, Bury(w, e, killer), e);
  }

  lemma FinalizeWatched(w: World, e: Entity)
    requires Watched(w) && Roster(w) && e in w.players && e in w.knock && LifeOf(w, e) != Dead
    ensures Watched(FinalizeKnock(w, e))
  {
    hide EmitDeath, Observed, CreditDeath, Watched;
    NoBotRecords(w);
    BotIsNoPlayer(w);
    CreditFrame(w, e, w.knock[e].killer);
    var w1 := Bury(w, e, w.knock[e].killer);
    DeathWatched(w, w1.(knock := w1.knock - {e}, rescues := w1.rescues - {e}), e);
  }

  // ---------------------------------------------------------------- everything else

  /** No death, no new spectator, and nobody stands up unless somebody is up. */
  ghost predicate Still(w: World, w': World) {
    && w'.players == w.players && w'.bot == w.bot && w'.sessions.Keys == w.sessions.Keys
    && (forall p :: p in w.sessions ==> w'.sessions[p].observing == w.sessions[p].observing)
    && (forall e :: LifeOf(w', e) == Dead <==> LifeOf(w, e) == Dead)
    && (SomeoneUp(w') ==> SomeoneUp(w))
    && (Humans(w) ==> Humans(w'))
  }

  lemma StillWatched(w: World, w': World)
    requires Watched(w) && Still(w, w')
    ensures Watched(w')
  {
    hide SomeoneUp;
  }

  lemma KnockedPlayer(w: World, e: Entity)
    requires Invariant(w) && Watched(w) && e in w.knock
    ensures Roster(w) && e in w.players && LifeOf(w, e) == Knocked
  {
    hide Roster, Bounded;
    assert Participates(w, e);
    assert Sound(w, e);
  }

  lemma {:induction false} SweepWatched(w: World, team: nat, order: seq<Entity>)
    requires Invariant(w) && Watched(w)
    ensures Watched(SweepTeam(w, team, order))
  {
    hide FinalizeKnock, TeamOf, Invariant, Watched, Roster;
    if |order| > 0 {
      var init, e := order[..|order| - 1], order[|order| - 1];
      SweepWatched(w, team, init);
      SweepKeeps(w, team, init);
      var w1 := SweepTeam(w, team, init);
      if e in w1.knock && TeamOf(e) == team && LifeOf(w1, e) == Knocked {
        KnockedPlayer(w1, e);
        FinalizeWatched(w1, e);
      }
    }
  }

  lemma DownOrKillWatched(w: World, victim: Entity, attacker: Entity, now: int, order: seq<Entity>)
    requires Watched(w) && Roster(w) && victim in w.players && LifeOf(w, victim) == Alive
    requires TeamSize(w, TeamOf(victim)) > 1 ==> Invariant(KnockPlayer(w, victim, attacker, now))
    ensures Watched(DownOrKill(w, victim, attacker, now, order))
  {
    hide KillEntity, KnockPlayer, SweepTeam, TeamSize, TeamAlive, TeamOf, Roster, Watched, Invariant;
    var team := TeamOf(victim);
    if TeamSize(w, team) <= 1 {
      KillWatched(w, victim, attacker);
    } else {
      var w1 := KnockPlayer(w, victim, attacker, now);
      KnockStill(w, victim, attacker, now);
      StillWatched(w, w1);
      if TeamAlive(w1, team) == 0 {
        SweepWatched(w1, team, order);
        FellWatched(SweepTeam(w1, team, order), team);
      }
    }
  }

  lemma KnockStill(w: World, victim: Entity, attacker: Entity, now: int)
    requires Watched(w) && Roster(w) && victim in w.players && LifeOf(w, victim) == Alive
    ensures Still(w, KnockPlayer(w, victim, attacker, now))
  {
    hide Roster;
    BotIsNoPlayer(w);
  }

  lemma FellWatched(w: World, team: nat)
    requires Watched(w)
    ensures Watched(w.(lastTeamFell := team))
  {
    assert Still(w, w.(lastTeamFell := team));
  }

  lemma KnockInvariant(w: World, victim: Entity, attacker: Entity, now: int)
    requires Invariant(w) && victim in w.hp
    ensures Invariant(KnockPlayer(w.(hp := w.hp[victim := 0]), victim, attacker, now))
  {
    hide KnockPlayer, Roster, Tracked, Bounded, AllSound, SoundBut, Sound;
    var w1 := w.(hp := w.hp[victim := 0]);
    assert SameBut(w, w1, victim);
    SoundImpliesBut(w, victim);
    SameButKeeps(w, w1, victim);
    KnockKeeps(w1, victim, attacker, now);
  }

  lemma HPStill(w: World, hp: map<Entity, nat>, knock: map<Entity, Knock>)
    requires Watched(w) && BOT !in hp && BOT !in knock
    ensures Watched(w.(hp := hp)) && Watched(w.(hp := hp, knock := knock))
  {
    assert Still(w, w.(hp := hp)) && Still(w, w.(hp := hp, knock := knock));
    StillWatched(w, w.(hp := hp));
    StillWatched(w, w.(hp := hp, knock := knock));
  }

  lemma NoBotRecords(w: World)
    requires Watched(w)
    ensures w.bot == 0 && BOT !in w.hp && BOT !in w.knock && BOT !in w.life
  {}

  lemma DamageWatched(w: World, victim: Entity, attacker: Entity, dmg: nat, now: int, order: seq<Entity>)
    requires Invariant(w) && Watched(w)
    ensures Watched(ApplyDamage(w, victim, attacker, dmg, now, order))
  {
    hide DamageKnocked, DownOrKill, Invariant, Watched, KnockPlayer, TeamSize, TeamOf;
    NoBotRecords(w);
    if w.roundOver {
    } else if LifeOf(w, victim) == Knocked {
      DamageKnockedWatched(w, victim, dmg);
    } else if LifeOf(w, victim) == Alive && victim in w.hp && w.hp[victim] > 0 {
      var cur := if dmg >= w.hp[victim] then 0 else w.hp[victim] - dmg;
      var w1 := w.(hp := w.hp[victim := cur]);
      HPStill(w, w1.hp, w1.knock);
      if cur == 0 {
        Victim(w, victim);
        KnockInvariant(w, victim, attacker, now);
        DownOrKillWatched(w1, victim, attacker, now, order);
      }
    }
  }

  lemma Victim(w: World, victim: Entity)
    requires Invariant(w) && Watched(w) && victim in w.hp
    ensures victim in w.players && Roster(w) && Roster(w.(hp := w.hp[victim := 0]))
  {
    hide TeamOf, Slot;
  }

  lemma DamageKnockedWatched(w: World, victim: Entity, dmg: nat)
    requires Invariant(w) && Watched(w)
    ensures Watched(DamageKnocked(w, victim, dmg))
  {
    hide FinalizeKnock, Watched, Invariant, Roster;
    NoBotRecords(w);
    if victim in w.knock {
      var ks := w.knock[victim];
      var hp := if dmg >= ks.hp then 0 else ks.hp - dmg;
      var w1 := w.(knock := w.knock[victim := ks.(hp := hp)], hp := w.hp[victim := hp]);
      HPStill(w, w1.hp, w1.knock);
      KnockedPlayer(w, victim);
      if dmg >= ks.hp {
        RosterStays(w, w1);
        FinalizeWatched(w1, victim);
      }
    }
  }

  lemma RosterStays(w: World, w': World)
    requires Roster(w) && w'.players == w.players && w'.sessions == w.sessions && w'.bot == w.bot
    requires w'.nextSlot == w.nextSlot
    ensures Roster(w')
  {}

  lemma BleedOneWatched(w: World, e: Entity, now: int)
    requires Invariant(w) && Watched(w)
    ensures Watched(BleedOne(w, e, now))
  {
    hide FinalizeKnock, Watched, Invariant, Roster;
    NoBotRecords(w);
    if e in w.knock && now >= w.knock[e].deadline {
      KnockedPlayer(w, e);
      var w1 := w.(knock := w.knock[e := w.knock[e].(deadline := w.knock[e].deadline + BLEED_EVERY)]);
      HPStill(w, w.hp, w1.knock);
      assert w1 == w.(hp := w.hp, knock := w1.knock);
      if w.knock[e].hp <= BLEED_AMOUNT {
        RosterStays(w, w1);
        FinalizeWatched(w1, e);
      } else {
        var w2 := BleedOne(w, e, now);
        HPStill(w, w2.hp, w2.knock);
      }
    }
  }

  lemma {:induction false} StepKnockWatched(w: World, now: int, order: seq<Entity>)
    requires Invariant(w) && Watched(w)
    ensures Watched(StepKnock(w, now, order))
  {
    hide Invariant, Watched, BleedOne;
    if |order| > 0 {
      StepKnockWatched(w, now, order[..|order| - 1]);
      StepKnockKeeps(w, now, order[..|order| - 1]);
      BleedOneWatched(StepKnock(w, now, order[..|order| - 1]), order[|order| - 1], now);
    }
  }

  // ---------------------------------------------------------------- rescues

  /** A rescue that completes: an absent reviver reads as alive. */
  ghost predicate Completes(w: World, target: Entity, now: int) {
    && target in w.rescues && LifeOf(w, target) == Knocked
    && LifeOf(w, w.rescues[target].reviver) == Alive && now >= w.rescues[target].completeAt
  }

  ghost predicate Raises(w: World, now: int, order: seq<Entity>) {
    exists t :: t in order && Completes(w, t, now)
  }

  /** Nobody who may stand up turns a watched dead player into a broken promise. */
  ghost predicate MayStandUp(w: World) {
    SomeoneUp(w) || NobodyWatchesDead(w)
  }

  ghost predicate NobodyWatchesDead(w: World) {
    forall p :: p in w.sessions && w.sessions[p].observing != 0 ==> LifeOf(w, w.sessions[p].observing) != Dead
  }

  /** One visit changes nothing but the record, or puts the target on its feet. */
  lemma RescueOneEffect(w: World, target: Entity, now: int)
    ensures Visited(w, RescueOne(w, target, now), target, Completes(w, target, now))
    ensures Humans(w) && LifeOf(w, BOT) != Knocked ==> Humans(RescueOne(w, target, now))
  {
    hide Visited, CompleteRescue;
    SameVisited(w, target);
    DroppedVisited(w, target);
    if Completes(w, target, now) {
      CompletedVisited(w, target);
    }
  }

  ghost predicate Visited(w: World, w': World, target: Entity, raised: bool) {
    && w'.players == w.players && w'.sessions == w.sessions && w'.bot == w.bot
    && (forall e :: LifeOf(w', e) == if e == target && raised then Alive else LifeOf(w, e))
    && (forall t :: t in w'.rescues ==> t in w.rescues && w'.rescues[t] == w.rescues[t])
    && (forall t :: t in w.rescues && t != target ==> t in w'.rescues)
  }

  lemma SameVisited(w: World, target: Entity)
    ensures Visited(w, w, target, false)
  {}

  lemma DroppedVisited(w: World, target: Entity)
    ensures Visited(w, w.(rescues := w.rescues - {target}), target, false)
  {}

  lemma CompletedVisited(w: World, target: Entity)
    ensures var w' := CompleteRescue(w.(rescues := w.rescues - {target}), target);
            Visited(w, w', target, true) && (Humans(w) && target != BOT ==> Humans(w'))
  {}

  /** What a rescue tick comes to, whatever order the records are visited in. */
  ghost predicate Ticked(w: World, w': World, now: int, order: seq<Entity>) {
    && w'.players == w.players && w'.sessions == w.sessions && w'.bot == w.bot && Humans(w')
    && (forall e :: LifeOf(w', e) == Dead <==> LifeOf(w, e) == Dead)
    && (forall e :: LifeOf(w, e) == Alive ==> LifeOf(w', e) == Alive)
    && (Raises(w, now, order) ==> SomeoneUp(w'))
    && (!Raises(w, now, order) ==>
          && (forall e :: LifeOf(w', e) == LifeOf(w, e))
          && (forall t :: t in w'.rescues ==> t in w.rescues && w'.rescues[t] == w.rescues[t])
          && (forall t :: t in w.rescues && t !in order ==> t in w'.rescues))
  }

  lemma {:induction false} RescueTickEffect(w: World, now: int, order: seq<Entity>)
    requires Humans(w) && forall e :: LifeOf(w, e) == Knocked ==> e in w.players && e != BOT
    ensures Ticked(w, StepRescue(w, now, order), now, order)
  {
    hide RescueOne, Completes, Visited;
    if |order| > 0 {
      var init, t := order[..|order| - 1], order[|order| - 1];
      RescueTickEffect(w, now, init);
      var w1 := StepRescue(w, now, init);
      RescueOneEffect(w1, t, now);
      OneMoreVisit(w, w1, RescueOne(w1, t, now), now, init, t);
      assert order == init + [t];
    }
  }

  /** The first rescue that completes is decided as before the tick. */
  lemma OneMoreVisit(w: World, w1: World, w2: World, now: int, init: seq<Entity>, t: Entity)
    requires Ticked(w, w1, now, init) && forall e :: LifeOf(w, e) == Knocked ==> e in w.players && e != BOT
    requires Visited(w1, w2, t, Completes(w1, t, now)) && (LifeOf(w1, BOT) != Knocked ==> Humans(w2))
    ensures Ticked(w, w2, now, init + [t])
  {
    RaisesOneMore(w, now, init, t);
    if Raises(w, now, init) {
      var e :| e in w1.players && LifeOf(w1, e) == Alive;
      assert e in w2.players && LifeOf(w2, e) == Alive;
    } else {
      assert Completes(w1, t, now) <==> Completes(w, t, now) by { SameCompletion(w, w1, now, init, t); }
      if Completes(w, t, now) {
        assert t in w2.players && LifeOf(w2, t) == Alive;
      }
    }
  }

  lemma RaisesOneMore(w: World, now: int, init: seq<Entity>, t: Entity)
    ensures Raises(w, now, init + [t]) <==> Raises(w, now, init) || Completes(w, t, now)
  {
    hide Completes;
    if Raises(w, now, init) {
      var u :| u in init && Completes(w, u, now);
      assert u in init + [t];
    }
    if Completes(w, t, now) {
      assert t in init + [t];
    }
  }

  lemma SameCompletion(w: World, w1: World, now: int, init: seq<Entity>, t: Entity)
    requires Ticked(w, w1, now, init) && !Raises(w, now, init)
    ensures Completes(w1, t, now) <==> Completes(w, t, now)
  {}

  /** A rescue tick keeps the promise exactly when it raises nobody, or somebody was up before, or nobody
      watches a dead player. */
  lemma RescueTickWatched(w: World, now: int, order: seq<Entity>)
    requires Invariant(w) && Watched(w)
    ensures Watched(StepRescue(w, now, order)) <==> (Raises(w, now, order) ==> MayStandUp(w))
  {
    hide StepRescue, Raises, Invariant;
    KnockedPlays(w);
    RescueTickEffect(w, now, order);
    TickedWatched(w, StepRescue(w, now, order), now, order);
  }

  lemma TickedWatched(w: World, w': World, now: int, order: seq<Entity>)
    requires Watched(w) && Ticked(w, w', now, order)
    ensures Watched(w') <==> (Raises(w, now, order) ==> MayStandUp(w))
  {
    hide Raises;
    if Raises(w, now, order) && !MayStandUp(w) {
      var p :| p in w.sessions && w.sessions[p].observing != 0 && LifeOf(w, w.sessions[p].observing) == Dead;
      assert p in w'.sessions && LifeOf(w', w'.sessions[p].observing) == Dead;
    } else {
      if SomeoneUp(w') && !SomeoneUp(w) {
        assert Raises(w, now, order);
      }
      forall p | p in w'.sessions && w'.sessions[p].observing != 0
        ensures LifeOf(w', p) == Dead && w'.sessions[p].observing in w'.players
        ensures SomeoneUp(w') ==> LifeOf(w', w'.sessions[p].observing) != Dead
      {
        assert p in w.sessions;
      }
    }
  }

  lemma KnockedPlays(w: World)
    requires Invariant(w) && Humans(w)
    ensures forall e :: LifeOf(w, e) == Knocked ==> e in w.players && e != BOT
  {
    hide Roster, AllSound, Bounded;
  }

  lemma HealingWatched(w: World, p: Entity, now: int)
    requires Watched(w) && Roster(w)
    ensures Watched(StepHeal(w, p, now)) && Watched(StepEP(w, p, now))
  {
    hide HealTick, EnergyTick, Watched, HPOf, Roster;
    NoBotRecords(w);
    BotIsNoPlayer(w);
    PlayersHaveSessions(w, BOT);
    if p in w.sessions {
      var (heal, hp) := HealTick(w.sessions[p].heal, HPOf(w, p), LifeOf(w, p) == Alive, w.maxHP, now);
      SessionWatched(w, p, w.sessions[p].(heal := heal), w.hp[p := hp]);
      var (energy, ehp) := EnergyTick(w.sessions[p].energy, HPOf(w, p), LifeOf(w, p) == Alive, w.maxHP, now);
      SessionWatched(w, p, w.sessions[p].(energy := energy), w.hp[p := ehp]);
    }
  }

  lemma SessionWatched(w: World, p: Entity, s: Session, hp: map<Entity, nat>)
    requires Watched(w) && p in w.sessions && s.observing == w.sessions[p].observing && BOT !in hp
    ensures Watched(w.(sessions := w.sessions[p := s]))
    ensures Watched(w.(sessions := w.sessions[p := s]).(hp := hp))
  {
    assert Still(w, w.(sessions := w.sessions[p := s]));
    assert Still(w, w.(sessions := w.sessions[p := s]).(hp := hp));
    StillWatched(w, w.(sessions := w.sessions[p := s]));
    StillWatched(w, w.(sessions := w.sessions[p := s]).(hp := hp));
  }

  lemma QuietWatched(w: World, ev: Event)
    requires Watched(w)
    requires ev.RescueStart? || ev.RescueStop? || ev.Medkit? || ev.MushroomBuy? || ev.EnergyReset? || ev.RoundEnd?
    ensures Watched(Step(w, ev))
  {
    hide TeamOf, Mushroom, Watched;
    NoBotRecords(w);
    match ev
    case RescueStart(reviver, target, now) =>
      if Step(w, ev) != w {
        RescuesWatched(w, w.rescues[target := Rescue(reviver, now + REVIVE_DURATION)]);
      }
    case RescueStop(reviver, target) => RescuesWatched(w, w.rescues - {target});
    case Medkit(p, now) =>
      if p in w.sessions {
        SessionWatched(w, p, w.sessions[p].(heal := Heal(true, now, 0)), w.hp);
      }
    case MushroomBuy(p, now) =>
      if p in w.sessions {
        SessionWatched(w, p, w.sessions[p].(energy := Mushroom(w.sessions[p].energy, now)), w.hp);
      }
    case EnergyReset(p) =>
      if p in w.sessions {
        SessionWatched(w, p, w.sessions[p].(energy := w.sessions[p].energy.(ep := 0, mushrooms := 0)), w.hp);
      }
    case RoundEnd => EndRoundWatched(w);
  }

  lemma EndRoundWatched(w: World)
    requires Watched(w)
    ensures Watched(EndRound(w))
  {
    assert Still(w, EndRound(w));
  }

  lemma RescuesWatched(w: World, rescues: map<Entity, Rescue>)
    requires Watched(w)
    ensures Watched(w.(rescues := rescues))
  {
    assert Still(w, w.(rescues := rescues));
  }

  lemma ReviveWatched(w: World)
    requires Watched(w) && Roster(w)
    ensures Watched(ReviveAll(w))
  {
    hide Roster;
    BotIsNoPlayer(w);
  }

  // ---------------------------------------------------------------- the roster

  /** An arrival stands: it harms spectators exactly when nobody else does and a dead player is watched. */
  lemma ArrivalWatched(w: World, prefer: nat)
    requires Invariant(w) && Watched(w) && CanAdmit(w)
    ensures Watched(Join(w, prefer)) <==> MayStandUp(w)
  {
    hide Invariant, AllocEntity, TeamOf, Slot;
    InvariantRoster(w);
    AllocIsFresh(w, prefer);
    NoBotRecords(w);
    SeatedWatched(w, AllocEntity(w, prefer));
    assert Join(w, prefer) == Seated(w, AllocEntity(w, prefer));
  }

  lemma SeatedWatched(w: World, e: Entity)
    requires Roster(w) && Watched(w) && e !in w.players && e != BOT
    ensures Watched(Seated(w, e)) <==> MayStandUp(w)
  {
    hide TeamOf, Slot;
    var w1 := Seated(w, e);
    assert e in w1.players && LifeOf(w1, e) == Alive && SomeoneUp(w1);
    assert forall x :: x in w.players ==> LifeOf(w1, x) == LifeOf(w, x);
    if !SomeoneUp(w) && !NobodyWatchesDead(w) {
      var p :| p in w.sessions && w.sessions[p].observing != 0 && LifeOf(w, w.sessions[p].observing) == Dead;
      assert p in w1.sessions && w1.sessions[p] == w.sessions[p];
      assert !Spectating(w1);
    } else {
      forall p | p in w1.sessions && w1.sessions[p].observing != 0
        ensures LifeOf(w1, p) == Dead && w1.sessions[p].observing in w1.players && LifeOf(w1, w1.sessions[p].observing) != Dead
      {
        assert p in w.sessions && w1.sessions[p] == w.sessions[p];
      }
      assert Spectating(w1);
    }
  }

  /** The watchers of a leaver find somebody who is up, or nobody. */
  lemma DepartureWatched(w: World, e: Entity)
    requires Invariant(w) && Watched(w)
    ensures Watched(RemovePlayer(w, e))
  {
    hide Invariant, RemovePlayer, Drop, Spectating;
    if e in w.players {
      InvariantRoster(w);
      DepartureFrame(w, e);
      DepartureSpectating(w, e);
    } else {
      NobodyLeaves(w, e);
    }
  }

  lemma DepartureSpectating(w: World, e: Entity)
    requires Roster(w) && Humans(w) && Spectating(w) && e in w.players
    ensures Spectating(RemovePlayer(w, e))
  {
    hide Roster, RemovePlayer, SomeoneUp, Drop;
    var w1 := RemovePlayer(w, e);
    DepartureSeats(w, e);
    NoZero(w, e);
    forall p | p in w1.sessions && w1.sessions[p].observing != 0
      ensures LifeOf(w1, p) == Dead && w1.sessions[p].observing in w1.players
      ensures SomeoneUp(w1) ==> LifeOf(w1, w1.sessions[p].observing) != Dead
    {
      DepartureFocus(w, e, p);
    }
  }

  /** Who stays, and how. */
  lemma DepartureSeats(w: World, e: Entity)
    requires Roster(w) && Humans(w) && e in w.players
    ensures var w1 := RemovePlayer(w, e);
            && (forall x :: x in w1.players <==> x in w.players && x != e)
            && (forall x :: Participates(Gone(w, e), x) <==> x in w1.players)
            && (forall x :: LifeOf(w1, x) == LifeOf(Gone(w, e), x))
            && (forall x :: x != e ==> LifeOf(w1, x) == LifeOf(w, x))
            && (SomeoneUp(w1) ==> SomeoneUp(w))
  {
    hide TeamOf, Slot, RemovePlayer, Drop;
    DepartureFrame(w, e);
    DropMembers(w.players, e);
  }

  /** A spectator keeps its focus, or gets one that is up. */
  lemma DepartureFocus(w: World, e: Entity, p: Entity)
    requires Roster(w) && e in w.players && p in RemovePlayer(w, e).sessions
    ensures p in w.sessions && p != e
    ensures var was, now, w1 := w.sessions[p].observing, RemovePlayer(w, e).sessions[p].observing, Gone(w, e);
            if was != e then now == was
            else now != 0 ==> Participates(w1, now) && LifeOf(w1, now) == Alive
  {
    hide SpectateFor, TeamOf, Slot, Drop, Roster;
    TargetTakesPart(Gone(w, e), p);
  }

  // ---------------------------------------------------------------- whole runs

  /** There is no bot, and whoever arrives or is rescued finds somebody up or nobody watching the dead. */
  ghost predicate Orderly(w: World, ev: Event) {
    && Enabled(w, ev) && !ev.BotSpawn?
    && (ev.Arrival? || (ev.RescueTick? && Raises(w, ev.now, ev.order)) ==> MayStandUp(w))
  }

  lemma StepWatched(w: World, ev: Event)
    requires Invariant(w) && Watched(w) && Enabled(w, ev) && !ev.BotSpawn?
    ensures Watched(Step(w, ev)) <==> Orderly(w, ev)
  {
    hide Invariant, Watched, ApplyDamage, StepKnock, StepRescue, StepHeal, StepEP, ReviveAll, Join, RemovePlayer, CanAdmit,
         Raises, MayStandUp;
    InvariantRoster(w);
    match ev
    case Damage(victim, attacker, dmg, now, order) => DamageWatched(w, victim, attacker, dmg, now, order);
    case Bleed(now, order) => StepKnockWatched(w, now, order);
    case RescueTick(now, order) => RescueTickWatched(w, now, order);
    case HealOne(p, now) => HealingWatched(w, p, now);
    case EnergyOne(p, now) => HealingWatched(w, p, now);
    case Revival => ReviveWatched(w);
    case Arrival(prefer) => ArrivalWatched(w, prefer);
    case Departure(e) => DepartureWatched(w, e);
    case _ => QuietWatched(w, ev);
  }

  lemma NobodyLeaves(w: World, e: Entity)
    requires e !in w.players
    ensures RemovePlayer(w, e) == w
  {}

  ghost predicate OrderlyRun(w: World, run: seq<Event>) {
    forall n :: 0 <= n < |run| ==> Orderly(Run(w, run[..n]), run[n])
  }

  lemma OrderlyPrefix(w: World, run: seq<Event>)
    requires OrderlyRun(w, run) && |run| > 0
    ensures var init := run[..|run| - 1]; OrderlyRun(w, init) && Orderly(Run(w, init), run[|run| - 1])
  {
    hide Run, Orderly;
    var init := run[..|run| - 1];
    forall n | 0 <= n < |init| ensures Orderly(Run(w, init[..n]), init[n]) {
      assert init[..n] == run[..n];
    }
  }

  lemma OrderlyEnabled(w: World, ev: Event)
    requires Orderly(w, ev)
    ensures Enabled(w, ev) && !ev.BotSpawn?
  {}

  /** Over every such run of a match of humans, after every event: whoever watches someone is dead, the
      watched one is on the roster, and while anyone is up nobody watches a dead player. Whoever leaves and
      whoever starts a rescue is free to. */
  lemma {:induction false} SpectatorsWatchTheLiving(w: World, maxHP: nat, run: seq<Event>)
    requires Starts(w, maxHP) && w.bot == 0 && SafeMaxHP(maxHP) && OrderlyRun(w, run)
    ensures Watched(Run(w, run)) && Spectating(Run(w, run))
    ensures Invariant(Run(w, run)) && Run(w, run).maxHP == maxHP
  {
    hide Invariant, Step, Orderly, Enabled, Starts;
    StartIsInvariant(w, maxHP);
    if |run| == 0 {
      StartIsWatched(w, maxHP);
    } else {
      var init := run[..|run| - 1];
      OrderlyPrefix(w, run);
      SpectatorsWatchTheLiving(w, maxHP, init);
      OrderlyEnabled(Run(w, init), run[|run| - 1]);
      StepKeeps(Run(w, init), run[|run| - 1]);
      StepWatched(Run(w, init), run[|run| - 1]);
    }
  }

  lemma StartIsWatched(w: World, maxHP: nat)
    requires Starts(w, maxHP) && w.bot == 0
    ensures Watched(w)
  {
    hide TeamOf, Slot, Roster;
    BotIsNoPlayer(w);
  }
}
