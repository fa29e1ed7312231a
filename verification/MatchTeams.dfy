/** What the scoreboard keeps over every run of a match: nobody dies twice in a round, and the 16-bit
    counters count the deaths. */
module MatchTeams {
  import opened Vitals
  import opened MatchState
  import opened MatchVitals
  import opened MatchRounds

  // ---------------------------------------------------------------- what is kept

  /** Only participants have records. */
  ghost predicate Closed(w: World) {
    && (forall e :: e in w.hp ==> Participates(w, e))
    && (forall e :: e in w.knock ==> Participates(w, e))
    && (forall e :: e in w.life ==> Participates(w, e))
  }

  /** Whoever died had been seated, and a bot that never came has not died. */
  ghost predicate Known(w: World) {
    forall i :: 0 <= i < |w.log| ==> Slot(w.log[i].victim) <= w.nextSlot && (w.bot == 0 ==> w.log[i].victim != BOT)
  }

  /** The deaths of this round are of different people, and those of them who are still there are dead. */
  ghost predicate DiedOnce(w: World) {
    && w.roundStart <= |w.log|
    && (forall i, j :: w.roundStart <= i < j < |w.log| ==> w.log[i].victim != w.log[j].victim)
    && (forall i :: w.roundStart <= i < |w.log| && Participates(w, w.log[i].victim) ==> LifeOf(w, w.log[i].victim) == Dead)
    && Known(w)
  }

  function KillsOf(log: seq<Death>, k: Entity): nat {
    if |log| == 0 then 0
    else
      var d := log[|log| - 1];
      KillsOf(log[..|log| - 1], k) + if d.killer == k && k != 0 && TeamOf(k) != TeamOf(d.victim) then 1 else 0
  }

  function DeathsOf(log: seq<Death>, v: Entity): nat {
    if |log| == 0 then 0
    else DeathsOf(log[..|log| - 1], v) + if log[|log| - 1].victim == v then 1 else 0
  }

  /** The 16-bit counters of the scoreboard. */
  ghost predicate Scored(w: World) {
    forall e :: Count(w.kills, e) == Wrap16(KillsOf(w.log, e)) && Count(w.deaths, e) == Wrap16(DeathsOf(w.log, e))
  }

  ghost predicate Accounted(w: World) {
    Invariant(w) && Closed(w) && DiedOnce(w) && Scored(w)
  }

  // ---------------------------------------------------------------- one death

  /** What a death changes in the records. */
  ghost predicate Died(w: World, w': World, e: Entity, killer: Entity) {
    && w'.players == w.players && w'.bot == w.bot && w'.nextSlot == w.nextSlot && w'.roundStart == w.roundStart
    && w'.log == w.log + [Death(e, killer)]
    && LifeOf(w', e) == Dead && (forall x :: x != e ==> LifeOf(w', x) == LifeOf(w, x))
    && w'.hp.Keys == w.hp.Keys + {e} && w'.life.Keys == w.life.Keys + {e} && w'.knock.Keys <= w.knock.Keys
    && w'.kills == CreditDeath(w, e, killer).kills && w'.deaths == CreditDeath(w, e, killer).deaths
  }

  lemma KillIsDeath(w: World, e: Entity, killer: Entity)
    ensures Died(w, KillEntity(w, e, killer), e, killer)
    ensures KillEntity(w, e, killer).knock == w.knock
  {
    hide EmitDeath, Observed, CreditDeath;
    CreditFrame(w, e, killer);
    CreditLog(w, e, killer);
    var w1 := Bury(w, e, killer);
    EmitDeathOnlyObserving(w1, e, Observed(w1, e));
  }

  lemma FinalizeIsDeath(w: World, e: Entity)
    requires e in w.knock
    ensures Died(w, FinalizeKnock(w, e), e, w.knock[e].killer)
    ensures FinalizeKnock(w, e).knock == w.knock - {e}
  {
    hide EmitDeath, Observed, CreditDeath;
    CreditFrame(w, e, w.knock[e].killer);
    CreditLog(w, e, w.knock[e].killer);
    var w1 := Bury(w, e, w.knock[e].killer);
    var w2 := w1.(knock := w1.knock - {e}, rescues := w1.rescues - {e});
    EmitDeathOnlyObserving(w2, e, Observed(w2, e));
  }

  lemma CreditLog(w: World, e: Entity, killer: Entity)
    ensures CreditDeath(w, e, killer).log == w.log + [Death(e, killer)]
  {}

  lemma DeathKeepsScore(w: World, w': World, e: Entity, killer: Entity)
    requires Scored(w) && Died(w, w', e, killer)
    ensures Scored(w')
  {
    hide TeamOf, Wrap16, CreditDeath;
    assert w'.log[..|w.log|] == w.log;
    CreditCounts(w, e, killer);
    forall x
      ensures Count(w'.kills, x) == Wrap16(KillsOf(w'.log, x)) && Count(w'.deaths, x) == Wrap16(DeathsOf(w'.log, x))
    {
      WrapOneMore(KillsOf(w.log, x));
      WrapOneMore(DeathsOf(w.log, x));
    }
  }

  lemma WrapOneMore(n: nat)
    ensures Wrap16(Wrap16(n) + 1) == Wrap16(n + 1)
  {}

  lemma CreditCounts(w: World, e: Entity, killer: Entity)
    ensures var w' := CreditDeath(w, e, killer);
            forall x ::
              && Count(w'.deaths, x) == (if x == e then Wrap16(Count(w.deaths, x) + 1) else Count(w.deaths, x))
              && Count(w'.kills, x) == (if x == killer && IsEnemyKill(e, killer) then Wrap16(Count(w.kills, x) + 1)
                                        else Count(w.kills, x))
  {
    hide TeamOf, Wrap16, Bumped;
    BumpedCounts(w.deaths, e);
    BumpedCounts(w.kills, killer);
  }

  lemma BumpedCounts(m: map<Entity, nat>, e: Entity)
    ensures forall x :: Count(Bumped(m, e), x) == if x == e then Wrap16(Count(m, x) + 1) else Count(m, x)
  {
    hide Wrap16;
  }

  lemma DeathKeepsLog(w: World, w': World, e: Entity, killer: Entity)
    requires DiedOnce(w) && Died(w, w', e, killer) && LifeOf(w, e) != Dead && Participates(w, e) && Roster(w')
    ensures DiedOnce(w')
  {
    hide Slot, TeamOf, CreditDeath;
    SeatedSlot(w', e);
    forall i | 0 <= i < |w'.log|
      ensures Slot(w'.log[i].victim) <= w'.nextSlot && (w'.bot == 0 ==> w'.log[i].victim != BOT)
    {
      assert i < |w.log| ==> w'.log[i] == w.log[i];
    }
  }

  lemma SeatedSlot(w: World, e: Entity)
    requires Roster(w) && Participates(w, e)
    ensures Slot(e) <= w.nextSlot && (w.bot == 0 ==> e != BOT)
  {
    hide TeamOf;
    BotIsNoPlayer(w);
    assert Slot(BOT) == 2;
  }

  lemma DeathKeepsClosed(w: World, w': World, e: Entity, killer: Entity)
    requires Closed(w) && Died(w, w', e, killer) && Participates(w, e)
    ensures Closed(w')
  {
    forall x | x in w'.hp ensures Participates(w', x) {
      assert x in w.hp.Keys + {e};
    }
    forall x | x in w'.life ensures Participates(w', x) {
      assert x in w.life.Keys + {e};
    }
    forall x | x in w'.knock ensures Participates(w', x) {
      assert x in w'.knock.Keys && x in w.knock.Keys;
    }
  }

  lemma DeathKeeps(w: World, w': World, e: Entity, killer: Entity)
    requires Closed(w) && DiedOnce(w) && Scored(w) && Invariant(w')
    requires Died(w, w', e, killer) && LifeOf(w, e) != Dead && Participates(w, e)
    ensures Accounted(w')
  {
    hide Closed, DiedOnce, Scored, Invariant, Died;
    InvariantRoster(w');
    DeathKeepsScore(w, w', e, killer);
    DeathKeepsLog(w, w', e, killer);
    DeathKeepsClosed(w, w', e, killer);
  }

  // ---------------------------------------------------------------- changes without a death

  /** Nothing but HP, knock records, healing and a change of life away from and to the living. */
  ghost predicate NoDeath(w: World, w': World) {
    && w'.players == w.players && w'.bot == w.bot && w'.nextSlot == w.nextSlot
    && w'.roundStart == w.roundStart && w'.log == w.log
    && w'.kills == w.kills && w'.deaths == w.deaths
    && (forall e :: LifeOf(w, e) == Dead <==> LifeOf(w', e) == Dead)
    && (forall e :: e in w'.hp || e in w'.knock || e in w'.life ==>
          e in w.hp || e in w.knock || e in w.life || Participates(w, e))
  }

  lemma NoDeathKeeps(w: World, w': World)
    requires Closed(w) && DiedOnce(w) && Scored(w) && NoDeath(w, w')
    ensures Closed(w') && DiedOnce(w') && Scored(w')
  {
    hide KillsOf, DeathsOf, Wrap16, Slot;
  }

  // ---------------------------------------------------------------- sweeps

  /** A sweep of the visited records. */
  lemma {:induction false} SweepEffect(w: World, team: nat, order: seq<Entity>)
    requires Accounted(w)
    ensures var w' := SweepTeam(w, team, order);
            && Accounted(w') && w'.players == w.players && w'.bot == w.bot
            && (forall e :: LifeOf(w', e) == if e in order && e in w.knock && TeamOf(e) == team && LifeOf(w, e) == Knocked
                                             then Dead else LifeOf(w, e))
            && (forall e :: e in w.knock && LifeOf(w', e) != Dead ==> e in w'.knock)
  {
    hide FinalizeKnock, TeamOf, Invariant, Closed, DiedOnce, Scored;
    if |order| > 0 {
      var init, e := order[..|order| - 1], order[|order| - 1];
      SweepEffect(w, team, init);
      var w1 := SweepTeam(w, team, init);
      assert forall x :: x in order <==> x in init || x == e;
      if e in w1.knock && TeamOf(e) == team && LifeOf(w1, e) == Knocked {
        FinalizeAccounted(w1, e);
      }
      SweepOnlyRemoves(w, team, init);
    }
  }

  lemma {:induction false} SweepOnlyRemoves(w: World, team: nat, order: seq<Entity>)
    ensures SweepTeam(w, team, order).knock.Keys <= w.knock.Keys
  {
    hide FinalizeKnock, TeamOf;
    if |order| > 0 {
      SweepOnlyRemoves(w, team, order[..|order| - 1]);
      var w1, e := SweepTeam(w, team, order[..|order| - 1]), order[|order| - 1];
      if e in w1.knock {
        FinalizeIsDeath(w1, e);
      }
    }
  }

  lemma FinalizeAccounted(w: World, e: Entity)
    requires Accounted(w) && e in w.knock
    ensures Accounted(FinalizeKnock(w, e)) && Died(w, FinalizeKnock(w, e), e, w.knock[e].killer)
    ensures FinalizeKnock(w, e).knock == w.knock - {e} && LifeOf(w, e) == Knocked
  {
    hide FinalizeKnock, DiedOnce, Scored, Died, Roster, Tracked, Bounded;
    assert Participates(w, e) && Sound(w, e);
    SoundImpliesBut(w, e);
    FinalizeKeeps(w, e);
    FinalizeIsDeath(w, e);
    DeathKeeps(w, FinalizeKnock(w, e), e, w.knock[e].killer);
  }

  // ---------------------------------------------------------------- the steps

  lemma HitEffect(w: World, victim: Entity, cur: nat)
    requires Accounted(w) && LifeOf(w, victim) == Alive && victim in w.hp
    ensures var w1 := w.(hp := w.hp[victim := cur]);
            && Closed(w1) && DiedOnce(w1) && Scored(w1) && Roster(w1) && Tracked(w1) && Bounded(w1)
            && SoundBut(w1, victim) && Participates(w1, victim) && victim !in w1.knock
            && (0 < cur <= w.hp[victim] ==> Accounted(w1))
  {
    hide DiedOnce, Scored, SoundBut, Roster, Bounded;
    var w1 := w.(hp := w.hp[victim := cur]);
    assert Participates(w, victim) && Sound(w, victim);
    assert SameBut(w, w1, victim);
    SoundImpliesBut(w, victim);
    SameButKeeps(w, w1, victim);
    assert NoDeath(w, w1);
    NoDeathKeeps(w, w1);
    if 0 < cur <= w.hp[victim] {
      assert Sound(w1, victim);
    }
  }

  lemma DownOrKillAccounted(w: World, victim: Entity, attacker: Entity, now: int, order: seq<Entity>)
    requires Closed(w) && DiedOnce(w) && Scored(w) && Roster(w) && Tracked(w) && Bounded(w) && SoundBut(w, victim)
    requires victim in w.hp && Participates(w, victim) && victim !in w.knock && LifeOf(w, victim) == Alive
    ensures Accounted(DownOrKill(w, victim, attacker, now, order))
  {
    hide KillEntity, SweepTeam, TeamSize, TeamAlive, TeamOf, Roster, Tracked, Bounded, AllSound, SoundBut, Closed,
         DiedOnce, Scored, Died;
    var team := TeamOf(victim);
    if TeamSize(w, team) <= 1 {
      KillKeeps(w, victim, attacker);
      KillIsDeath(w, victim, attacker);
      DeathKeeps(w, KillEntity(w, victim, attacker), victim, attacker);
    } else {
      var w1 := KnockPlayer(w, victim, attacker, now);
      KnockKeeps(w, victim, attacker, now);
      KnockIsNoDeath(w, victim, attacker, now);
      NoDeathKeeps(w, w1);
      if TeamAlive(w1, team) == 0 {
        SweepEffect(w1, team, order);
        FellAccounted(SweepTeam(w1, team, order), team);
      }
    }
  }

  lemma KnockIsNoDeath(w: World, victim: Entity, attacker: Entity, now: int)
    requires LifeOf(w, victim) == Alive && Participates(w, victim)
    ensures var w1 := KnockPlayer(w, victim, attacker, now);
            && NoDeath(w, w1) && w1.knock.Keys == w.knock.Keys + {victim}
            && LifeOf(w1, victim) == Knocked && forall e :: e != victim ==> LifeOf(w1, e) == LifeOf(w, e)
  {}

  lemma FellAccounted(w: World, team: nat)
    requires Accounted(w)
    ensures Accounted(w.(lastTeamFell := team))
  {
    hide Invariant, Scored;
    FellKeeps(w, team);
    assert NoDeath(w, w.(lastTeamFell := team));
    NoDeathKeeps(w, w.(lastTeamFell := team));
  }

  lemma DamageAccounted(w: World, victim: Entity, attacker: Entity, dmg: nat, now: int, order: seq<Entity>)
    requires Accounted(w)
    ensures Accounted(ApplyDamage(w, victim, attacker, dmg, now, order))
  {
    hide DamageKnocked, DownOrKill, Accounted, Closed, DiedOnce, Scored, Roster, Tracked, Bounded, AllSound, SoundBut;
    if w.roundOver {
    } else if LifeOf(w, victim) == Knocked {
      DamageKnockedAccounted(w, victim, dmg);
    } else if LifeOf(w, victim) == Alive && victim in w.hp && w.hp[victim] > 0 {
      var cur := if dmg >= w.hp[victim] then 0 else w.hp[victim] - dmg;
      HitEffect(w, victim, cur);
      if cur == 0 {
        DownOrKillAccounted(w.(hp := w.hp[victim := cur]), victim, attacker, now, order);
      }
    }
  }

  lemma DamageKnockedAccounted(w: World, victim: Entity, dmg: nat)
    requires Accounted(w) && LifeOf(w, victim) == Knocked
    ensures Accounted(DamageKnocked(w, victim, dmg))
  {
    hide FinalizeKnock, TeamOf, Closed, DiedOnce, Scored, Roster, Tracked, Bounded, AllSound, SoundBut, Died;
    if victim in w.knock {
      var ks := w.knock[victim];
      var hp := if dmg >= ks.hp then 0 else ks.hp - dmg;
      var w1 := w.(knock := w.knock[victim := ks.(hp := hp)], hp := w.hp[victim := hp]);
      DamageKnockedKeeps(w, victim, dmg);
      assert Participates(w, victim) by { InKnock(w, victim); }
      assert NoDeath(w, w1);
      NoDeathKeeps(w, w1);
      if dmg >= ks.hp {
        FinalizeIsDeath(w1, victim);
        DeathKeeps(w1, FinalizeKnock(w1, victim), victim, ks.killer);
      }
    }
  }

  lemma InKnock(w: World, e: Entity)
    requires Closed(w) && e in w.knock
    ensures Participates(w, e)
  {}

  lemma BleedOneAccounted(w: World, e: Entity, now: int)
    requires Accounted(w)
    ensures Accounted(BleedOne(w, e, now))
  {
    hide FinalizeKnock, TeamOf, Closed, DiedOnce, Scored, Roster, Tracked, Bounded, SoundBut, Died;
    BleedOneKeeps(w, e, now);
    if e in w.knock && now >= w.knock[e].deadline {
      InKnock(w, e);
      assert Sound(w, e);
      var ks := w.knock[e].(deadline := w.knock[e].deadline + BLEED_EVERY);
      var w1 := w.(knock := w.knock[e := ks]);
      assert NoDeath(w, w1);
      NoDeathKeeps(w, w1);
      if ks.hp <= BLEED_AMOUNT {
        FinalizeIsDeath(w1, e);
        DeathKeeps(w1, FinalizeKnock(w1, e), e, ks.killer);
      } else {
        assert NoDeath(w, BleedOne(w, e, now));
        NoDeathKeeps(w, BleedOne(w, e, now));
      }
    }
  }

  lemma {:induction false} StepKnockAccounted(w: World, now: int, order: seq<Entity>)
    requires Accounted(w)
    ensures Accounted(StepKnock(w, now, order))
  {
    hide Accounted, BleedOne;
    if |order| > 0 {
      StepKnockAccounted(w, now, order[..|order| - 1]);
      BleedOneAccounted(StepKnock(w, now, order[..|order| - 1]), order[|order| - 1], now);
    }
  }

  lemma RescueOneAccounted(w: World, target: Entity, now: int)
    requires Accounted(w) && w.maxHP >= REVIVE_HP
    ensures Accounted(RescueOne(w, target, now))
  {
    hide TeamOf, Closed, DiedOnce, Scored, Roster, Tracked, Bounded, SoundBut, AllSound, RescueOne, NoDeath;
    RescueOneKeeps(w, target, now);
    LifeIsRecorded(w, target);
    RescueIsNoDeath(w, target, now);
    NoDeathKeeps(w, RescueOne(w, target, now));
  }

  lemma RescueIsNoDeath(w: World, target: Entity, now: int)
    requires LifeOf(w, target) == Knocked ==> Participates(w, target)
    ensures var w' := RescueOne(w, target, now);
            && NoDeath(w, w') && w'.players == w.players && w'.bot == w.bot
            && (forall e :: LifeOf(w, e) == Alive ==> LifeOf(w', e) == Alive)
            && (forall e :: LifeOf(w', e) == Knocked ==> LifeOf(w, e) == Knocked)
  {
    hide NoDeath, CompleteRescue;
    if target in w.rescues {
      var w1 := w.(rescues := w.rescues - {target});
      RescueRecordsOnly(w, w.rescues - {target});
      if LifeOf(w, target) == Knocked {
        CompletionIsNoDeath(w, w.rescues - {target}, target);
      }
    }
    RescueRecordsOnly(w, w.rescues);
  }

  lemma RescueRecordsOnly(w: World, rescues: map<Entity, Rescue>)
    ensures NoDeath(w, w.(rescues := rescues))
    ensures forall e :: LifeOf(w.(rescues := rescues), e) == LifeOf(w, e)
  {}

  lemma CompletionIsNoDeath(w: World, rescues: map<Entity, Rescue>, target: Entity)
    requires LifeOf(w, target) == Knocked && Participates(w, target)
    ensures var w' := CompleteRescue(w.(rescues := rescues), target);
            && NoDeath(w, w') && w'.players == w.players && w'.bot == w.bot
            && forall e :: LifeOf(w', e) == if e == target then Alive else LifeOf(w, e)
  {
    hide Participates;
  }

  lemma LifeIsRecorded(w: World, e: Entity)
    requires Closed(w)
    ensures LifeOf(w, e) == Knocked ==> Participates(w, e)
  {}

  lemma {:induction false} StepRescueAccounted(w: World, now: int, order: seq<Entity>)
    requires Accounted(w) && w.maxHP >= REVIVE_HP
    ensures Accounted(StepRescue(w, now, order))
    ensures StepRescue(w, now, order).maxHP == w.maxHP
  {
    hide Accounted;
    if |order| > 0 {
      StepRescueAccounted(w, now, order[..|order| - 1]);
      RescueOneAccounted(StepRescue(w, now, order[..|order| - 1]), order[|order| - 1], now);
    }
  }

  lemma ReviveAccounted(w: World)
    requires Accounted(w) && w.maxHP > 0
    ensures Accounted(ReviveAll(w))
  {
    hide TeamOf, Invariant, Scored;
    ReviveKeeps(w);
    var w1 := ReviveAll(w);
    assert Scored(w1) by { ScoreDepends(w, w1); }
    assert Closed(w1) by {
      forall e | e in w1.hp ensures Participates(w1, e) {
        assert e in w.hp.Keys + Everyone(w.players, w.bot);
      }
      forall e | e in w1.life ensures Participates(w1, e) {
        assert e in w.life.Keys + Everyone(w.players, w.bot);
      }
    }
    forall e | Participates(w1, e) ensures LifeOf(w1, e) == Alive {
      assert e in Everyone(w.players, w.bot);
    }
  }

  lemma ScoreDepends(w: World, w': World)
    requires Scored(w) && w'.log == w.log && w'.kills == w.kills && w'.deaths == w.deaths
    ensures Scored(w')
  {
    hide KillsOf, DeathsOf, Wrap16;
  }

  /** Healing and rescue records. */
  lemma QuietAccounted(w: World, w': World)
    requires Accounted(w) && Invariant(w') && NoDeath(w, w')
    ensures Accounted(w')
  {
    hide Invariant, Closed, DiedOnce, Scored;
    NoDeathKeeps(w, w');
  }

  lemma QuietStep(w: World, ev: Event)
    requires Roster(w) && !ev.Damage? && !ev.Bleed? && !ev.RescueTick? && !ev.Revival?
    requires !ev.Arrival? && !ev.Departure? && !ev.BotSpawn?
    ensures NoDeath(w, Step(w, ev)) && forall e :: LifeOf(Step(w, ev), e) == LifeOf(w, e)
  {
    hide HealTick, EnergyTick, TeamOf, Slot, StepHeal, StepEP, NoDeath, Roster;
    match ev
    case HealOne(p, now) => QuietHealing(w, p, now);
    case EnergyOne(p, now) => QuietHealing(w, p, now);
    case _ => QuietRest(w, Step(w, ev));
  }

  lemma QuietRest(w: World, w': World)
    requires exists s, r, o :: w' == w.(sessions := s, rescues := r, roundOver := o)
    ensures NoDeath(w, w') && forall e :: LifeOf(w', e) == LifeOf(w, e)
  {}

  lemma QuietHealing(w: World, p: Entity, now: int)
    requires Roster(w)
    ensures NoDeath(w, StepHeal(w, p, now)) && forall e :: LifeOf(StepHeal(w, p, now), e) == LifeOf(w, e)
    ensures NoDeath(w, StepEP(w, p, now)) && forall e :: LifeOf(StepEP(w, p, now), e) == LifeOf(w, e)
  {
    hide NoDeath, Roster, OnlyHealed, StepHeal, StepEP;
    HealFrame(w, p, now);
    EnergyFrame(w, p, now);
    if p in w.sessions {
      assert Participates(w, p) by { PlayersHaveSessions(w, p); }
      QuietHP(w, StepHeal(w, p, now), p);
      QuietHP(w, StepEP(w, p, now), p);
    } else {
      QuietRest(w, w);
    }
  }

  /** Only the session and the HP of one entity may differ. */
  ghost predicate OnlyHealed(w: World, w': World, p: Entity) {
    w' == w.(sessions := w'.sessions, hp := w'.hp) && w'.hp.Keys <= w.hp.Keys + {p}
  }

  lemma HealedOnly(w: World, sessions: map<Entity, Session>, p: Entity, hp: nat)
    ensures OnlyHealed(w, w.(sessions := sessions), p)
    ensures OnlyHealed(w, w.(sessions := sessions).(hp := w.hp[p := hp]), p)
  {}

  lemma HealFrame(w: World, p: Entity, now: int)
    ensures p !in w.sessions ==> StepHeal(w, p, now) == w
    ensures OnlyHealed(w, StepHeal(w, p, now), p)
  {
    hide HealTick, LifeOf, HPOf, OnlyHealed;
    HealedOnly(w, w.sessions, p, 0);
    if p in w.sessions && w.sessions[p].heal.active {
      var (heal, hp) := HealTick(w.sessions[p].heal, HPOf(w, p), LifeOf(w, p) == Alive, w.maxHP, now);
      HealedOnly(w, w.sessions[p := w.sessions[p].(heal := heal)], p, hp);
    }
  }

  lemma EnergyFrame(w: World, p: Entity, now: int)
    ensures p !in w.sessions ==> StepEP(w, p, now) == w
    ensures OnlyHealed(w, StepEP(w, p, now), p)
  {
    hide EnergyTick, LifeOf, HPOf, OnlyHealed;
    HealedOnly(w, w.sessions, p, 0);
    if p in w.sessions {
      var (energy, hp) := EnergyTick(w.sessions[p].energy, HPOf(w, p), LifeOf(w, p) == Alive, w.maxHP, now);
      HealedOnly(w, w.sessions[p := w.sessions[p].(energy := energy)], p, hp);
    }
  }

  lemma QuietHP(w: World, w': World, p: Entity)
    requires OnlyHealed(w, w', p) && Participates(w, p)
    ensures NoDeath(w, w') && forall e :: LifeOf(w', e) == LifeOf(w, e)
  {
    forall e | e in w'.hp ensures e in w.hp || Participates(w, e) {
      assert e in w.hp.Keys + {p};
    }
  }

  // ---------------------------------------------------------------- the roster

  /** With no bot to retire, an arrival adds a living player under an id nobody has died under. */
  lemma ArrivalAccounted(w: World, prefer: nat)
    requires Accounted(w) && w.bot == 0 && CanAdmit(w) && w.maxHP > 0
    ensures Accounted(Join(w, prefer))
  {
    hide Invariant, TeamOf, Slot, AllocEntity, Scored;
    InvariantRoster(w);
    AllocIsFresh(w, prefer);
    JoinKeeps(w, prefer);
    var e, w1 := AllocEntity(w, prefer), Join(w, prefer);
    assert w1 == Seated(w, e);
    assert Scored(w1) by { ScoreDepends(w, w1); }
    SeatedClosed(w, e);
    SeatedLog(w, e);
  }

  lemma SeatedClosed(w: World, e: Entity)
    requires Closed(w)
    ensures Closed(Seated(w, e))
  {
    hide TeamOf, Slot;
  }

  lemma SeatedLog(w: World, e: Entity)
    requires DiedOnce(w) && Slot(e) == w.nextSlot + 1 && w.nextSlot + 1 < 256
    ensures DiedOnce(Seated(w, e))
  {
    hide TeamOf, Slot;
    var w1 := Seated(w, e);
    assert w1.nextSlot == w.nextSlot + 1 && w1.log == w.log;
    forall i | 0 <= i < |w.log| ensures w.log[i].victim != e {}
  }

  lemma BotTeam()
    ensures TeamOf(BOT) == ENEMY_TEAM
  {}

  lemma BotAccounted(w: World)
    requires Accounted(w) && w.bot == 0 && w.maxHP > 0
    ensures Accounted(SpawnBot(w))
  {
    hide Invariant, TeamOf, Slot, Scored;
    InvariantRoster(w);
    BotIsNoPlayer(w);
    SpawnBotKeeps(w);
    var w1 := SpawnBot(w);
    assert Scored(w1) by { ScoreDepends(w, w1); }
    assert Closed(w1) && DiedOnce(w1);
  }

  /** What a departure does to the rest. */
  lemma Departed(w: World, e: Entity)
    requires Roster(w) && e in w.players
    ensures var w' := RemovePlayer(w, e);
            && (forall x :: Participates(w', x) <==> Participates(w, x) && x != e)
            && (forall x :: x != e ==> LifeOf(w', x) == LifeOf(w, x))
            && w'.hp == w.hp - {e} && w'.life == w.life - {e} && w'.knock == w.knock - {e}
            && w'.log == w.log && w'.kills == w.kills && w'.deaths == w.deaths && w'.roundStart == w.roundStart
            && w'.nextSlot == w.nextSlot && w'.bot == w.bot
  {
    hide TeamOf, Slot, Drop, RemovePlayer;
    DepartureFrame(w, e);
    DropMembers(w.players, e);
    BotIsNoPlayer(w);
  }

  lemma DepartureAccounted(w: World, e: Entity)
    requires Accounted(w)
    ensures Accounted(RemovePlayer(w, e))
  {
    hide Invariant, TeamOf, Slot, Scored;
    if e in w.players {
      var w1 := RemovePlayer(w, e);
      InvariantRoster(w);
      RemoveKeeps(w, e);
      hide RemovePlayer;
      Departed(w, e);
      assert Scored(w1) by { ScoreDepends(w, w1); }
      assert Closed(w1) && DiedOnce(w1);
    }
  }

  /** The fallback bot, once it has come, stays. */
  ghost predicate Faithful(w: World, ev: Event) {
    Enabled(w, ev) && (ev.Arrival? || ev.BotSpawn? ==> w.bot == 0)
  }

  lemma StepAccounted(w: World, ev: Event)
    requires Accounted(w) && Faithful(w, ev) && SafeMaxHP(w.maxHP)
    ensures Accounted(Step(w, ev)) && Step(w, ev).maxHP == w.maxHP
  {
    hide Accounted, ApplyDamage, StepKnock, StepRescue, ReviveAll, Join, RemovePlayer, SpawnBot;
    MaxHPStays(w, ev);
    match ev
    case Damage(victim, attacker, dmg, now, order) => DamageAccounted(w, victim, attacker, dmg, now, order);
    case Bleed(now, order) => StepKnockAccounted(w, now, order);
    case RescueTick(now, order) => StepRescueAccounted(w, now, order);
    case Revival => ReviveAccounted(w);
    case Arrival(prefer) => ArrivalAccounted(w, prefer);
    case Departure(e) => DepartureAccounted(w, e);
    case BotSpawn => BotAccounted(w);
    case _ =>
      AccountedParts(w);
      StepKeeps(w, ev);
      QuietStep(w, ev);
      QuietAccounted(w, Step(w, ev));
  }

  lemma AccountedParts(w: World)
    requires Accounted(w)
    ensures Invariant(w) && Roster(w)
  {}

  ghost predicate FaithfulRun(w: World, run: seq<Event>) {
    forall n :: 0 <= n < |run| ==> Faithful(Run(w, run[..n]), run[n])
  }

  lemma FaithfulPrefix(w: World, run: seq<Event>)
    requires FaithfulRun(w, run) && |run| > 0
    ensures var init := run[..|run| - 1]; FaithfulRun(w, init) && Faithful(Run(w, init), run[|run| - 1])
  {
    hide Run, Faithful;
    var init := run[..|run| - 1];
    forall n | 0 <= n < |init| ensures Faithful(Run(w, init[..n]), init[n]) {
      assert init[..n] == run[..n];
    }
  }

  lemma StartIsAccounted(w: World, maxHP: nat)
    requires Starts(w, maxHP) && maxHP > 0
    ensures Accounted(w)
  {
    hide TeamOf, Roster;
    StartIsInvariant(w, maxHP);
    assert Wrap16(0) == 0;
  }

  /** Over every run in which the fallback bot, once it has come, stays: the deaths since the last revival
      are of different people, and those still there are dead; each 16-bit kill and death counter counts the
      logged deaths; and only participants have records. */
  lemma {:induction false} RunCounts(w: World, maxHP: nat, run: seq<Event>)
    requires Starts(w, maxHP) && SafeMaxHP(maxHP) && FaithfulRun(w, run)
    ensures Accounted(Run(w, run)) && Run(w, run).maxHP == maxHP
  {
    hide Accounted, Step, Starts;
    StartIsInvariant(w, maxHP);
    if |run| == 0 {
      StartIsAccounted(w, maxHP);
    } else {
      FaithfulPrefix(w, run);
      RunCounts(w, maxHP, run[..|run| - 1]);
      StepAccounted(Run(w, run[..|run| - 1]), run[|run| - 1]);
    }
  }
}
