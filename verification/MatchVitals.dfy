/** What every run of a match keeps: life, knock record and HP agree for every participant. */
module MatchVitals {
  import opened Vitals
  import opened MatchState

  function Slot(e: Entity): nat {
    e % 0x100_0000
  }

  ghost predicate Roster(w: World) {
    && 2 <= w.nextSlot < 256
    && (forall i, j :: 0 <= i < j < |w.players| ==> w.players[i] != w.players[j])
    && (forall p :: p in w.players ==>
          (TeamOf(p) == 1 || TeamOf(p) == 2) && 1 <= Slot(p) <= w.nextSlot && Slot(p) != 2)
    && (w.bot == 0 || w.bot == BOT)
    && (forall p :: p in w.players <==> p in w.sessions)
  }

  /** HP, life and knock record of one participant. */
  ghost predicate Sound(w: World, e: Entity) {
    && e in w.hp
    && (e in w.knock <==> LifeOf(w, e) == Knocked)
    && match LifeOf(w, e)
       case Alive => 0 < w.hp[e] <= w.maxHP
       case Knocked => w.hp[e] == w.knock[e].hp && 1 <= w.hp[e] <= KNOCKDOWN_HP
       case Dead => w.hp[e] == 0
  }

  /** Nobody but participants and a bot that left has records. */
  ghost predicate Tracked(w: World) {
    && (forall e :: e in w.hp ==> e in w.players || e == BOT)
    && (forall e :: e in w.knock ==> e in w.players || e == BOT)
    && (forall e :: e in w.life ==> e in w.players || e == BOT)
  }

  ghost predicate SoundBut(w: World, x: Entity) {
    forall e :: Participates(w, e) && e != x ==> Sound(w, e)
  }

  ghost predicate AllSound(w: World) {
    forall e :: Participates(w, e) ==> Sound(w, e)
  }

  ghost predicate Bounded(w: World) {
    forall p :: p in w.sessions ==> w.sessions[p].energy.ep <= MAX_EP && w.sessions[p].heal.applied <= MEDKIT_STEPS
  }

  ghost predicate Invariant(w: World) {
    Roster(w) && Tracked(w) && AllSound(w) && Bounded(w)
  }

  // ---------------------------------------------------------------- spectators do not touch the rest

  /** Only the spectator targets differ. */
  ghost predicate OnlyObserving(w: World, w': World) {
    && w' == w.(sessions := w'.sessions)
    && w'.sessions.Keys == w.sessions.Keys
    && forall p :: p in w.sessions ==> w'.sessions[p] == w.sessions[p].(observing := w'.sessions[p].observing)
  }

  lemma RepointOnlyObserving(w: World, gone: Entity, prefer: Entity)
    ensures OnlyObserving(w, Repoint(w, gone, prefer))
  {
    hide NextTarget;
  }

  lemma OnlyObservingTwice(w: World, w1: World, w2: World)
    requires OnlyObserving(w, w1) && OnlyObserving(w1, w2)
    ensures OnlyObserving(w, w2)
  {}

  lemma EmitDeathOnlyObserving(w: World, victim: Entity, observe: Entity)
    ensures OnlyObserving(w, EmitDeath(w, victim, observe))
  {
    hide Repoint;
    var w1 := if victim in w.sessions
              then w.(sessions := w.sessions[victim := w.sessions[victim].(observing := observe)]) else w;
    assert OnlyObserving(w, w1);
    RepointOnlyObserving(w1, victim, observe);
    OnlyObservingTwice(w, w1, Repoint(w1, victim, observe));
  }

  lemma ObservingKeeps(w: World, w': World)
    requires OnlyObserving(w, w')
    ensures Roster(w) ==> Roster(w')
    ensures Tracked(w) ==> Tracked(w')
    ensures Bounded(w) ==> Bounded(w')
    ensures AllSound(w) ==> AllSound(w')
    ensures forall x :: SoundBut(w, x) ==> SoundBut(w', x)
    ensures forall e :: Participates(w', e) <==> Participates(w, e)
  {
    hide TeamOf, Slot;
    assert forall e :: Sound(w', e) <==> Sound(w, e);
    assert forall e :: Participates(w', e) <==> Participates(w, e);
  }

  // ---------------------------------------------------------------- deaths

  /** The fields that make up a participant's soundness, elsewhere than at x. */
  ghost predicate SameBut(w: World, w': World, x: Entity) {
    && w'.players == w.players && w'.sessions == w.sessions && w'.bot == w.bot && w'.maxHP == w.maxHP
    && w'.nextSlot == w.nextSlot
    && w'.hp.Keys == w.hp.Keys + {x} && w'.knock.Keys + {x} == w.knock.Keys + {x}
    && (forall e :: e in w.hp && e != x ==> w'.hp[e] == w.hp[e])
    && (forall e :: e in w.knock && e != x ==> w'.knock[e] == w.knock[e])
    && w'.life.Keys + {x} == w.life.Keys + {x}
    && (forall e :: e != x ==> LifeOf(w', e) == LifeOf(w, e))
  }

  lemma SameButKeeps(w: World, w': World, x: Entity)
    requires SameBut(w, w', x)
    ensures Roster(w) ==> Roster(w')
    ensures Bounded(w) ==> Bounded(w')
    ensures SoundBut(w, x) ==> SoundBut(w', x)
    ensures Tracked(w) && (x in w.hp || x in w.knock || x in w.life) ==> Tracked(w')
    ensures SoundBut(w, x) && (Participates(w, x) ==> Sound(w', x)) ==> AllSound(w')
  {
    hide TeamOf, Slot;
    forall e | e != x && Sound(w, e) ensures Sound(w', e) {
      SoundAt(w, w', x, e);
    }
    forall e | Tracked(w) && (x in w.hp || x in w.knock || x in w.life) && (e in w'.hp || e in w'.knock || e in w'.life)
      ensures e in w'.players || e == BOT
    {
      assert e in w'.hp.Keys + {x} || e in w'.knock.Keys + {x} || e in w'.life.Keys + {x};
    }
  }

  lemma SoundAt(w: World, w': World, x: Entity, e: Entity)
    requires SameBut(w, w', x) && e != x && Sound(w, e)
    ensures Sound(w', e)
  {
    assert e in w'.hp;
    assert e in w'.knock <==> e in w.knock;
  }

  lemma CreditFrame(w: World, victim: Entity, killer: Entity)
    ensures var w' := CreditDeath(w, victim, killer);
            w' == w.(deaths := w'.deaths, kills := w'.kills, log := w'.log)
  {}

  lemma BurySame(w: World, victim: Entity, killer: Entity)
    ensures var w' := Bury(w, victim, killer);
            && SameBut(w, w', victim) && LifeOf(w', victim) == Dead && victim in w'.hp && w'.hp[victim] == 0
            && w'.knock == w.knock && w'.rescues == w.rescues
            && w'.roundOver == w.roundOver && w'.roundStart == w.roundStart && w'.lastTeamFell == w.lastTeamFell
  {
    hide CreditDeath;
    CreditFrame(w, victim, killer);
  }

  lemma KillKeeps(w: World, victim: Entity, killer: Entity)
    requires Roster(w) && Tracked(w) && Bounded(w) && SoundBut(w, victim)
    requires victim in w.hp && (Participates(w, victim) ==> victim !in w.knock)
    ensures Invariant(KillEntity(w, victim, killer))
  {
    hide EmitDeath, Observed, Bury, SameBut, SoundBut, Roster, Bounded, AllSound, Tracked;
    var w1 := Bury(w, victim, killer);
    BurySame(w, victim, killer);
    DeadIsSound(w, w1, victim);
    SameButKeeps(w, w1, victim);
    var o := Observed(w1, victim);
    EmitDeathOnlyObserving(w1, victim, o);
    ObservingKeeps(w1, EmitDeath(w1, victim, o));
  }

  lemma DeadIsSound(w: World, w': World, x: Entity)
    requires SameBut(w, w', x) && LifeOf(w', x) == Dead && x in w'.hp && w'.hp[x] == 0
    ensures x !in w'.knock ==> Sound(w', x)
  {}

  lemma FinalizeKeeps(w: World, e: Entity)
    requires Roster(w) && Tracked(w) && Bounded(w) && SoundBut(w, e) && e in w.knock
    ensures Invariant(FinalizeKnock(w, e))
  {
    hide EmitDeath, Observed, Bury, SameBut, SoundBut, Roster, Bounded, AllSound, Tracked;
    var w1 := Bury(w, e, w.knock[e].killer);
    var w2 := w1.(knock := w1.knock - {e}, rescues := w1.rescues - {e});
    BurySame(w, e, w.knock[e].killer);
    UnknockSame(w, w1, w2, e);
    DeadIsSound(w, w2, e);
    SameButKeeps(w, w2, e);
    var o := Observed(w2, e);
    EmitDeathOnlyObserving(w2, e, o);
    ObservingKeeps(w2, EmitDeath(w2, e, o));
  }

  lemma UnknockSame(w: World, w1: World, w2: World, e: Entity)
    requires SameBut(w, w1, e) && w1.knock == w.knock
    requires w2 == w1.(knock := w1.knock - {e}, rescues := w2.rescues)
    ensures SameBut(w, w2, e)
  {}

  lemma {:induction false} SweepKeeps(w: World, team: nat, order: seq<Entity>)
    requires Invariant(w)
    ensures Invariant(SweepTeam(w, team, order))
  {
    hide FinalizeKnock, TeamOf, Roster, Tracked, Bounded, AllSound, SoundBut;
    if |order| > 0 {
      var w1, e := SweepTeam(w, team, order[..|order| - 1]), order[|order| - 1];
      SweepKeeps(w, team, order[..|order| - 1]);
      SoundImpliesBut(w1, e);
      if e in w1.knock && TeamOf(e) == team && LifeOf(w1, e) == Knocked {
        FinalizeKeeps(w1, e);
      }
    }
  }

  lemma SoundImpliesBut(w: World, e: Entity)
    requires AllSound(w)
    ensures SoundBut(w, e)
  {}

  lemma KnockKeeps(w: World, victim: Entity, attacker: Entity, now: int)
    requires Roster(w) && Tracked(w) && Bounded(w) && SoundBut(w, victim) && victim in w.hp
    ensures Invariant(KnockPlayer(w, victim, attacker, now))
  {
    hide SoundBut, Roster, Bounded, AllSound, Tracked;
    var w1 := KnockPlayer(w, victim, attacker, now);
    assert SameBut(w, w1, victim);
    assert Sound(w1, victim);
    SameButKeeps(w, w1, victim);
  }

  lemma ApplyDamageKeeps(w: World, victim: Entity, attacker: Entity, dmg: nat, now: int, order: seq<Entity>)
    requires Invariant(w)
    ensures Invariant(ApplyDamage(w, victim, attacker, dmg, now, order))
  {
    hide DamageKnocked, DownOrKill, SoundBut, Roster, Bounded, Tracked;
    if w.roundOver {
    } else if LifeOf(w, victim) == Knocked {
      DamageKnockedKeeps(w, victim, dmg);
    } else if LifeOf(w, victim) == Alive && victim in w.hp && w.hp[victim] > 0 {
      var cur := if dmg >= w.hp[victim] then 0 else w.hp[victim] - dmg;
      var w1 := w.(hp := w.hp[victim := cur]);
      assert SameBut(w, w1, victim);
      SoundImpliesBut(w, victim);
      SameButKeeps(w, w1, victim);
      if cur == 0 {
        DownOrKillKeeps(w1, victim, attacker, now, order);
      }
    }
  }

  lemma DamageKnockedKeeps(w: World, victim: Entity, dmg: nat)
    requires Invariant(w) && LifeOf(w, victim) == Knocked
    ensures Invariant(DamageKnocked(w, victim, dmg))
  {
    hide FinalizeKnock, SoundBut, Roster, Bounded, Tracked;
    if victim in w.knock {
      var ks := w.knock[victim];
      var hp := if dmg >= ks.hp then 0 else ks.hp - dmg;
      var w1 := w.(knock := w.knock[victim := ks.(hp := hp)], hp := w.hp[victim := hp]);
      assert SameBut(w, w1, victim);
      SoundImpliesBut(w, victim);
      SameButKeeps(w, w1, victim);
      if dmg >= ks.hp {
        FinalizeKeeps(w1, victim);
      }
    }
  }

  lemma DownOrKillKeeps(w: World, victim: Entity, attacker: Entity, now: int, order: seq<Entity>)
    requires Roster(w) && Tracked(w) && Bounded(w) && SoundBut(w, victim) && victim in w.hp
    requires Participates(w, victim) ==> victim !in w.knock
    ensures Invariant(DownOrKill(w, victim, attacker, now, order))
  {
    hide KillEntity, KnockPlayer, SweepTeam, TeamSize, TeamAlive, Roster, Tracked, Bounded, AllSound, SoundBut;
    if TeamSize(w, TeamOf(victim)) <= 1 {
      KillKeeps(w, victim, attacker);
    } else {
      var w1 := KnockPlayer(w, victim, attacker, now);
      KnockKeeps(w, victim, attacker, now);
      SweepKeeps(w1, TeamOf(victim), order);
      FellKeeps(SweepTeam(w1, TeamOf(victim), order), TeamOf(victim));
    }
  }

  lemma FellKeeps(w: World, team: nat)
    requires Invariant(w)
    ensures Invariant(w.(lastTeamFell := team))
  {
    hide TeamOf, Slot;
    assert forall e :: Sound(w, e) ==> Sound(w.(lastTeamFell := team), e);
  }

  // ---------------------------------------------------------------- bleeding and rescues

  lemma BleedOneKeeps(w: World, e: Entity, now: int)
    requires Invariant(w)
    ensures Invariant(BleedOne(w, e, now))
  {
    hide FinalizeKnock, SoundBut, Roster, Bounded, Tracked, AllSound;
    SoundImpliesBut(w, e);
    if e in w.knock && now >= w.knock[e].deadline {
      var ks := w.knock[e].(deadline := w.knock[e].deadline + BLEED_EVERY);
      var w1 := w.(knock := w.knock[e := ks]);
      if ks.hp <= BLEED_AMOUNT {
        DeadlineKeeps(w, e, ks);
        FinalizeKeeps(w1, e);
      } else {
        var w2 := w1.(knock := w1.knock[e := ks.(hp := ks.hp - BLEED_AMOUNT)], hp := w1.hp[e := ks.hp - BLEED_AMOUNT]);
        assert w2.knock == w.knock[e := ks.(hp := ks.hp - BLEED_AMOUNT)];
        assert SameBut(w, w2, e);
        SameButKeeps(w, w2, e);
        assert Participates(w, e) ==> Sound(w2, e) by {
          SoundHere(w, e);
        }
      }
    }
  }

  lemma SoundHere(w: World, e: Entity)
    requires AllSound(w)
    ensures Participates(w, e) ==> Sound(w, e)
  {}

  lemma DeadlineKeeps(w: World, e: Entity, ks: Knock)
    requires Roster(w) && Tracked(w) && Bounded(w) && SoundBut(w, e) && e in w.knock
    ensures var w1 := w.(knock := w.knock[e := ks]);
            Roster(w1) && Tracked(w1) && Bounded(w1) && SoundBut(w1, e)
  {
    hide TeamOf, Slot;
    var w1 := w.(knock := w.knock[e := ks]);
    forall x | Participates(w1, x) && x != e ensures Sound(w1, x) {
      assert Participates(w, x) && Sound(w, x);
    }
  }

  lemma {:induction false} StepKnockKeeps(w: World, now: int, order: seq<Entity>)
    requires Invariant(w)
    ensures Invariant(StepKnock(w, now, order))
  {
    hide BleedOne, Invariant;
    if |order| > 0 {
      StepKnockKeeps(w, now, order[..|order| - 1]);
      BleedOneKeeps(StepKnock(w, now, order[..|order| - 1]), order[|order| - 1], now);
    }
  }

  /** Rescue records play no part in the invariant. */
  lemma RescuesDoNotMatter(w: World, rescues: map<Entity, Rescue>)
    requires Invariant(w)
    ensures Invariant(w.(rescues := rescues))
  {
    hide TeamOf, Slot;
    assert forall e :: Sound(w, e) <==> Sound(w.(rescues := rescues), e);
  }

  lemma CompleteRescueKeeps(w: World, target: Entity)
    requires Invariant(w) && LifeOf(w, target) == Knocked && w.maxHP >= REVIVE_HP
    ensures Invariant(CompleteRescue(w, target))
  {
    hide SoundBut, Roster, Bounded, Tracked, AllSound;
    SoundImpliesBut(w, target);
    var w1 := CompleteRescue(w, target);
    assert target in w.life;
    assert SameBut(w, w1, target);
    assert Sound(w1, target);
    SameButKeeps(w, w1, target);
  }

  lemma RescueOneKeeps(w: World, target: Entity, now: int)
    requires Invariant(w) && w.maxHP >= REVIVE_HP
    ensures Invariant(RescueOne(w, target, now))
  {
    hide Invariant, CompleteRescue;
    RescuesDoNotMatter(w, w.rescues - {target});
    var w1 := w.(rescues := w.rescues - {target});
    if LifeOf(w, target) == Knocked {
      CompleteRescueKeeps(w1, target);
    }
  }

  lemma {:induction false} StepRescueKeeps(w: World, now: int, order: seq<Entity>)
    requires Invariant(w) && w.maxHP >= REVIVE_HP
    ensures Invariant(StepRescue(w, now, order)) && StepRescue(w, now, order).maxHP == w.maxHP
  {
    hide Invariant;
    if |order| > 0 {
      StepRescueKeeps(w, now, order[..|order| - 1]);
      RescueOneKeeps(StepRescue(w, now, order[..|order| - 1]), order[|order| - 1], now);
    }
  }

  // ---------------------------------------------------------------- healing

  lemma HealTickBounds(h: Heal, hp: nat, alive: bool, maxHP: nat, now: int)
    requires h.applied <= MEDKIT_STEPS && maxHP <= MAX_SAFE_HP
    requires alive ==> 0 < hp <= maxHP
    ensures var s := HealTick(h, hp, alive, maxHP, now);
            s.0.applied <= MEDKIT_STEPS && (alive ==> 0 < s.1 <= maxHP)
  {
    hide Div;
  }

  lemma EnergyTickBounds(e: Energy, hp: nat, alive: bool, maxHP: nat, now: int)
    requires e.ep <= MAX_EP && maxHP <= MAX_SAFE_HP
    requires alive ==> 0 < hp <= maxHP
    ensures var s := EnergyTick(e, hp, alive, maxHP, now);
            s.0.ep <= MAX_EP && (alive ==> 0 < s.1 <= maxHP) && (s.0.ep != e.ep ==> alive)
  {
    hide Div;
    if e.ep > 0 && alive && hp < maxHP {
      var steps := Div(now - e.last, EP_INTERVAL);
      if steps > 0 {
        var wanted := Min(Wrap16(steps), e.ep);
        assert hp + wanted <= 0xFFFF;
        SmallWrap(hp + wanted);
      }
    }
  }

  /** Changing one player's session, within bounds. */
  lemma SessionOnlyKeeps(w: World, p: Entity, s: Session)
    requires Invariant(w) && p in w.sessions && s.energy.ep <= MAX_EP && s.heal.applied <= MEDKIT_STEPS
    ensures Invariant(w.(sessions := w.sessions[p := s]))
  {
    hide TeamOf, Slot;
    var w1 := w.(sessions := w.sessions[p := s]);
    assert forall e :: Sound(w1, e) <==> Sound(w, e);
    assert AllSound(w1);
  }

  /** Changing the HP of a living player. */
  lemma HPKeeps(w: World, p: Entity, hp: nat)
    requires Invariant(w) && p in w.players && LifeOf(w, p) == Alive && 0 < hp <= w.maxHP
    ensures Invariant(w.(hp := w.hp[p := hp]))
  {
    hide TeamOf, Slot, Bounded;
    var w1 := w.(hp := w.hp[p := hp]);
    assert Participates(w, p) && Sound(w, p) && Sound(w1, p);
    assert forall e :: e != p ==> (Sound(w1, e) <==> Sound(w, e));
    assert Bounded(w1) by { BoundedDepends(w, w1); }
  }

  lemma BoundedDepends(w: World, w': World)
    requires Bounded(w) && w'.sessions == w.sessions
    ensures Bounded(w')
  {}

  /** Both, for a player within bounds. */
  lemma SessionKeeps(w: World, p: Entity, s: Session, hp: nat)
    requires Invariant(w) && p in w.sessions
    requires s.energy.ep <= MAX_EP && s.heal.applied <= MEDKIT_STEPS
    requires LifeOf(w, p) == Alive ==> 0 < hp <= w.maxHP
    ensures Invariant(w.(sessions := w.sessions[p := s]))
    ensures LifeOf(w, p) == Alive ==> Invariant(w.(sessions := w.sessions[p := s], hp := w.hp[p := hp]))
  {
    hide Invariant;
    SessionOnlyKeeps(w, p, s);
    InvariantRoster(w);
    PlayersHaveSessions(w, p);
    if LifeOf(w, p) == Alive {
      HPKeeps(w.(sessions := w.sessions[p := s]), p, hp);
    }
  }

  lemma HealingKeeps(w: World, p: Entity, now: int)
    requires Invariant(w) && w.maxHP <= MAX_SAFE_HP
    ensures Invariant(StepHeal(w, p, now)) && Invariant(StepEP(w, p, now)) && Invariant(ResetEP(w, p))
    ensures Invariant(UseMedkit(w, p, now)) && Invariant(GrantMushroom(w, p, now))
  {
    hide Roster, Tracked, HealTick, EnergyTick;
    if p in w.sessions {
      assert Participates(w, p) by { PlayersHaveSessions(w, p); }
      var s, alive, hp := w.sessions[p], LifeOf(w, p) == Alive, HPOf(w, p);
      assert Sound(w, p);
      HealTickBounds(s.heal, hp, alive, w.maxHP, now);
      EnergyTickBounds(s.energy, hp, alive, w.maxHP, now);
      var (heal, hp1) := HealTick(s.heal, hp, alive, w.maxHP, now);
      var (energy, hp2) := EnergyTick(s.energy, hp, alive, w.maxHP, now);
      SessionKeeps(w, p, s.(heal := heal), hp1);
      SessionKeeps(w, p, s.(energy := energy), hp2);
      SessionKeeps(w, p, s.(energy := s.energy.(ep := 0, mushrooms := 0)), hp);
      SessionKeeps(w, p, s.(heal := Heal(true, now, 0)), hp);
      SessionKeeps(w, p, s.(energy := Mushroom(s.energy, now)), hp);
    }
  }

  lemma PlayersHaveSessions(w: World, p: Entity)
    requires Roster(w)
    ensures p in w.sessions <==> p in w.players
  {}

  // ---------------------------------------------------------------- rounds and roster

  lemma ReviveKeeps(w: World)
    requires Invariant(w) && w.maxHP > 0
    ensures Invariant(ReviveAll(w))
  {
    hide TeamOf, Slot, AllSound;
    var w1 := ReviveAll(w);
    ReviveRecords(w);
    forall e | Participates(w1, e) ensures Sound(w1, e) {
      assert e in Everyone(w.players, w.bot);
    }
    assert AllSound(w1) by { EachSound(w1); }
    assert w1.players == w.players && w1.sessions.Keys == w.sessions.Keys && w1.bot == w.bot;
    assert Roster(w1);
    forall p | p in w1.sessions
      ensures w1.sessions[p].energy.ep <= MAX_EP && w1.sessions[p].heal.applied <= MEDKIT_STEPS
    {
      assert w1.sessions[p] == w.sessions[p].(observing := 0);
    }
  }

  lemma EachSound(w: World)
    requires forall e | Participates(w, e) :: Sound(w, e)
    ensures AllSound(w)
  {}

  lemma ReviveRecords(w: World)
    requires Roster(w) && Tracked(w)
    ensures var w1 := ReviveAll(w);
            && Tracked(w1) && w1.knock == map[] && w1.maxHP == w.maxHP
            && forall e :: e in Everyone(w.players, w.bot) ==>
                 e in w1.hp && w1.hp[e] == w.maxHP && LifeOf(w1, e) == Alive
  {
    hide TeamOf, Slot;
  }

  lemma InitialInvariant(players: seq<Entity>, nextSlot: nat, bot: Entity, maxHP: nat)
    requires Roster(Initial(players, nextSlot, bot, maxHP)) && maxHP > 0
    ensures Invariant(Initial(players, nextSlot, bot, maxHP))
  {
    hide TeamOf, Slot;
  }

  lemma AllocIsFresh(w: World, prefer: nat)
    requires Roster(w) && w.nextSlot + 1 < 256
    ensures var e := AllocEntity(w, prefer);
            && (TeamOf(e) == 1 || TeamOf(e) == 2) && TeamOf(e) == AllocTeam(w, prefer)
            && Slot(e) == w.nextSlot + 1 && e !in w.players && e != BOT
  {
    hide CountTeam;
    var team, slot := AllocTeam(w, prefer), w.nextSlot + 1;
    assert team == 1 || team == 2;
    assert AllocEntity(w, prefer) == team * 0x100_0000 + slot;
  }

  /** addPlayer together with the HP and life seeds of admitLater. */
  function Seated(w: World, e: Entity): World {
    w.(players := w.players + [e], sessions := w.sessions[e := Session(0, NO_HEAL, NO_ENERGY)],
       nextSlot := (w.nextSlot + 1) % 256, hp := w.hp[e := w.maxHP], life := w.life[e := Alive])
  }

  lemma SeatedKeeps(w: World, e: Entity)
    requires Invariant(w) && w.nextSlot + 1 < 256 && w.maxHP > 0
    requires (TeamOf(e) == 1 || TeamOf(e) == 2) && Slot(e) == w.nextSlot + 1 && e !in w.players && e != BOT
    ensures Invariant(Seated(w, e))
  {
    hide TeamOf, Slot;
    var w1 := Seated(w, e);
    forall x | Participates(w1, x) ensures Sound(w1, x) {
      if x != e {
        assert Participates(w, x) && Sound(w, x);
      }
    }
    assert Roster(w1) by {
      SeatedRoster(w, e);
    }
  }

  lemma SeatedRoster(w: World, e: Entity)
    requires Roster(w) && w.nextSlot + 1 < 256
    requires (TeamOf(e) == 1 || TeamOf(e) == 2) && Slot(e) == w.nextSlot + 1 && e !in w.players && e != BOT
    ensures Roster(Seated(w, e))
  {
    hide TeamOf, Slot;
    assert (w.nextSlot + 1) % 256 == w.nextSlot + 1;
  }

  lemma RetireKeeps(w: World)
    requires Invariant(w)
    ensures Invariant(RetireBot(w))
  {
    hide TeamOf, Slot;
    if w.bot != 0 {
      BotIsNoPlayer(w);
      var w1 := RetireBot(w);
      forall x | Participates(w1, x) ensures Sound(w1, x) {
        assert Participates(w, x) && Sound(w, x) && x != w.bot;
      }
    }
  }

  lemma JoinKeeps(w: World, prefer: nat)
    requires Invariant(w) && w.nextSlot + 1 < 256 && w.maxHP > 0
    ensures Invariant(Join(w, prefer))
  {
    hide Invariant, AllocEntity, TeamOf, Slot, RetireBot;
    AllocIsFresh(w, prefer) by { InvariantRoster(w); }
    var e := AllocEntity(w, prefer);
    SeatedKeeps(w, e);
    RetireKeeps(Seated(w, e));
  }

  lemma InvariantRoster(w: World)
    requires Invariant(w)
    ensures Roster(w)
  {}

  lemma {:induction false} DropMembers(players: seq<Entity>, e: Entity)
    requires forall i, j :: 0 <= i < j < |players| ==> players[i] != players[j]
    ensures var d := Drop(players, e);
            && (forall p :: p in d <==> p in players && p != e)
            && (forall i, j :: 0 <= i < j < |d| ==> d[i] != d[j])
  {
    if |players| > 0 {
      var init, last := players[..|players| - 1], players[|players| - 1];
      assert forall i, j :: 0 <= i < j < |init| ==> init[i] != init[j];
      DropMembers(init, e);
      assert players == init + [last] && last !in init;
      var d, rest := Drop(players, e), Drop(init, e);
      assert d == if last == e then rest else rest + [last];
      assert last !in rest;
    }
  }

  lemma RemoveKeeps(w: World, e: Entity)
    requires Invariant(w)
    ensures Invariant(RemovePlayer(w, e))
  {
    hide Invariant, Repoint, TeamOf, Slot;
    if e in w.players {
      GoneKeeps(w, e);
      var w1 := Gone(w, e);
      RepointOnlyObserving(w1, e, 0);
      ObservingKeepsAll(w1, Repoint(w1, e, 0));
    }
  }

  lemma ObservingKeepsAll(w: World, w': World)
    requires Invariant(w) && OnlyObserving(w, w')
    ensures Invariant(w')
  {
    hide Roster, Tracked, Bounded, AllSound;
    ObservingKeeps(w, w');
  }

  /** The roster and the records without a player. */
  function Gone(w: World, e: Entity): World {
    w.(players := Drop(w.players, e), sessions := w.sessions - {e}, hp := w.hp - {e},
       life := w.life - {e}, knock := w.knock - {e})
  }

  lemma GoneKeeps(w: World, e: Entity)
    requires Invariant(w) && e in w.players
    ensures Invariant(Gone(w, e))
  {
    hide Drop, TeamOf, Slot;
    DropMembers(w.players, e);
    BotIsNoPlayer(w);
    var w1 := Gone(w, e);
    forall x | Participates(w1, x) ensures Sound(w1, x) {
      assert Participates(w, x) && Sound(w, x) && x != e;
    }
  }

  lemma BotIsNoPlayer(w: World)
    requires Roster(w)
    ensures BOT !in w.players
  {
    assert Slot(BOT) == 2;
  }

  // ---------------------------------------------------------------- whole runs

  /** The match manager seats no more than eight humans in a match, and a fallback bot does not come back
      while the one before is still on the ground. */
  ghost predicate Enabled(w: World, ev: Event) {
    && (ev.Arrival? ==> CanAdmit(w))
    && (ev.BotSpawn? ==> BOT !in w.knock)
  }

  ghost predicate Feasible(w: World, run: seq<Event>) {
    forall n :: 0 <= n < |run| ==> Enabled(Run(w, run[..n]), run[n])
  }

  predicate SafeMaxHP(maxHP: nat) {
    REVIVE_HP <= maxHP <= MAX_SAFE_HP
  }

  lemma StepKeeps(w: World, ev: Event)
    requires Invariant(w) && Enabled(w, ev) && SafeMaxHP(w.maxHP)
    ensures Invariant(Step(w, ev)) && Step(w, ev).maxHP == w.maxHP
  {
    hide Invariant;
    MaxHPStays(w, ev);
    match ev
    case Damage(victim, attacker, dmg, now, order) => ApplyDamageKeeps(w, victim, attacker, dmg, now, order);
    case Bleed(now, order) => StepKnockKeeps(w, now, order);
    case RescueStart(reviver, target, now) =>
      RescuesDoNotMatter(w, w.rescues[target := Rescue(reviver, now + REVIVE_DURATION)]);
    case RescueStop(reviver, target) => RescuesDoNotMatter(w, w.rescues - {target});
    case RescueTick(now, order) => StepRescueKeeps(w, now, order);
    case Medkit(p, now) => HealingKeeps(w, p, now);
    case HealOne(p, now) => HealingKeeps(w, p, now);
    case MushroomBuy(p, now) => HealingKeeps(w, p, now);
    case EnergyOne(p, now) => HealingKeeps(w, p, now);
    case EnergyReset(p) => HealingKeeps(w, p, 0);
    case RoundEnd => EndRoundKeeps(w);
    case Revival => ReviveKeeps(w);
    case Arrival(prefer) => JoinKeeps(w, prefer);
    case Departure(e) => RemoveKeeps(w, e);
    case BotSpawn => SpawnBotKeeps(w);
  }

  /** The fallback bot fits in exactly when no record of an earlier one is left. */
  lemma SpawnBotKeeps(w: World)
    requires Invariant(w) && w.maxHP > 0
    ensures Invariant(SpawnBot(w)) <==> BOT !in w.knock
  {
    hide TeamOf, Slot;
    var w1 := SpawnBot(w);
    assert LifeOf(w1, BOT) == Alive && Participates(w1, BOT);
    if BOT in w.knock {
      assert !Sound(w1, BOT);
    } else {
      forall e | Participates(w1, e) ensures Sound(w1, e) {
        assert e != BOT ==> Participates(w, e) && Sound(w, e);
      }
    }
  }

  lemma EndRoundKeeps(w: World)
    requires Invariant(w)
    ensures Invariant(EndRound(w))
  {
    hide TeamOf, Slot;
    assert forall e :: Sound(w, e) <==> Sound(EndRound(w), e);
  }

  lemma EmitMaxHP(w: World, victim: Entity, observe: Entity)
    ensures EmitDeath(w, victim, observe).maxHP == w.maxHP
  {}

  lemma {:induction false} SweepMaxHP(w: World, team: nat, order: seq<Entity>)
    ensures SweepTeam(w, team, order).maxHP == w.maxHP
  {
    hide EmitDeath, CreditDeath, Observed;
    if |order| > 0 {
      SweepMaxHP(w, team, order[..|order| - 1]);
      var w1, e := SweepTeam(w, team, order[..|order| - 1]), order[|order| - 1];
      if e in w1.knock {
        FinalizeMaxHP(w1, e);
      }
    }
  }

  lemma FinalizeMaxHP(w: World, e: Entity)
    requires e in w.knock
    ensures FinalizeKnock(w, e).maxHP == w.maxHP
  {
    hide EmitDeath, CreditDeath, Observed;
    CreditFrame(w, e, w.knock[e].killer);
    var w1 := Bury(w, e, w.knock[e].killer);
    var w2 := w1.(knock := w1.knock - {e}, rescues := w1.rescues - {e});
    EmitMaxHP(w2, e, Observed(w2, e));
  }

  lemma {:induction false} StepKnockMaxHP(w: World, now: int, order: seq<Entity>)
    ensures StepKnock(w, now, order).maxHP == w.maxHP
  {
    hide FinalizeKnock;
    if |order| > 0 {
      StepKnockMaxHP(w, now, order[..|order| - 1]);
      var w1, e := StepKnock(w, now, order[..|order| - 1]), order[|order| - 1];
      if e in w1.knock {
        FinalizeMaxHP(w1.(knock := w1.knock[e := w1.knock[e].(deadline := w1.knock[e].deadline + BLEED_EVERY)]), e);
      }
    }
  }

  lemma {:induction false} StepRescueMaxHP(w: World, now: int, order: seq<Entity>)
    ensures StepRescue(w, now, order).maxHP == w.maxHP
  {
    if |order| > 0 {
      StepRescueMaxHP(w, now, order[..|order| - 1]);
    }
  }

  lemma MaxHPStays(w: World, ev: Event)
    ensures Step(w, ev).maxHP == w.maxHP
  {
    hide StepKnock, StepRescue, ApplyDamage, RemovePlayer, StepHeal, StepEP, Join, ReviveAll, StartRescue;
    match ev
    case Damage(victim, attacker, dmg, now, order) => DamageMaxHP(w, victim, attacker, dmg, now, order);
    case Bleed(now, order) => StepKnockMaxHP(w, now, order);
    case RescueTick(now, order) => StepRescueMaxHP(w, now, order);
    case Departure(e) => DepartureMaxHP(w, e);
    case HealOne(p, now) => HealingMaxHP(w, p, now);
    case EnergyOne(p, now) => HealingMaxHP(w, p, now);
    case Arrival(prefer) => RosterMaxHP(w, prefer);
    case Revival => RosterMaxHP(w, 0);
    case RescueStart(reviver, target, now) => StartRescueMaxHP(w, reviver, target, now);
    case _ =>
  }

  lemma StepHealIs(w: World, p: Entity, now: int)
    requires p in w.sessions
    ensures var s, alive := w.sessions[p], LifeOf(w, p) == Alive;
            var (heal, hp) := HealTick(s.heal, HPOf(w, p), alive, w.maxHP, now);
            StepHeal(w, p, now)
            == if !s.heal.active then w
               else if alive && heal.applied != s.heal.applied
               then w.(sessions := w.sessions[p := s.(heal := heal)], hp := w.hp[p := hp])
               else w.(sessions := w.sessions[p := s.(heal := heal)])
  {
    hide HealTick, LifeOf, HPOf;
  }

  lemma StepEPIs(w: World, p: Entity, now: int)
    requires p in w.sessions
    ensures var s := w.sessions[p];
            var (energy, hp) := EnergyTick(s.energy, HPOf(w, p), LifeOf(w, p) == Alive, w.maxHP, now);
            StepEP(w, p, now)
            == if energy.ep != s.energy.ep then w.(sessions := w.sessions[p := s.(energy := energy)], hp := w.hp[p := hp])
               else w.(sessions := w.sessions[p := s.(energy := energy)])
  {
    hide EnergyTick, LifeOf, HPOf;
  }

  lemma HealingMaxHP(w: World, p: Entity, now: int)
    ensures StepHeal(w, p, now).maxHP == w.maxHP && StepEP(w, p, now).maxHP == w.maxHP
  {
    if p in w.sessions {
      hide StepHeal, StepEP, HealTick, EnergyTick, LifeOf, HPOf;
      StepHealIs(w, p, now);
      StepEPIs(w, p, now);
    }
  }

  lemma RosterMaxHP(w: World, prefer: nat)
    ensures Join(w, prefer).maxHP == w.maxHP && ReviveAll(w).maxHP == w.maxHP
  {
    hide AllocEntity;
  }

  lemma DepartureMaxHP(w: World, e: Entity)
    ensures RemovePlayer(w, e).maxHP == w.maxHP
  {}

  lemma StartRescueMaxHP(w: World, reviver: Entity, target: Entity, now: int)
    ensures StartRescue(w, reviver, target, now).maxHP == w.maxHP
  {
    hide TeamOf;
  }

  lemma DamageMaxHP(w: World, victim: Entity, attacker: Entity, dmg: nat, now: int, order: seq<Entity>)
    ensures ApplyDamage(w, victim, attacker, dmg, now, order).maxHP == w.maxHP
  {
    hide SweepTeam, CreditDeath, EmitDeath, FinalizeKnock, Observed, TeamSize, TeamAlive;
    if victim in w.knock {
      var ks := w.knock[victim];
      FinalizeMaxHP(w.(knock := w.knock[victim := ks.(hp := 0)], hp := w.hp[victim := 0]), victim);
    }
    var w1 := w.(hp := w.hp[victim := 0]);
    var b := Bury(w1, victim, attacker);
    CreditFrame(w1, victim, attacker);
    EmitMaxHP(b, victim, Observed(b, victim));
    SweepMaxHP(KnockPlayer(w1, victim, attacker, now), TeamOf(victim), order);
  }

  /** Over every interleaving of every event, from any starting roster: each participant is in the knock
      records exactly when knocked down, with the bleed pool as HP, is dead with no HP, or alive with
      some and no more than the full HP. */
  lemma {:induction false} RunKeeps(w: World, run: seq<Event>)
    requires Invariant(w) && SafeMaxHP(w.maxHP) && Feasible(w, run)
    ensures Invariant(Run(w, run)) && Run(w, run).maxHP == w.maxHP
  {
    hide Invariant, Step, Enabled;
    if |run| > 0 {
      var init := run[..|run| - 1];
      assert Feasible(w, init) by {
        forall n | 0 <= n < |init| ensures Enabled(Run(w, init[..n]), init[n]) {
          assert init[..n] == run[..n];
        }
      }
      RunKeeps(w, init);
      assert Enabled(Run(w, run[..|run| - 1]), run[|run| - 1]);
      StepKeeps(Run(w, init), run[|run| - 1]);
    }
  }
}
