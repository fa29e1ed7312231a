/** A wiped team has nobody left on the ground: over every run of every event, with the exact condition on
    those who leave. */
module MatchStanding {
  import opened MatchState
  import opened MatchVitals
  import opened MatchRounds
  import opened MatchTeams

  ghost predicate SomeoneAlive(w: World, team: nat) {
    exists e :: Participates(w, e) && TeamOf(e) == team && LifeOf(w, e) == Alive
  }

  /** A team with nobody standing has nobody on the ground. */
  ghost predicate Standing(w: World) {
    forall e :: Participates(w, e) && LifeOf(w, e) == Knocked ==> SomeoneAlive(w, TeamOf(e))
  }

  // ---------------------------------------------------------------- counting the living

  lemma {:induction false} NobodyCounted(w: World, players: seq<Entity>, team: nat)
    ensures CountAlive(w, players, team) == 0
       <==> forall p :: p in players ==> !(TeamOf(p) == team && LifeOf(w, p) == Alive)
  {
    hide TeamOf;
    if |players| > 0 {
      NobodyCounted(w, players[..|players| - 1], team);
      assert players == players[..|players| - 1] + [players[|players| - 1]];
    }
  }

  lemma AliveCounts(w: World, team: nat)
    requires Roster(w)
    ensures TeamAlive(w, team) == 0 <==> !SomeoneAlive(w, team)
  {
    hide Slot;
    NobodyCounted(w, w.players, team);
    assert TeamOf(BOT) == ENEMY_TEAM;
  }

  lemma {:induction false} CountedOnce(players: seq<Entity>, team: nat, p: Entity)
    requires p in players && TeamOf(p) == team && CountTeam(players, team) <= 1
    ensures forall q :: q in players && TeamOf(q) == team ==> q == p
  {
    hide TeamOf;
    var init, last := players[..|players| - 1], players[|players| - 1];
    assert players == init + [last];
    if TeamOf(last) == team {
      NoneCounted(init, team);
    } else {
      CountedOnce(init, team, p);
    }
  }

  lemma {:induction false} NoneCounted(players: seq<Entity>, team: nat)
    ensures CountTeam(players, team) == 0 <==> forall q :: q in players ==> TeamOf(q) != team
  {
    hide TeamOf;
    if |players| > 0 {
      NoneCounted(players[..|players| - 1], team);
      assert players == players[..|players| - 1] + [players[|players| - 1]];
    }
  }

  lemma AloneInTeam(w: World, victim: Entity)
    requires Roster(w) && Participates(w, victim) && TeamSize(w, TeamOf(victim)) <= 1
    ensures forall q :: Participates(w, q) && TeamOf(q) == TeamOf(victim) ==> q == victim
  {
    hide Slot;
    var team := TeamOf(victim);
    assert TeamOf(BOT) == ENEMY_TEAM;
    if victim in w.players {
      CountedOnce(w.players, team, victim);
      if team == ENEMY_TEAM && w.bot != 0 {
        NoneCounted(w.players, team);
      }
    } else {
      NoneCounted(w.players, team);
    }
  }

  // ---------------------------------------------------------------- a hit

  /** Standing depends on the roster and on who is alive and knocked. */
  lemma StandingDepends(w: World, w': World)
    requires Standing(w) && w'.players == w.players && w'.bot == w.bot
    requires forall e :: Participates(w, e) && LifeOf(w, e) == Alive ==> LifeOf(w', e) == Alive
    requires forall e :: Participates(w, e) && LifeOf(w', e) == Knocked ==> LifeOf(w, e) == Knocked
    ensures Standing(w')
  {
    hide TeamOf;
    forall e | Participates(w', e) && LifeOf(w', e) == Knocked ensures SomeoneAlive(w', TeamOf(e)) {
      var a :| Participates(w, a) && TeamOf(a) == TeamOf(e) && LifeOf(w, a) == Alive;
      assert Participates(w', a) && LifeOf(w', a) == Alive;
    }
  }

  /** The death of a team of one leaves nobody of it on the ground. */
  lemma LonelyDeath(w: World, w': World, victim: Entity, killer: Entity)
    requires Roster(w) && Participates(w, victim) && TeamSize(w, TeamOf(victim)) <= 1
    requires Standing(w) && Died(w, w', victim, killer)
    ensures Standing(w')
  {
    hide TeamSize, TeamOf, Roster, CreditDeath;
    AloneInTeam(w, victim);
    forall e | Participates(w', e) && LifeOf(w', e) == Knocked ensures SomeoneAlive(w', TeamOf(e)) {
      assert Participates(w, e) && LifeOf(w, e) == Knocked;
      var a :| Participates(w, a) && TeamOf(a) == TeamOf(e) && LifeOf(w, a) == Alive;
      assert Participates(w', a);
    }
  }

  lemma KnockStanding(w: World, w1: World, victim: Entity)
    requires Standing(w) && w1.players == w.players && w1.bot == w.bot
    requires LifeOf(w1, victim) == Knocked && forall e :: e != victim ==> LifeOf(w1, e) == LifeOf(w, e)
    requires SomeoneAlive(w1, TeamOf(victim))
    ensures Standing(w1)
  {
    hide TeamOf;
    forall e | Participates(w1, e) && LifeOf(w1, e) == Knocked ensures SomeoneAlive(w1, TeamOf(e)) {
      if TeamOf(e) != TeamOf(victim) {
        assert Participates(w, e);
        var a :| Participates(w, a) && TeamOf(a) == TeamOf(e) && LifeOf(w, a) == Alive;
        assert Participates(w1, a);
      }
    }
  }

  /** The sweep finishes whom it visits among the knocked of the team, and nobody else. */
  lemma {:induction false} SweepLife(w: World, team: nat, order: seq<Entity>)
    ensures var w' := SweepTeam(w, team, order);
            && w'.players == w.players && w'.bot == w.bot && w'.knock.Keys <= w.knock.Keys
            && (forall e :: LifeOf(w', e) == if e in order && e in w.knock && TeamOf(e) == team && LifeOf(w, e) == Knocked
                                             then Dead else LifeOf(w, e))
            && (forall e :: e in w.knock && LifeOf(w', e) != Dead ==> e in w'.knock)
  {
    hide FinalizeKnock, TeamOf;
    if |order| > 0 {
      var init, e := order[..|order| - 1], order[|order| - 1];
      SweepLife(w, team, init);
      var w1 := SweepTeam(w, team, init);
      assert forall x :: x in order <==> x in init || x == e;
      if e in w1.knock && TeamOf(e) == team && LifeOf(w1, e) == Knocked {
        FinalizeLife(w1, e);
        assert e in w1.knock.Keys;
      }
    }
  }

  lemma FinalizeLife(w: World, e: Entity)
    requires e in w.knock
    ensures var w' := FinalizeKnock(w, e);
            && w'.players == w.players && w'.bot == w.bot && w'.knock == w.knock - {e}
            && LifeOf(w', e) == Dead && forall x :: x != e ==> LifeOf(w', x) == LifeOf(w, x)
  {
    hide FinalizeKnock, CreditDeath;
    FinalizeIsDeath(w, e);
  }

  /** Whoever is on the ground, but for the victim, is visited. */
  ghost predicate Visits(w: World, victim: Entity, order: seq<Entity>) {
    forall e :: e == victim || (Participates(w, e) && LifeOf(w, e) == Knocked) ==> e in order && (e == victim || e in w.knock)
  }

  /** A lethal hit, be it on a participant or on what a bot left behind. */
  lemma DownOrKillStanding(w: World, victim: Entity, attacker: Entity, now: int, order: seq<Entity>)
    requires Roster(w) && Standing(w) && LifeOf(w, victim) == Alive && Visits(w, victim, order)
    ensures Standing(DownOrKill(w, victim, attacker, now, order))
  {
    hide KillEntity, KnockPlayer, SweepTeam, TeamSize, TeamAlive, TeamOf, Roster, Standing;
    var team := TeamOf(victim);
    if TeamSize(w, team) <= 1 {
      KillStanding(w, victim, attacker);
    } else {
      var w1 := KnockPlayer(w, victim, attacker, now);
      Downed(w, victim, attacker, now);
      AliveCounts(w1, team);
      if TeamAlive(w1, team) == 0 {
        SweptIsStanding(w, w1, victim, order, team);
        FellStanding(SweepTeam(w1, team, order), team);
      } else {
        KnockStanding(w, w1, victim);
      }
    }
  }

  lemma KillStanding(w: World, victim: Entity, attacker: Entity)
    requires Roster(w) && Standing(w) && LifeOf(w, victim) == Alive && TeamSize(w, TeamOf(victim)) <= 1
    ensures Standing(KillEntity(w, victim, attacker))
  {
    hide KillEntity, TeamSize, TeamOf, Roster, CreditDeath, Standing;
    KillIsDeath(w, victim, attacker);
    if Participates(w, victim) {
      LonelyDeath(w, KillEntity(w, victim, attacker), victim, attacker);
    } else {
      StandingDepends(w, KillEntity(w, victim, attacker));
    }
  }

  lemma Downed(w: World, victim: Entity, attacker: Entity, now: int)
    requires Roster(w)
    ensures var w1 := KnockPlayer(w, victim, attacker, now);
            && Roster(w1) && w1.players == w.players && w1.bot == w.bot && w1.knock.Keys == w.knock.Keys + {victim}
            && LifeOf(w1, victim) == Knocked && forall e :: e != victim ==> LifeOf(w1, e) == LifeOf(w, e)
  {}

  lemma SweptIsStanding(w: World, w1: World, victim: Entity, order: seq<Entity>, team: nat)
    requires Standing(w) && w1.players == w.players && w1.bot == w.bot && team == TeamOf(victim)
    requires w1.knock.Keys == w.knock.Keys + {victim} && Visits(w, victim, order)
    requires LifeOf(w1, victim) == Knocked && forall e :: e != victim ==> LifeOf(w1, e) == LifeOf(w, e)
    ensures Standing(SweepTeam(w1, team, order))
  {
    hide TeamOf, SweepTeam;
    SweepLife(w1, team, order);
    var w2 := SweepTeam(w1, team, order);
    forall e | Participates(w2, e) && LifeOf(w2, e) == Knocked ensures SomeoneAlive(w2, TeamOf(e)) {
      assert e == victim || (Participates(w, e) && LifeOf(w, e) == Knocked);
      assert e in w1.knock.Keys && e in order;
      assert TeamOf(e) != team;
      var a :| Participates(w, a) && TeamOf(a) == TeamOf(e) && LifeOf(w, a) == Alive;
      assert Participates(w2, a) && LifeOf(w2, a) == Alive;
    }
  }

  lemma FellStanding(w: World, team: nat)
    requires Standing(w)
    ensures Standing(w.(lastTeamFell := team))
  {
    hide TeamOf;
    StandingDepends(w, w.(lastTeamFell := team));
  }

  lemma DamageStanding(w: World, victim: Entity, attacker: Entity, dmg: nat, now: int, order: seq<Entity>)
    requires Invariant(w) && Standing(w) && forall e :: e in w.knock || e == victim ==> e in order
    ensures Standing(ApplyDamage(w, victim, attacker, dmg, now, order))
  {
    hide DamageKnocked, DownOrKill, Standing, Roster, Tracked, Bounded, AllSound;
    if w.roundOver {
    } else if LifeOf(w, victim) == Knocked {
      DamageKnockedStanding(w, victim, dmg);
    } else if LifeOf(w, victim) == Alive && victim in w.hp && w.hp[victim] > 0 {
      var cur := if dmg >= w.hp[victim] then 0 else w.hp[victim] - dmg;
      var w1 := w.(hp := w.hp[victim := cur]);
      StandingDepends(w, w1);
      if cur == 0 {
        RosterKept(w, w1);
        GroundVisited(w, w1, victim, order);
        DownOrKillStanding(w1, victim, attacker, now, order);
      }
    }
  }

  lemma RosterKept(w: World, w': World)
    requires Roster(w) && w'.players == w.players && w'.sessions == w.sessions && w'.bot == w.bot
    requires w'.nextSlot == w.nextSlot
    ensures Roster(w')
  {}

  lemma GroundVisited(w: World, w1: World, victim: Entity, order: seq<Entity>)
    requires AllSound(w) && forall e :: e in w.knock || e == victim ==> e in order
    requires w1.players == w.players && w1.bot == w.bot && w1.knock == w.knock && w1.life == w.life
    ensures Visits(w1, victim, order)
  {
    forall e | Participates(w1, e) && LifeOf(w1, e) == Knocked ensures e in w1.knock {
      assert Participates(w, e) && Sound(w, e);
    }
  }

  lemma DamageKnockedStanding(w: World, victim: Entity, dmg: nat)
    requires Standing(w) && LifeOf(w, victim) == Knocked
    ensures Standing(DamageKnocked(w, victim, dmg))
  {
    hide FinalizeKnock, Standing;
    if victim in w.knock {
      var ks := w.knock[victim];
      var hp := if dmg >= ks.hp then 0 else ks.hp - dmg;
      var w1 := w.(knock := w.knock[victim := ks.(hp := hp)], hp := w.hp[victim := hp]);
      StandingDepends(w, w1);
      if dmg >= ks.hp {
        FinalizeLife(w1, victim);
        StandingDepends(w1, FinalizeKnock(w1, victim));
      }
    }
  }

  // ---------------------------------------------------------------- ticks

  lemma BleedOneStanding(w: World, e: Entity, now: int)
    requires Standing(w) && (e in w.knock && Participates(w, e) ==> LifeOf(w, e) == Knocked)
    ensures Standing(BleedOne(w, e, now))
  {
    hide FinalizeKnock, Standing;
    if e in w.knock && now >= w.knock[e].deadline {
      var w1 := w.(knock := w.knock[e := w.knock[e].(deadline := w.knock[e].deadline + BLEED_EVERY)]);
      StandingDepends(w, w1);
      if w.knock[e].hp <= BLEED_AMOUNT {
        FinalizeLife(w1, e);
        StandingDepends(w1, FinalizeKnock(w1, e));
      } else {
        StandingDepends(w, BleedOne(w, e, now));
      }
    }
  }

  lemma {:induction false} StepKnockStanding(w: World, now: int, order: seq<Entity>)
    requires Invariant(w) && Standing(w)
    ensures Standing(StepKnock(w, now, order))
  {
    hide Invariant, Standing, BleedOne;
    if |order| > 0 {
      var init, e := order[..|order| - 1], order[|order| - 1];
      StepKnockStanding(w, now, init);
      StepKnockKeeps(w, now, init);
      DownWhenKnocked(StepKnock(w, now, init), e);
      BleedOneStanding(StepKnock(w, now, init), e, now);
    }
  }

  lemma DownWhenKnocked(w: World, e: Entity)
    requires Invariant(w)
    ensures e in w.knock && Participates(w, e) ==> LifeOf(w, e) == Knocked
  {
    hide Roster, Tracked, Bounded, Participates;
    assert Participates(w, e) ==> Sound(w, e);
  }

  lemma RescueOneStanding(w: World, target: Entity, now: int)
    requires Standing(w)
    ensures Standing(RescueOne(w, target, now))
  {
    hide Standing, RescueOne;
    RescueOneLife(w, target, now);
    StandingDepends(w, RescueOne(w, target, now));
  }

  /** A rescue puts somebody from the ground on their feet, or nobody. */
  lemma RescueOneLife(w: World, target: Entity, now: int)
    ensures var w' := RescueOne(w, target, now);
            && w'.players == w.players && w'.bot == w.bot
            && forall e :: LifeOf(w', e) == LifeOf(w, e) || LifeOf(w', e) == Alive
  {
    if target in w.rescues {
      var w1 := w.(rescues := w.rescues - {target});
      assert forall e :: LifeOf(w1, e) == LifeOf(w, e);
      assert forall e :: LifeOf(CompleteRescue(w1, target), e) == if e == target then Alive else LifeOf(w1, e);
    }
  }

  lemma {:induction false} StepRescueStanding(w: World, now: int, order: seq<Entity>)
    requires Standing(w)
    ensures Standing(StepRescue(w, now, order))
  {
    hide Standing, RescueOne;
    if |order| > 0 {
      StepRescueStanding(w, now, order[..|order| - 1]);
      RescueOneStanding(StepRescue(w, now, order[..|order| - 1]), order[|order| - 1], now);
    }
  }

  lemma ReviveStanding(w: World)
    ensures Standing(ReviveAll(w))
  {
    hide TeamOf;
    var w1 := ReviveAll(w);
    forall e | Participates(w1, e) ensures LifeOf(w1, e) == Alive {
      assert e in Everyone(w.players, w.bot);
    }
  }

  // ---------------------------------------------------------------- the roster

  lemma ArrivalStanding(w: World, w': World, e: Entity)
    requires Standing(w) && LifeOf(w', e) == Alive
    requires forall x :: Participates(w, x) && x != e ==> Participates(w', x) && LifeOf(w', x) == LifeOf(w, x)
    requires forall x :: Participates(w', x) ==> x == e || Participates(w, x)
    requires Participates(w', e)
    ensures Standing(w')
  {
    hide TeamOf;
    forall x | Participates(w', x) && LifeOf(w', x) == Knocked ensures SomeoneAlive(w', TeamOf(x)) {
      var a :| Participates(w, a) && TeamOf(a) == TeamOf(x) && LifeOf(w, a) == Alive;
      assert Participates(w', a) || a == e;
      assert LifeOf(w', a) == Alive;
    }
  }

  /** Without a bot to retire an arrival adds somebody who is up. */
  lemma JoinStanding(w: World, prefer: nat)
    requires Roster(w) && Standing(w) && w.bot == 0 && CanAdmit(w)
    ensures Standing(Join(w, prefer))
  {
    hide TeamOf, Slot, AllocEntity, Standing, Roster;
    AllocIsFresh(w, prefer);
    var e, w1 := AllocEntity(w, prefer), Join(w, prefer);
    assert w1 == Seated(w, e);
    forall x | Participates(w, x) && x != e ensures Participates(w1, x) && LifeOf(w1, x) == LifeOf(w, x) {}
    ArrivalStanding(w, w1, e);
  }

  lemma BotStanding(w: World)
    requires Invariant(w) && Standing(w)
    ensures Standing(SpawnBot(w))
  {
    hide TeamOf, Standing, Tracked, Bounded, AllSound;
    ArrivalStanding(w, SpawnBot(w), BOT);
  }

  /** The bot is the last of its team to stand, and a human of the team is on the ground. */
  ghost predicate LastIsBot(w: World) {
    && LifeOf(w, w.bot) == Alive
    && (exists k :: k in w.players && TeamOf(k) == ENEMY_TEAM && LifeOf(w, k) == Knocked)
    && (forall a :: a in w.players && TeamOf(a) == ENEMY_TEAM ==> LifeOf(w, a) != Alive)
  }

  /** An arrival that retires the bot leaves a fallen team with nobody standing exactly when the bot was the
      last to stand and the newcomer joins the other team. */
  lemma RetirementStanding(w: World, prefer: nat)
    requires Roster(w) && Standing(w) && w.bot != 0 && CanAdmit(w)
    ensures Standing(Join(w, prefer)) <==> !(LastIsBot(w) && AllocTeam(w, prefer) != ENEMY_TEAM)
  {
    hide Slot, AllocEntity, AllocTeam, TeamOf;
    AllocIsFresh(w, prefer);
    BotIsNoPlayer(w);
    var e, w1 := AllocEntity(w, prefer), Join(w, prefer);
    assert TeamOf(BOT) == ENEMY_TEAM by { BotTeam(); }
    assert forall x :: Participates(w1, x) <==> x == e || x in w.players;
    assert forall x :: x in w.players ==> LifeOf(w1, x) == LifeOf(w, x);
    assert LifeOf(w1, e) == Alive;
    if LastIsBot(w) && AllocTeam(w, prefer) != ENEMY_TEAM {
      var k :| k in w.players && TeamOf(k) == ENEMY_TEAM && LifeOf(w, k) == Knocked;
      assert Participates(w1, k) && LifeOf(w1, k) == Knocked && !SomeoneAlive(w1, TeamOf(k));
    } else {
      forall k | Participates(w1, k) && LifeOf(w1, k) == Knocked ensures SomeoneAlive(w1, TeamOf(k)) {
        assert Participates(w, k) && LifeOf(w, k) == Knocked;
        var a :| Participates(w, a) && TeamOf(a) == TeamOf(k) && LifeOf(w, a) == Alive;
        if a in w.players {
          assert Participates(w1, a) && LifeOf(w1, a) == Alive;
        } else if AllocTeam(w, prefer) == ENEMY_TEAM {
          assert Participates(w1, e) && TeamOf(e) == TeamOf(k);
        } else {
          var b :| b in w.players && TeamOf(b) == ENEMY_TEAM && LifeOf(w, b) == Alive;
          assert Participates(w1, b) && LifeOf(w1, b) == Alive;
        }
      }
    }
  }

  /** The leaver is the last of its team to stand, and somebody of the team is on the ground. */
  ghost predicate LastStander(w: World, e: Entity) {
    && e in w.players && LifeOf(w, e) == Alive
    && (exists k :: Participates(w, k) && TeamOf(k) == TeamOf(e) && LifeOf(w, k) == Knocked)
    && (forall a :: Participates(w, a) && a != e && TeamOf(a) == TeamOf(e) ==> LifeOf(w, a) != Alive)
  }

  /** A departure leaves a fallen team with nobody standing exactly when the leaver was the last to stand. */
  lemma DepartureStanding(w: World, e: Entity)
    requires Roster(w) && Standing(w) && e in w.players
    ensures Standing(RemovePlayer(w, e)) <==> !LastStander(w, e)
  {
    hide Roster, RemovePlayer, TeamOf;
    var w1 := RemovePlayer(w, e);
    Departed(w, e);
    if LastStander(w, e) {
      var k :| Participates(w, k) && TeamOf(k) == TeamOf(e) && LifeOf(w, k) == Knocked;
      assert Participates(w1, k) && LifeOf(w1, k) == Knocked && !SomeoneAlive(w1, TeamOf(k));
    } else {
      forall k | Participates(w1, k) && LifeOf(w1, k) == Knocked ensures SomeoneAlive(w1, TeamOf(k)) {
        assert Participates(w, k) && LifeOf(w, k) == Knocked;
        var a :| Participates(w, a) && TeamOf(a) == TeamOf(k) && LifeOf(w, a) == Alive;
        if a == e {
          var b :| Participates(w, b) && b != e && TeamOf(b) == TeamOf(e) && LifeOf(w, b) == Alive;
          assert Participates(w1, b) && LifeOf(w1, b) == Alive;
        } else {
          assert Participates(w1, a) && LifeOf(w1, a) == Alive;
        }
      }
    }
  }

  // ---------------------------------------------------------------- whole runs

  /** Every record is visited, the new one included. */
  ghost predicate Visiting(w: World, ev: Event) {
    Enabled(w, ev) && (ev.Damage? ==> forall e :: e in w.knock || e == ev.victim ==> e in ev.order)
  }

  /** Nobody leaves, and no bot makes room, as the last one standing over a fallen team. */
  ghost predicate Harmless(w: World, ev: Event) {
    && (ev.Departure? ==> !LastStander(w, ev.e))
    && (ev.Arrival? && w.bot != 0 ==> !(LastIsBot(w) && AllocTeam(w, ev.prefer) != ENEMY_TEAM))
  }

  /** Of all events, exactly these two break the promise. */
  lemma StepStanding(w: World, ev: Event)
    requires Invariant(w) && Standing(w) && Visiting(w, ev)
    ensures Standing(Step(w, ev)) <==> Harmless(w, ev)
  {
    hide Invariant, Standing, ApplyDamage, StepKnock, StepRescue, ReviveAll, Join, RemovePlayer, SpawnBot, LastStander, LastIsBot,
         AllocTeam, CanAdmit;
    InvariantRoster(w);
    match ev
    case Damage(victim, attacker, dmg, now, order) => DamageStanding(w, victim, attacker, dmg, now, order);
    case Bleed(now, order) => StepKnockStanding(w, now, order);
    case RescueTick(now, order) => StepRescueStanding(w, now, order);
    case Revival => ReviveStanding(w);
    case Arrival(prefer) =>
      if w.bot == 0 {
        JoinStanding(w, prefer);
      } else {
        RetirementStanding(w, prefer);
      }
    case Departure(e) =>
      if e in w.players {
        DepartureStanding(w, e);
      } else {
        LeavesNobody(w, e);
      }
    case BotSpawn => BotStanding(w);
    case _ =>
      QuietStep(w, ev);
      StandingDepends(w, Step(w, ev));
  }

  lemma LeavesNobody(w: World, e: Entity)
    requires e !in w.players
    ensures RemovePlayer(w, e) == w && !LastStander(w, e)
  {}

  ghost predicate HarmlessRun(w: World, run: seq<Event>) {
    forall n :: 0 <= n < |run| ==> Visiting(Run(w, run[..n]), run[n]) && Harmless(Run(w, run[..n]), run[n])
  }

  lemma HarmlessPrefix(w: World, run: seq<Event>)
    requires HarmlessRun(w, run) && |run| > 0
    ensures var init := run[..|run| - 1];
            HarmlessRun(w, init) && Visiting(Run(w, init), run[|run| - 1]) && Harmless(Run(w, init), run[|run| - 1])
  {
    hide Run, Visiting, Harmless;
    var init := run[..|run| - 1];
    forall n | 0 <= n < |init| ensures Visiting(Run(w, init[..n]), init[n]) && Harmless(Run(w, init[..n]), init[n]) {
      assert init[..n] == run[..n];
    }
  }

  lemma VisitingEnabled(w: World, ev: Event)
    requires Visiting(w, ev)
    ensures Enabled(w, ev)
  {}

  /** Over every such run, with humans coming and going and the bot making room, after every event: a team
      with nobody standing has nobody on the ground. */
  lemma {:induction false} RunStanding(w: World, maxHP: nat, run: seq<Event>)
    requires Starts(w, maxHP) && SafeMaxHP(maxHP) && HarmlessRun(w, run)
    ensures Standing(Run(w, run)) && Invariant(Run(w, run)) && Run(w, run).maxHP == maxHP
  {
    hide Invariant, Standing, Step, Starts, Visiting, Harmless;
    StartIsInvariant(w, maxHP);
    if |run| == 0 {
      StartIsStanding(w, maxHP);
    } else {
      var init := run[..|run| - 1];
      HarmlessPrefix(w, run);
      RunStanding(w, maxHP, init);
      VisitingEnabled(Run(w, init), run[|run| - 1]);
      StepKeeps(Run(w, init), run[|run| - 1]);
      StepStanding(Run(w, init), run[|run| - 1]);
    }
  }

  lemma StartIsStanding(w: World, maxHP: nat)
    requires Starts(w, maxHP)
    ensures Standing(w)
  {
    hide TeamOf, Roster;
  }
}
