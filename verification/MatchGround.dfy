/** How a knock ends: who may be revived and when, and how long the ground is survived, over every run. */
module MatchGround {
  import opened MatchState
  import opened MatchVitals
  import opened MatchRounds
  import opened MatchTeams
  import opened MatchKillers

  // ---------------------------------------------------------------- rescues

  /** The n-th event began the rescue on record, and nothing has touched it since: a living teammate of somebody
      on the ground whom nobody was reviving, with four seconds to go. */
  ghost predicate Began(w: World, run: seq<Event>, n: nat, target: Entity, r: Rescue) {
    && n < |run| && run[n].RescueStart? && run[n].reviver == r.reviver && run[n].target == target
    && LifeOf(Run(w, run[..n]), target) == Knocked && LifeOf(Run(w, run[..n]), r.reviver) == Alive
    && r.reviver / 0x100_0000 % 256 == target / 0x100_0000 % 256
    && r.completeAt == run[n].now + 4_000_000_000
    && target !in Run(w, run[..n]).rescues && forall m :: n < m <= |run| ==> OnFile(w, run[..m], target, r)
  }

  ghost predicate OnFile(w: World, run: seq<Event>, target: Entity, r: Rescue) {
    target in Run(w, run).rescues && Run(w, run).rescues[target] == r
  }

  ghost predicate Begun(w: World, run: seq<Event>, target: Entity, r: Rescue) {
    exists n: nat :: Began(w, run, n, target, r)
  }

  lemma BegunBefore(w: World, run: seq<Event>, target: Entity, r: Rescue)
    requires |run| > 0 && Begun(w, run[..|run| - 1], target, r) && OnFile(w, run, target, r)
    ensures Begun(w, run, target, r)
  {
    hide Run, OnFile;
    var init := run[..|run| - 1];
    var n: nat :| Began(w, init, n, target, r);
    assert init[..n] == run[..n];
    forall m | n < m <= |run| ensures OnFile(w, run[..m], target, r) {
      if m <= |init| {
        assert init[..m] == run[..m];
      } else {
        assert run[..m] == run;
      }
    }
    assert Began(w, run, n, target, r);
  }

  /** The rescues on record before the event, and the one it begins. */
  lemma StepRescues(w: World, ev: Event, target: Entity)
    requires target in Step(w, ev).rescues
    ensures var r := Step(w, ev).rescues[target];
            || (target in w.rescues && r == w.rescues[target])
            || (&& ev.RescueStart? && ev.target == target && r == Rescue(ev.reviver, ev.now + 4_000_000_000)
                && LifeOf(w, target) == Knocked && LifeOf(w, ev.reviver) == Alive && TeamOf(ev.reviver) == TeamOf(target)
                && target !in w.rescues)
  {
    hide ApplyDamage, StepKnock, StepRescue, RemovePlayer, StepHeal, StepEP, TeamOf, Join, ReviveAll, LifeOf, StartRescue,
         StopRescue;
    match ev
    case Damage(victim, attacker, dmg, now, order) => DamageRescues(w, victim, attacker, dmg, now, order, target);
    case Bleed(now, order) => BleedRescues(w, now, order);
    case RescueTick(now, order) => TickRescues(w, now, order);
    case HealOne(p, now) => HealFrame(w, p, now);
    case EnergyOne(p, now) => EnergyFrame(w, p, now);
    case Departure(p) => LeaverRescues(w, p);
    case Arrival(prefer) => JoinRescues(w, prefer);
    case Revival => JoinRescues(w, 0);
    case RescueStart(reviver, t, now) => StartsRescue(w, reviver, t, now, target);
    case RescueStop(reviver, t) => StopsRescue(w, reviver, t);
    case _ =>
  }

  lemma StartsRescue(w: World, reviver: Entity, t: Entity, now: int, target: Entity)
    requires target in StartRescue(w, reviver, t, now).rescues
    ensures var r := StartRescue(w, reviver, t, now).rescues[target];
            || (target in w.rescues && r == w.rescues[target])
            || (&& t == target && r == Rescue(reviver, now + 4_000_000_000)
                && LifeOf(w, target) == Knocked && LifeOf(w, reviver) == Alive && TeamOf(reviver) == TeamOf(target)
                && target !in w.rescues)
  {
    hide TeamOf, LifeOf;
  }

  /** Only its own reviver stops a rescue. */
  lemma StopsRescue(w: World, reviver: Entity, target: Entity)
    ensures Fewer(w.rescues, StopRescue(w, reviver, target).rescues)
    ensures forall t :: t in w.rescues ==>
              (t in StopRescue(w, reviver, target).rescues <==> t != target || w.rescues[t].reviver != reviver)
  {
    StopsOne(w, reviver, target);
    hide StopRescue;
  }

  lemma StopsOne(w: World, reviver: Entity, target: Entity)
    ensures StopRescue(w, reviver, target).rescues
         == if target in w.rescues && w.rescues[target].reviver == reviver then w.rescues - {target} else w.rescues
  {}

  lemma JoinRescues(w: World, prefer: nat)
    ensures Join(w, prefer).rescues == w.rescues && ReviveAll(w).rescues == map[]
  {
    hide AllocEntity;
  }

  lemma LeaverRescues(w: World, p: Entity)
    ensures RemovePlayer(w, p).rescues == w.rescues
  {
    if p in w.players {
      DepartureFrame(w, p);
    }
  }

  /** Some records may be gone. */
  ghost predicate Fewer(m: map<Entity, Rescue>, m': map<Entity, Rescue>) {
    forall e :: e in m' ==> e in m && m'[e] == m[e]
  }

  lemma FinalizeRescues(w: World, e: Entity)
    requires e in w.knock
    ensures FinalizeKnock(w, e).rescues == w.rescues - {e}
  {
    hide EmitDeath, Observed, CreditDeath;
    CreditFrame(w, e, w.knock[e].killer);
    var w1 := Bury(w, e, w.knock[e].killer);
    var w2 := w1.(knock := w1.knock - {e}, rescues := w1.rescues - {e});
    EmitDeathOnlyObserving(w2, e, Observed(w2, e));
  }

  lemma KillRescues(w: World, e: Entity, killer: Entity)
    ensures KillEntity(w, e, killer).rescues == w.rescues
  {
    hide EmitDeath, Observed, CreditDeath;
    CreditFrame(w, e, killer);
    var w1 := Bury(w, e, killer);
    EmitDeathOnlyObserving(w1, e, Observed(w1, e));
  }

  lemma {:induction false} SweepRescues(w: World, team: nat, order: seq<Entity>)
    ensures Fewer(w.rescues, SweepTeam(w, team, order).rescues)
  {
    hide FinalizeKnock, TeamOf, LifeOf;
    if |order| > 0 {
      SweepRescues(w, team, order[..|order| - 1]);
      var w1, x := SweepTeam(w, team, order[..|order| - 1]), order[|order| - 1];
      if x in w1.knock {
        FinalizeRescues(w1, x);
      }
    }
  }

  lemma DamageRescues(w: World, victim: Entity, attacker: Entity, dmg: nat, now: int, order: seq<Entity>, e: Entity)
    ensures var w' := ApplyDamage(w, victim, attacker, dmg, now, order);
            e in w'.rescues ==> e in w.rescues && w'.rescues[e] == w.rescues[e]
  {
    hide DamageKnocked, DownOrKill, LifeOf;
    KnockedRescues(w, victim, dmg);
    DownedRescues(w.(hp := w.hp[victim := 0]), victim, attacker, now, order);
  }

  lemma KnockedRescues(w: World, victim: Entity, dmg: nat)
    ensures Fewer(w.rescues, DamageKnocked(w, victim, dmg).rescues)
  {
    hide FinalizeKnock;
    if victim in w.knock {
      FinalizeRescues(w.(knock := w.knock[victim := w.knock[victim].(hp := 0)], hp := w.hp[victim := 0]), victim);
    }
  }

  lemma DownedRescues(w: World, victim: Entity, attacker: Entity, now: int, order: seq<Entity>)
    ensures Fewer(w.rescues, DownOrKill(w, victim, attacker, now, order).rescues)
  {
    hide TeamOf, TeamSize, TeamAlive, SweepTeam, KillEntity, KnockPlayer;
    var w1 := KnockPlayer(w, victim, attacker, now);
    KillRescues(w, victim, attacker);
    KnockRescues(w, victim, attacker, now);
    SweepRescues(w1, TeamOf(victim), order);
    FellRescues(w1, TeamOf(victim), order);
    hide TeamFellToZero;
  }

  lemma KnockRescues(w: World, victim: Entity, attacker: Entity, now: int)
    ensures KnockPlayer(w, victim, attacker, now).rescues == w.rescues
  {}

  lemma FellRescues(w: World, team: nat, order: seq<Entity>)
    ensures TeamFellToZero(w, team, order).rescues == SweepTeam(w, team, order).rescues
  {
    hide SweepTeam;
  }

  lemma BleedOneRescues(w: World, e: Entity, now: int)
    ensures Fewer(w.rescues, BleedOne(w, e, now).rescues)
  {
    hide FinalizeKnock;
    if e in w.knock {
      FinalizeRescues(w.(knock := w.knock[e := w.knock[e].(deadline := w.knock[e].deadline + BLEED_EVERY)]), e);
    }
  }

  lemma {:induction false} BleedRescues(w: World, now: int, order: seq<Entity>)
    ensures Fewer(w.rescues, StepKnock(w, now, order).rescues)
  {
    hide BleedOne;
    if |order| > 0 {
      BleedRescues(w, now, order[..|order| - 1]);
      BleedOneRescues(StepKnock(w, now, order[..|order| - 1]), order[|order| - 1], now);
    }
  }

  lemma OneRescue(w: World, target: Entity, now: int)
    ensures Fewer(w.rescues, RescueOne(w, target, now).rescues)
  {
    hide LifeOf, CompleteRescue;
    if target in w.rescues {
      CompletionKeepsRescues(w.(rescues := w.rescues - {target}), target);
    }
  }

  lemma CompletionKeepsRescues(w: World, target: Entity)
    ensures CompleteRescue(w, target).rescues == w.rescues
  {}

  lemma {:induction false} TickRescues(w: World, now: int, order: seq<Entity>)
    ensures Fewer(w.rescues, StepRescue(w, now, order).rescues)
  {
    hide RescueOne;
    if |order| > 0 {
      TickRescues(w, now, order[..|order| - 1]);
      OneRescue(StepRescue(w, now, order[..|order| - 1]), order[|order| - 1], now);
    }
  }

  /** Over every run: whoever is being revived was on the ground, and the reviver up and of the same team, when
      the rescue began, and it is over four seconds after that. */
  lemma {:induction false} RunRescues(w: World, run: seq<Event>)
    requires w.rescues == map[]
    ensures forall t :: t in Run(w, run).rescues ==> Begun(w, run, t, Run(w, run).rescues[t])
  {
    hide Step, Begun;
    if |run| > 0 {
      var init, ev := run[..|run| - 1], run[|run| - 1];
      RunRescues(w, init);
      forall t | t in Run(w, run).rescues ensures Begun(w, run, t, Run(w, run).rescues[t]) {
        StepRescues(Run(w, init), ev, t);
        var r := Run(w, run).rescues[t];
        if t in Run(w, init).rescues && r == Run(w, init).rescues[t] {
          BegunBefore(w, run, t, r);
        } else {
          BegunNow(w, run, t, r);
        }
      }
    }
  }

  lemma BegunNow(w: World, run: seq<Event>, target: Entity, r: Rescue)
    requires |run| > 0 && OnFile(w, run, target, r)
    requires var v, ev := Run(w, run[..|run| - 1]), run[|run| - 1];
             && ev.RescueStart? && ev.target == target && r == Rescue(ev.reviver, ev.now + 4_000_000_000)
             && LifeOf(v, target) == Knocked && LifeOf(v, ev.reviver) == Alive && TeamOf(ev.reviver) == TeamOf(target)
             && target !in v.rescues
    ensures Begun(w, run, target, r)
  {
    hide Run, OnFile;
    assert run[..|run|] == run;
    assert Began(w, run, |run| - 1, target, r);
  }

  // ---------------------------------------------------------------- who gets up

  lemma {:induction false} SweepLifts(w: World, team: nat, order: seq<Entity>, e: Entity)
    requires LifeOf(w, e) != Alive
    ensures LifeOf(SweepTeam(w, team, order), e) != Alive
  {
    hide FinalizeKnock, TeamOf, CreditDeath;
    if |order| > 0 {
      SweepLifts(w, team, order[..|order| - 1], e);
      var w1, x := SweepTeam(w, team, order[..|order| - 1]), order[|order| - 1];
      if x in w1.knock {
        FinalizeIsDeath(w1, x);
      }
    }
  }

  lemma DamageLifts(w: World, victim: Entity, attacker: Entity, dmg: nat, now: int, order: seq<Entity>, e: Entity)
    requires LifeOf(w, e) == Knocked
    ensures LifeOf(ApplyDamage(w, victim, attacker, dmg, now, order), e) != Alive
  {
    hide DamageKnocked, DownOrKill;
    KnockedLifts(w, victim, dmg, e);
    DownedLifts(w.(hp := w.hp[victim := 0]), victim, attacker, now, order, e);
  }

  lemma KnockedLifts(w: World, victim: Entity, dmg: nat, e: Entity)
    requires LifeOf(w, e) == Knocked
    ensures LifeOf(DamageKnocked(w, victim, dmg), e) != Alive
  {
    hide FinalizeKnock, CreditDeath;
    if victim in w.knock {
      FinalizeIsDeath(w.(knock := w.knock[victim := w.knock[victim].(hp := 0)], hp := w.hp[victim := 0]), victim);
    }
  }

  lemma DownedLifts(w: World, victim: Entity, attacker: Entity, now: int, order: seq<Entity>, e: Entity)
    requires LifeOf(w, e) == Knocked
    ensures LifeOf(DownOrKill(w, victim, attacker, now, order), e) != Alive
  {
    hide TeamOf, TeamSize, TeamAlive, SweepTeam, KillEntity, CreditDeath;
    KillIsDeath(w, victim, attacker);
    SweepLifts(KnockPlayer(w, victim, attacker, now), TeamOf(victim), order, e);
  }

  lemma {:induction false} BleedLifts(w: World, now: int, order: seq<Entity>, e: Entity)
    requires LifeOf(w, e) != Alive
    ensures LifeOf(StepKnock(w, now, order), e) != Alive
  {
    hide BleedOne;
    if |order| > 0 {
      BleedLifts(w, now, order[..|order| - 1], e);
      BleedOneLife(StepKnock(w, now, order[..|order| - 1]), order[|order| - 1], now);
    }
  }

  lemma BleedOneLife(w: World, x: Entity, now: int)
    ensures forall e :: LifeOf(w, e) != Alive ==> LifeOf(BleedOne(w, x, now), e) != Alive
  {
    hide FinalizeKnock, CreditDeath;
    if x in w.knock {
      FinalizeIsDeath(w.(knock := w.knock[x := w.knock[x].(deadline := w.knock[x].deadline + BLEED_EVERY)]), x);
    }
  }

  /** A rescue that completes: the record was there, and its time over. */
  ghost predicate Completes(w: World, w': World, now: int, e: Entity) {
    e in w.rescues && now >= w.rescues[e].completeAt && e in w'.hp && w'.hp[e] == 20
  }

  lemma RescueOneLifts(w: World, target: Entity, now: int, e: Entity)
    ensures var w' := RescueOne(w, target, now);
            && (LifeOf(w', e) == LifeOf(w, e) || (target == e && Completes(w, w', now, e)))
            && (e in w.hp ==> e in w'.hp) && (target != e || LifeOf(w, e) != Knocked ==> e in w.hp ==> w'.hp[e] == w.hp[e])
  {
    hide CompleteRescue;
    if target in w.rescues {
      CompletionLifts(w.(rescues := w.rescues - {target}), target);
    }
  }

  lemma CompletionLifts(w: World, target: Entity)
    ensures var w' := CompleteRescue(w, target);
            w'.hp == w.hp[target := 20] && forall e :: LifeOf(w', e) == if e == target then Alive else LifeOf(w, e)
  {}

  lemma {:induction false} TickLifts(w: World, now: int, order: seq<Entity>, e: Entity)
    requires LifeOf(w, e) == Knocked
    ensures var w' := StepRescue(w, now, order); LifeOf(w', e) == Knocked || Completes(w, w', now, e)
  {
    hide RescueOne;
    if |order| > 0 {
      var init, x := order[..|order| - 1], order[|order| - 1];
      TickLifts(w, now, init, e);
      TickRescues(w, now, init);
      RescueOneLifts(StepRescue(w, now, init), x, now, e);
      TickUp(w, now, init, e);
    }
  }

  /** Nobody is knocked down by a rescue tick. */
  lemma {:induction false} TickUp(w: World, now: int, order: seq<Entity>, e: Entity)
    ensures LifeOf(w, e) == Alive ==> LifeOf(StepRescue(w, now, order), e) == Alive
  {
    hide RescueOne;
    if |order| > 0 {
      TickUp(w, now, order[..|order| - 1], e);
      OneUp(StepRescue(w, now, order[..|order| - 1]), order[|order| - 1], now, e);
    }
  }

  lemma OneUp(w: World, target: Entity, now: int, e: Entity)
    ensures LifeOf(w, e) == Alive ==> LifeOf(RescueOne(w, target, now), e) == Alive
  {}

  /** Who of the roster gets up from the ground, and how. */
  lemma GetsUp(w: World, ev: Event, e: Entity)
    requires Invariant(w) && Enabled(w, ev)
    requires Participates(w, e) && LifeOf(w, e) == Knocked
    requires Participates(Step(w, ev), e) && LifeOf(Step(w, ev), e) == Alive
    ensures ev.Revival? || (ev.RescueTick? && Completes(w, Step(w, ev), ev.now, e))
  {
    hide Step, Completes, Roster, Tracked, Bounded, TeamOf;
    assert Sound(w, e);
    if ev.RescueTick? {
      TickStep(w, ev);
      TickLifts(w, ev.now, ev.order, e);
    } else if !ev.Revival? {
      StaysDown(w, ev, e);
    }
  }

  lemma StaysDown(w: World, ev: Event, e: Entity)
    requires Roster(w) && Enabled(w, ev) && Participates(w, e) && LifeOf(w, e) == Knocked && e in w.knock
    requires !ev.Revival? && !ev.RescueTick?
    ensures Participates(Step(w, ev), e) ==> LifeOf(Step(w, ev), e) != Alive
  {
    hide ApplyDamage, StepKnock, RemovePlayer, Join, TeamOf, Roster;
    match ev
    case Damage(victim, attacker, dmg, now, order) => DamageLifts(w, victim, attacker, dmg, now, order, e);
    case Bleed(now, order) => BleedLifts(w, now, order, e);
    case Arrival(prefer) => NewcomerLife(w, prefer, e);
    case Departure(p) =>
      LeaverLife(w, p, e);
    case BotSpawn =>
    case _ => QuietStep(w, ev);
  }

  lemma LeaverLife(w: World, p: Entity, e: Entity)
    requires Roster(w)
    ensures Participates(RemovePlayer(w, p), e) ==> LifeOf(RemovePlayer(w, p), e) == LifeOf(w, e)
  {
    if p in w.players {
      hide RemovePlayer, Roster;
      Departed(w, p);
    }
  }

  lemma NewcomerLife(w: World, prefer: nat, e: Entity)
    requires Roster(w) && CanAdmit(w) && Participates(w, e)
    ensures Participates(Join(w, prefer), e) ==> LifeOf(Join(w, prefer), e) == LifeOf(w, e)
  {
    hide TeamOf, AllocEntity, Slot;
    AllocIsFresh(w, prefer);
    BotIsNoPlayer(w);
  }

  /** Over every run: outside a revival, whoever is on the ground gets up only in a rescue tick, with 20 HP, and
      no earlier than four seconds after a living teammate began to revive them. */
  lemma OnlyTeammatesRevive(w: World, maxHP: nat, run: seq<Event>, ev: Event, e: Entity)
    requires Starts(w, maxHP) && SafeMaxHP(maxHP) && Feasible(w, run) && Enabled(Run(w, run), ev) && !ev.Revival?
    requires var v, v' := Run(w, run), Step(Run(w, run), ev);
             && Participates(v, e) && LifeOf(v, e) == Knocked && Participates(v', e) && LifeOf(v', e) == Alive
    ensures ev.RescueTick? && e in Step(Run(w, run), ev).hp && Step(Run(w, run), ev).hp[e] == 20
    ensures exists n: nat, r :: Began(w, run, n, e, r) && run[n].now + 4_000_000_000 <= ev.now
  {
    hide Run, Step, Starts, Feasible, Invariant, Enabled, Began;
    StartIsInvariant(w, maxHP);
    StartHasNoRecords(w, maxHP);
    RunKeeps(w, run);
    RunRescues(w, run);
    GetsUp(Run(w, run), ev, e);
    var r := Run(w, run).rescues[e];
    var n: nat :| Began(w, run, n, e, r);
    CompletesLate(w, run, n, e, r);
  }

  lemma CompletesLate(w: World, run: seq<Event>, n: nat, target: Entity, r: Rescue)
    requires Began(w, run, n, target, r)
    ensures n < |run| && run[n].RescueStart? && r.completeAt == run[n].now + 4_000_000_000
  {}

  /** After a tick that visits it, a rescue goes on only if its target is on the ground, its reviver up, and
      its time not over. */
  lemma {:induction false} TickKeepsRescue(w: World, now: int, order: seq<Entity>, t: Entity)
    requires t in order && t in StepRescue(w, now, order).rescues
    ensures var w', r := StepRescue(w, now, order), StepRescue(w, now, order).rescues[t];
            && t in w.rescues && r == w.rescues[t]
            && LifeOf(w', t) == Knocked && LifeOf(w', r.reviver) == Alive && now < r.completeAt
  {
    hide RescueOne;
    var init, x := order[..|order| - 1], order[|order| - 1];
    var w1 := StepRescue(w, now, init);
    assert t in init || t == x;
    TickRescues(w, now, order);
    OneRescue(w1, x, now);
    VisitKeepsRescue(w1, x, now, t);
    if t != x {
      TickKeepsRescue(w, now, init, t);
      OneUp(w1, x, now, w.rescues[t].reviver);
    }
  }

  lemma VisitKeepsRescue(w: World, x: Entity, now: int, t: Entity)
    ensures var w' := RescueOne(w, x, now);
            && (t != x ==> LifeOf(w', t) == LifeOf(w, t))
            && (t == x && t in w'.rescues ==>
                  t in w.rescues && w' == w && LifeOf(w, t) == Knocked && LifeOf(w, w.rescues[t].reviver) == Alive
                  && now < w.rescues[t].completeAt)
  {
    hide CompleteRescue, LifeOf;
    if x in w.rescues {
      var w1 := w.(rescues := w.rescues - {x});
      CompletionLifts(w1, x);
      CompletionKeepsRescues(w1, x);
      SameLife(w, w1);
    }
  }

  lemma SameLife(w: World, w1: World)
    requires w1.life == w.life
    ensures forall e :: LifeOf(w1, e) == LifeOf(w, e)
  {}

  // ---------------------------------------------------------------- bleeding

  /** From one record to the other in j bleeds. */
  ghost predicate Drains(ks: Knock, ks': Knock, j: nat) {
    ks'.deadline == ks.deadline + 1_500_000_000 * j && ks'.hp + 10 * j == ks.hp && (ks.hp > 0 ==> ks'.hp > 0)
  }

  /** The entity, on record before, is still so after j bleeds, or has bled out in the one after them. */
  ghost predicate Bleeds(w: World, w': World, e: Entity, now: int, j: nat)
    requires e in w.knock
  {
    if e in w'.knock then Drains(w.knock[e], w'.knock[e], j)
    else w.knock[e].hp <= 10 * (j + 1) && w.knock[e].deadline + 1_500_000_000 * j <= now
  }

  lemma BleedOneBleeds(w: World, x: Entity, now: int, e: Entity) returns (j: nat)
    requires e in w.knock
    ensures Bleeds(w, BleedOne(w, x, now), e, now, j)
    ensures now < w.knock[e].deadline || x != e ==> j == 0 && e in BleedOne(w, x, now).knock
    ensures j == 0 && e in BleedOne(w, x, now).knock && x == e ==> now < w.knock[e].deadline
    ensures j <= 1 && (j == 1 ==> e in BleedOne(w, x, now).knock)
  {
    hide BleedOne;
    BleedRecords(w, x, now);
    j := if x == e && now >= w.knock[e].deadline && w.knock[e].hp > 10 then 1 else 0;
  }

  /** One visit: nothing before the deadline, and then ten HP a second and a half, or the end. */
  lemma BleedRecords(w: World, x: Entity, now: int)
    ensures BleedOne(w, x, now).knock
         == if x !in w.knock || now < w.knock[x].deadline then w.knock
            else if w.knock[x].hp <= 10 then w.knock - {x}
            else w.knock[x := Knock(w.knock[x].hp - 10, w.knock[x].deadline + 1_500_000_000, w.knock[x].killer)]
  {
    hide FinalizeKnock, CreditDeath;
    if x in w.knock {
      FinalizeIsDeath(w.(knock := w.knock[x := w.knock[x].(deadline := w.knock[x].deadline + BLEED_EVERY)]), x);
    }
  }

  lemma BleedOneNone(w: World, x: Entity, now: int, e: Entity)
    requires e !in w.knock
    ensures e !in BleedOne(w, x, now).knock
  {
    hide BleedOne;
    BleedRecords(w, x, now);
  }

  /** A whole tick, in any visiting order. */
  lemma {:induction false} TickBleeds(w: World, now: int, order: seq<Entity>, e: Entity) returns (j: nat)
    requires e in w.knock
    ensures Bleeds(w, StepKnock(w, now, order), e, now, j)
    ensures now < w.knock[e].deadline ==> j == 0 && e in StepKnock(w, now, order).knock
    ensures now < w.knock[e].deadline + 1_500_000_000 ==> j <= 1
    ensures e in order && e in StepKnock(w, now, order).knock ==> j > 0 || now < w.knock[e].deadline
  {
    hide BleedOne;
    j := 0;
    if |order| > 0 {
      var init, x := order[..|order| - 1], order[|order| - 1];
      j := TickBleeds(w, now, init, e);
      var w1 := StepKnock(w, now, init);
      if e in w1.knock {
        var k := BleedOneBleeds(w1, x, now, e);
        j := j + k;
      } else {
        BleedOneNone(w1, x, now, e);
      }
    }
  }

  /** Ticks that come no more than a second and a half apart, the first before the given time, and all of them
      visit the entity. */
  ghost predicate Dense(run: seq<Event>, first: int, e: Entity) {
    && (forall i :: 0 <= i < |run| ==> run[i].Bleed? && e in run[i].order)
    && (|run| > 0 ==> run[0].now <= first)
    && forall i :: 0 < i < |run| ==> run[i - 1].now <= run[i].now <= run[i - 1].now + 1_500_000_000
  }

  /** How often it has bled by then. */
  function BleedsBy(first: int, now: int): nat {
    if now < first then 0 else (now - first) / 1_500_000_000 + 1
  }

  /** Left alone on the ground, it bleeds ten HP at its deadline and every second and a half from then on, and
      has bled out as soon as that makes its pool. */
  lemma {:induction false} BleedingIsClockwork(w: World, run: seq<Event>, e: Entity)
    requires e in w.knock && w.knock[e].hp > 0 && |run| > 0 && Dense(run, w.knock[e].deadline, e)
    ensures var ks, w' := w.knock[e], Run(w, run);
            var n := BleedsBy(ks.deadline, run[|run| - 1].now);
            && (e in w'.knock <==> 10 * n < ks.hp)
            && (e in w'.knock ==> w'.knock[e].hp == ks.hp - 10 * n && w'.knock[e].deadline == ks.deadline + 1_500_000_000 * n)
  {
    hide StepKnock, Run;
    var init, now := run[..|run| - 1], run[|run| - 1].now;
    RunOneMore(w, init, run[|run| - 1]);
    assert run == init + [run[|run| - 1]];
    TickStep(Run(w, init), run[|run| - 1]);
    if |init| == 0 {
      RunsNothing(w);
      assert init == [];
      var j := TickBleeds(w, now, run[|run| - 1].order, e);
    } else {
      BleedingIsClockwork(w, init, e);
      var w1 := Run(w, init);
      if e in w1.knock {
        var j := TickBleeds(w1, now, run[|run| - 1].order, e);
      } else {
        StaysGone(w1, now, run[|run| - 1].order, e);
      }
    }
  }

  lemma RunsNothing(w: World)
    ensures Run(w, []) == w
  {}

  lemma {:induction false} StaysGone(w: World, now: int, order: seq<Entity>, e: Entity)
    requires e !in w.knock
    ensures e !in StepKnock(w, now, order).knock
  {
    hide BleedOne;
    if |order| > 0 {
      StaysGone(w, now, order[..|order| - 1], e);
      BleedOneNone(StepKnock(w, now, order[..|order| - 1]), order[|order| - 1], now, e);
    }
  }

  /** So whoever is knocked down and left alone lives for thirty seconds. */
  lemma ThirtySeconds(w: World, victim: Entity, attacker: Entity, at: int, run: seq<Event>)
    requires |run| > 0 && Dense(run, at + 1_500_000_000, victim)
    ensures victim in Run(KnockPlayer(w, victim, attacker, at), run).knock <==> run[|run| - 1].now < at + 30_000_000_000
  {
    hide Run;
    BleedingIsClockwork(KnockPlayer(w, victim, attacker, at), run, victim);
  }

  // ---------------------------------------------------------------- bleeding over whole runs

  /** Nobody hit the entity since. */
  ghost predicate LeftAlone(run: seq<Event>, n: nat, e: Entity) {
    forall m :: n < m < |run| ==> !(run[m].Damage? && run[m].victim == e)
  }

  /** The record after j bleeds since the knock at the given time. */
  ghost predicate BledFor(ks: Knock, at: int, j: nat) {
    ks.hp + 10 * j == 200 && ks.hp > 0 && ks.deadline == at + 1_500_000_000 * (j + 1)
  }

  /** A hit on somebody else, or no hit and no bleeding: the record stays, or is gone. */
  ghost predicate Same(w: World, w': World, e: Entity) {
    e in w'.knock ==> e in w.knock && w'.knock[e] == w.knock[e]
  }

  lemma {:induction false} SweepSame(w: World, team: nat, order: seq<Entity>, e: Entity)
    ensures Same(w, SweepTeam(w, team, order), e)
  {
    hide FinalizeKnock, TeamOf, CreditDeath;
    if |order| > 0 {
      SweepSame(w, team, order[..|order| - 1], e);
      var w1, x := SweepTeam(w, team, order[..|order| - 1]), order[|order| - 1];
      if x in w1.knock {
        FinalizeIsDeath(w1, x);
      }
    }
  }

  lemma HitSame(w: World, ev: Event, e: Entity)
    requires ev.Damage? && ev.victim != e
    ensures Same(w, Step(w, ev), e)
  {
    hide DamageKnocked, DownOrKill, LifeOf;
    KnockedSame(w, ev.victim, ev.dmg, e);
    DownedSame(w.(hp := w.hp[ev.victim := 0]), ev.victim, ev.attacker, ev.now, ev.order, e);
  }

  lemma KnockedSame(w: World, victim: Entity, dmg: nat, e: Entity)
    requires victim != e
    ensures Same(w, DamageKnocked(w, victim, dmg), e)
  {
    hide FinalizeKnock, CreditDeath;
    if victim in w.knock {
      FinalizeIsDeath(w.(knock := w.knock[victim := w.knock[victim].(hp := 0)], hp := w.hp[victim := 0]), victim);
    }
  }

  lemma DownedSame(w: World, victim: Entity, attacker: Entity, now: int, order: seq<Entity>, e: Entity)
    requires victim != e
    ensures Same(w, DownOrKill(w, victim, attacker, now, order), e)
  {
    hide TeamOf, TeamSize, TeamAlive, SweepTeam, KillEntity, CreditDeath;
    KillIsDeath(w, victim, attacker);
    SweepSame(KnockPlayer(w, victim, attacker, now), TeamOf(victim), order, e);
  }

  /** A hit that fells somebody not on record. */
  lemma HitDowns(w: World, ev: Event, e: Entity)
    requires Fells(w, ev, e) && !Refells(w, ev, e)
    ensures e in Step(w, ev).knock ==> Step(w, ev).knock[e] == Knock(200, ev.now + 1_500_000_000, ev.attacker)
  {
    hide TeamOf, TeamSize, TeamAlive, SweepTeam, KillEntity, CreditDeath, DamageKnocked;
    var w1 := w.(hp := w.hp[e := 0]);
    KillIsDeath(w1, e, ev.attacker);
    SameSize(w, w1);
    SweepSame(KnockPlayer(w1, e, ev.attacker, ev.now), TeamOf(e), ev.order, e);
  }

  /** Neither felled nor hit, and no bleeding. */
  lemma QuietSame(w: World, ev: Event, e: Entity)
    requires !ev.Bleed? && !(ev.Damage? && ev.victim == e)
    ensures Same(w, Step(w, ev), e)
  {
    hide Step;
    if ev.Damage? {
      HitSame(w, ev, e);
    } else if ev.RescueTick? {
      TickStep(w, ev);
      TickSame(w, ev.now, ev.order, e);
    } else {
      QuietRecords(w, ev, e);
    }
  }

  lemma {:induction false} TickSame(w: World, now: int, order: seq<Entity>, e: Entity)
    ensures Same(w, StepRescue(w, now, order), e)
  {
    hide RescueOne;
    if |order| > 0 {
      TickSame(w, now, order[..|order| - 1], e);
      RescueRecords(StepRescue(w, now, order[..|order| - 1]), order[|order| - 1], now);
    }
  }

  /** Over every run: whoever is on the ground and was not hit again has its 200 HP less ten for every second
      and a half. */
  lemma {:induction false} RunBleeds(w: World, run: seq<Event>, e: Entity, n: nat) returns (j: nat)
    requires w.knock == map[] && NotRefelled(w, run, e) && e in Run(w, run).knock
    requires LastFelling(w, run, e, n) && LeftAlone(run, n, e)
    ensures BledFor(Run(w, run).knock[e], run[n].now, j)
  {
    hide Step, Fells, Refells, NotRefelled, Run;
    var init, ev := run[..|run| - 1], run[|run| - 1];
    RunOneMore(w, init, ev);
    assert run == init + [ev];
    NotRefelledPrefix(w, run, e);
    var v := Run(w, init);
    if n == |init| {
      HitDowns(v, ev, e);
      j := 0;
      FelledAt(v, ev, e);
    } else {
      FelledEarlier(w, run, e, n);
      if ev.Bleed? {
        TickStep(v, ev);
        if e in v.knock {
          j := RunBleeds(w, init, e, n);
          var k := TickBleeds(v, ev.now, ev.order, e);
          j := j + k;
        } else {
          StaysGone(v, ev.now, ev.order, e);
        }
      } else {
        QuietSame(v, ev, e);
        j := RunBleeds(w, init, e, n);
      }
    }
  }

  lemma FelledAt(w: World, ev: Event, e: Entity)
    ensures Fells(w, ev, e) ==> ev.Damage?
  {}

  lemma FelledEarlier(w: World, run: seq<Event>, e: Entity, n: nat)
    requires n + 1 < |run| && LastFelling(w, run, e, n)
    ensures LastFelling(w, run[..|run| - 1], e, n)
  {
    hide Fells, Run;
    var init := run[..|run| - 1];
    assert init[..n] == run[..n];
    forall m | n < m < |init| ensures !Fells(Run(w, init[..m]), init[m], e) {
      assert init[..m] == run[..m];
    }
  }

  /** And bleeds out no earlier than thirty seconds after the hit that felled it. */
  lemma NobodyBleedsOutEarly(w: World, run: seq<Event>, ev: Event, e: Entity, n: nat)
    requires w.knock == map[] && NotRefelled(w, run, e) && LastFelling(w, run, e, n) && LeftAlone(run, n, e)
    requires ev.Bleed? && e in Run(w, run).knock && e !in Step(Run(w, run), ev).knock
    ensures ev.now >= run[n].now + 30_000_000_000
  {
    hide Step, Fells, Refells, NotRefelled, Run;
    FelledAt(Run(w, run[..n]), run[n], e);
    var v := Run(w, run);
    var j := RunBleeds(w, run, e, n);
    TickStep(v, ev);
    var k := TickBleeds(v, ev.now, ev.order, e);
  }
}
