/** Who is named for a knock and for a death: over every run, the attacker of the hit that took the victim
    off its feet. */
module MatchKillers {
  import opened Vitals
  import opened MatchState
  import opened MatchVitals
  import opened MatchRounds
  import opened MatchTeams
  import opened MatchBreaks

  /** The hit finds the entity alive and takes it off its feet. */
  ghost predicate Fells(w: World, ev: Event, e: Entity) {
    ev.Damage? && ev.victim == e && LifeOf(w, e) == Alive && LifeOf(Step(w, ev), e) != Alive
  }

  /** The last hit of the run that felled the entity. */
  ghost predicate LastFelling(w: World, run: seq<Event>, e: Entity, n: nat) {
    && n < |run| && Fells(Run(w, run[..n]), run[n], e)
    && forall m :: n < m < |run| ==> !Fells(Run(w, run[..m]), run[m], e)
  }

  ghost predicate FelledBy(w: World, run: seq<Event>, e: Entity, killer: Entity) {
    exists n: nat :: LastFelling(w, run, e, n) && run[n].attacker == killer
  }

  /** And that hit left it on the ground. */
  ghost predicate DownedBy(w: World, run: seq<Event>, e: Entity, killer: Entity) {
    exists n: nat ::
      LastFelling(w, run, e, n) && run[n].attacker == killer && LifeOf(Run(w, run[..n + 1]), e) == Knocked
  }

  /** The event that logs the death comes no earlier than the hit that felled the victim, and the killer
      it names is the attacker of the last such hit up to then. */
  ghost predicate NamedRight(w: World, run: seq<Event>, i: nat, d: Death) {
    exists m: nat ::
      && m < |run| && |Run(w, run[..m]).log| <= i < |Run(w, run[..m + 1]).log|
      && FelledBy(w, run[..m + 1], d.victim, d.killer)
  }

  /** A hit kills outright somebody who is still on record for an earlier knock. */
  ghost predicate Refells(w: World, ev: Event, e: Entity) {
    Fells(w, ev, e) && e in w.knock && TeamSize(w, TeamOf(e)) <= 1
  }

  // ---------------------------------------------------------------- one step

  /** The record of the entity, and its deaths after the given log, have one of the given names. */
  ghost predicate Names(e: Entity, names: set<Entity>, log: seq<Death>, w: World) {
    && (e in w.knock ==> w.knock[e].killer in names)
    && log <= w.log
    && forall i :: |log| <= i < |w.log| && w.log[i].victim == e ==> w.log[i].killer in names
  }

  function Recorded(w: World, e: Entity): set<Entity> {
    if e in w.knock then {w.knock[e].killer} else {}
  }

  /** The attacker if the event fells the entity, and otherwise who is on record. */
  ghost function Expected(w: World, ev: Event, e: Entity): set<Entity> {
    if Fells(w, ev, e) then {ev.attacker} else Recorded(w, e)
  }

  lemma SameNames(e: Entity, names: set<Entity>, log: seq<Death>, w: World, w': World)
    requires Names(e, names, log, w) && w'.log == w.log
    requires e in w'.knock ==> e in w.knock && w'.knock[e].killer == w.knock[e].killer
    ensures Names(e, names, log, w')
  {}

  lemma FinalizeNames(e: Entity, names: set<Entity>, log: seq<Death>, w: World, x: Entity)
    requires Names(e, names, log, w) && x in w.knock
    ensures Names(e, names, log, FinalizeKnock(w, x))
  {
    hide FinalizeKnock, CreditDeath;
    FinalizeIsDeath(w, x);
    var w' := FinalizeKnock(w, x);
    forall i | |log| <= i < |w'.log| && w'.log[i].victim == e ensures w'.log[i].killer in names {
      assert i < |w.log| ==> w'.log[i] == w.log[i];
    }
  }

  /** A sweep leaves the entity as it was, or dead and off the record. */
  lemma {:induction false} SweepNames(e: Entity, names: set<Entity>, log: seq<Death>, w: World, team: nat, order: seq<Entity>)
    requires Names(e, names, log, w)
    ensures var w' := SweepTeam(w, team, order);
            && Names(e, names, log, w') && (LifeOf(w, e) != Alive ==> LifeOf(w', e) != Alive)
            && (e in w'.knock ==> e in w.knock && LifeOf(w', e) == LifeOf(w, e))
  {
    hide FinalizeKnock, TeamOf, Names, CreditDeath;
    if |order| > 0 {
      SweepNames(e, names, log, w, team, order[..|order| - 1]);
      var w1, x := SweepTeam(w, team, order[..|order| - 1]), order[|order| - 1];
      if x in w1.knock {
        FinalizeNames(e, names, log, w1, x);
        FinalizeIsDeath(w1, x);
      }
    }
  }

  lemma {:induction false} StepKnockNames(e: Entity, names: set<Entity>, log: seq<Death>, w: World, now: int, order: seq<Entity>)
    requires Names(e, names, log, w)
    ensures Names(e, names, log, StepKnock(w, now, order))
  {
    hide BleedOne, Names;
    if |order| > 0 {
      StepKnockNames(e, names, log, w, now, order[..|order| - 1]);
      BleedNames(e, names, log, StepKnock(w, now, order[..|order| - 1]), order[|order| - 1], now);
    }
  }

  lemma BleedNames(e: Entity, names: set<Entity>, log: seq<Death>, w: World, x: Entity, now: int)
    requires Names(e, names, log, w)
    ensures Names(e, names, log, BleedOne(w, x, now))
  {
    hide FinalizeKnock, Names;
    if x in w.knock && now >= w.knock[x].deadline {
      var w1 := w.(knock := w.knock[x := w.knock[x].(deadline := w.knock[x].deadline + BLEED_EVERY)]);
      SameNames(e, names, log, w, w1);
      if w1.knock[x].hp <= BLEED_AMOUNT {
        FinalizeNames(e, names, log, w1, x);
      } else {
        SameNames(e, names, log, w1, BleedOne(w, x, now));
      }
    }
  }

  lemma DamageKnockedNames(e: Entity, w: World, victim: Entity, dmg: nat)
    ensures Names(e, Recorded(w, e), w.log, DamageKnocked(w, victim, dmg))
  {
    hide FinalizeKnock;
    if victim in w.knock {
      var hp := if dmg >= w.knock[victim].hp then 0 else w.knock[victim].hp - dmg;
      var w1 := w.(knock := w.knock[victim := w.knock[victim].(hp := hp)], hp := w.hp[victim := hp]);
      if dmg >= w.knock[victim].hp {
        FinalizeNames(e, Recorded(w, e), w.log, w1, victim);
      }
    }
  }

  /** A lethal hit, for the one it hits. */
  lemma DownOrKillNames(w: World, e: Entity, attacker: Entity, now: int, order: seq<Entity>)
    ensures var w' := DownOrKill(w, e, attacker, now, order);
            && LifeOf(w', e) != Alive
            && (Names(e, {attacker}, w.log, w')
                <==> !(e in w.knock && TeamSize(w, TeamOf(e)) <= 1 && w.knock[e].killer != attacker))
            && (e in w'.knock ==> LifeOf(w', e) == Knocked || (e in w.knock && TeamSize(w, TeamOf(e)) <= 1))
  {
    hide KillEntity, SweepTeam, TeamSize, TeamAlive, TeamOf, CreditDeath;
    var team := TeamOf(e);
    if TeamSize(w, team) <= 1 {
      KillIsDeath(w, e, attacker);
    } else {
      var w1 := KnockPlayer(w, e, attacker, now);
      SweepNames(e, {attacker}, w.log, w1, team, order);
      SameNames(e, {attacker}, w.log, SweepTeam(w1, team, order), TeamFellToZero(w1, team, order));
    }
  }

  /** And for everyone else. */
  lemma DownOrKillOthers(w: World, victim: Entity, attacker: Entity, now: int, order: seq<Entity>, e: Entity)
    requires e != victim
    ensures Names(e, Recorded(w, e), w.log, DownOrKill(w, victim, attacker, now, order))
  {
    hide KillEntity, SweepTeam, TeamSize, TeamAlive, TeamOf, CreditDeath;
    var team, names := TeamOf(victim), Recorded(w, e);
    if TeamSize(w, team) <= 1 {
      KillIsDeath(w, victim, attacker);
    } else {
      var w1 := KnockPlayer(w, victim, attacker, now);
      SweepNames(e, names, w.log, w1, team, order);
      SameNames(e, names, w.log, SweepTeam(w1, team, order), TeamFellToZero(w1, team, order));
    }
  }

  lemma DamageNames(w: World, ev: Event, e: Entity)
    requires ev.Damage?
    ensures Names(e, Expected(w, ev, e), w.log, Step(w, ev))
       <==> !(Refells(w, ev, e) && w.knock[e].killer != ev.attacker)
    ensures Fells(w, ev, e) && !Refells(w, ev, e) && e in Step(w, ev).knock ==> LifeOf(Step(w, ev), e) == Knocked
  {
    hide DamageKnocked, DownOrKill, TeamSize, TeamOf, Names;
    var v := ev.victim;
    RecordNames(w, e);
    if w.roundOver {
    } else if LifeOf(w, v) == Knocked {
      DamageKnockedNames(e, w, v, ev.dmg);
    } else if LifeOf(w, v) == Alive && v in w.hp && w.hp[v] > 0 {
      var cur := if ev.dmg >= w.hp[v] then 0 else w.hp[v] - ev.dmg;
      var w1 := w.(hp := w.hp[v := cur]);
      SameSize(w, w1);
      if cur == 0 {
        if e == v {
          DownOrKillNames(w1, v, ev.attacker, ev.now, ev.order);
        } else {
          DownOrKillOthers(w1, v, ev.attacker, ev.now, ev.order, e);
        }
      } else {
        SameNames(e, Recorded(w, e), w.log, w, w1);
      }
    }
  }

  lemma SameSize(w: World, w1: World)
    requires w1.players == w.players && w1.bot == w.bot
    ensures forall team: nat :: TeamSize(w1, team) == TeamSize(w, team)
  {}

  lemma {:induction false} RescueNames(e: Entity, names: set<Entity>, log: seq<Death>, w: World, now: int, order: seq<Entity>)
    requires Names(e, names, log, w)
    ensures Names(e, names, log, StepRescue(w, now, order))
  {
    hide Names, RescueOne;
    if |order| > 0 {
      RescueNames(e, names, log, w, now, order[..|order| - 1]);
      var w1 := StepRescue(w, now, order[..|order| - 1]);
      RescueRecords(w1, order[|order| - 1], now);
      SameNames(e, names, log, w1, RescueOne(w1, order[|order| - 1], now));
    }
  }

  lemma RescueRecords(w: World, target: Entity, now: int)
    ensures var w' := RescueOne(w, target, now);
            w'.log == w.log && (w'.knock == w.knock || w'.knock == w.knock - {target})
  {
    hide LifeOf, CompleteRescue;
    if target in w.rescues {
      CompletionRecords(w.(rescues := w.rescues - {target}), target);
    }
  }

  lemma CompletionRecords(w: World, target: Entity)
    ensures CompleteRescue(w, target).log == w.log && CompleteRescue(w, target).knock == w.knock - {target}
  {}

  /** One event: the names on record and in the log stay as they are but for the one that the event fells,
      who gets the attacker, unless it is killed outright while on record under another name. */
  lemma StepNames(w: World, ev: Event, e: Entity)
    ensures Names(e, Expected(w, ev, e), w.log, Step(w, ev))
       <==> !(Refells(w, ev, e) && w.knock[e].killer != ev.attacker)
    ensures Fells(w, ev, e) && !Refells(w, ev, e) && e in Step(w, ev).knock ==> LifeOf(Step(w, ev), e) == Knocked
  {
    hide Step, TeamSize, TeamOf, Names;
    if ev.Damage? {
      DamageNames(w, ev, e);
    } else {
      RecordNames(w, e);
      if ev.Bleed? {
        StepKnockNames(e, Recorded(w, e), w.log, w, ev.now, ev.order);
        TickStep(w, ev);
      } else if ev.RescueTick? {
        RescueNames(e, Recorded(w, e), w.log, w, ev.now, ev.order);
        TickStep(w, ev);
      } else {
        QuietRecords(w, ev, e);
        SameNames(e, Recorded(w, e), w.log, w, Step(w, ev));
      }
    }
  }

  lemma RecordNames(w: World, e: Entity)
    ensures Names(e, Recorded(w, e), w.log, w)
  {}

  lemma TickStep(w: World, ev: Event)
    ensures ev.Bleed? ==> Step(w, ev) == StepKnock(w, ev.now, ev.order)
    ensures ev.RescueTick? ==> Step(w, ev) == StepRescue(w, ev.now, ev.order)
  {
    hide StepKnock, StepRescue;
  }

  lemma QuietRecords(w: World, ev: Event, e: Entity)
    requires !ev.Damage? && !ev.Bleed? && !ev.RescueTick?
    ensures Step(w, ev).log == w.log
    ensures e in Step(w, ev).knock ==> e in w.knock && Step(w, ev).knock[e] == w.knock[e]
  {
    hide RemovePlayer, StepHeal, StepEP, Join, ReviveAll, StartRescue, SpawnBot;
    match ev
    case HealOne(p, now) => HealFrame(w, p, now);
    case EnergyOne(p, now) => EnergyFrame(w, p, now);
    case Departure(p) => LeaverRecords(w, p);
    case Arrival(prefer) => JoinRecords(w, prefer);
    case Revival => JoinRecords(w, 0);
    case BotSpawn => BotRecords(w);
    case RescueStart(reviver, target, now) => RescueStartRecords(w, reviver, target, now);
    case RescueStop(reviver, target) =>
    case _ => SessionRecords(w, ev);
  }

  lemma BotRecords(w: World)
    ensures SpawnBot(w).log == w.log && SpawnBot(w).knock == w.knock
  {}

  lemma SessionRecords(w: World, ev: Event)
    requires ev.Medkit? || ev.MushroomBuy? || ev.EnergyReset? || ev.RoundEnd?
    ensures Step(w, ev).log == w.log && Step(w, ev).knock == w.knock
  {
    hide Mushroom;
  }

  lemma JoinRecords(w: World, prefer: nat)
    ensures Join(w, prefer).log == w.log && Join(w, prefer).knock == w.knock
    ensures ReviveAll(w).log == w.log && ReviveAll(w).knock == map[]
  {
    hide AllocEntity;
  }

  lemma RescueStartRecords(w: World, reviver: Entity, target: Entity, now: int)
    ensures var w' := StartRescue(w, reviver, target, now); w'.log == w.log && w'.knock == w.knock
  {
    hide TeamOf, LifeOf;
  }

  lemma LeaverRecords(w: World, p: Entity)
    ensures RemovePlayer(w, p).log == w.log
    ensures RemovePlayer(w, p).knock == w.knock || RemovePlayer(w, p).knock == w.knock - {p}
  {
    if p in w.players {
      DepartureFrame(w, p);
    }
  }

  // ---------------------------------------------------------------- whole runs

  lemma PrefixRuns(w: World, run: seq<Event>, m: nat)
    requires |run| > 0 && m < |run|
    ensures run[..|run| - 1][..m] == run[..m]
  {}

  lemma FelledNow(w: World, run: seq<Event>, e: Entity)
    requires |run| > 0
    requires var last := run[|run| - 1]; Fells(Run(w, run[..|run| - 1]), last, e)
    ensures FelledBy(w, run, e, run[|run| - 1].attacker)
    ensures LifeOf(Run(w, run), e) == Knocked ==> DownedBy(w, run, e, run[|run| - 1].attacker)
  {
    hide Fells, Run;
    var n: nat := |run| - 1;
    assert LastFelling(w, run, e, n);
    assert run[..n + 1] == run;
  }

  lemma FelledBefore(w: World, run: seq<Event>, e: Entity, n: nat)
    requires |run| > 0 && !Fells(Run(w, run[..|run| - 1]), run[|run| - 1], e)
    requires LastFelling(w, run[..|run| - 1], e, n)
    ensures LastFelling(w, run, e, n) && run[..|run| - 1][n] == run[n]
    ensures run[..|run| - 1][..n + 1] == run[..n + 1]
  {
    hide Fells, Run;
    var init := run[..|run| - 1];
    assert init[..n] == run[..n];
    forall m | n < m < |run| ensures !Fells(Run(w, run[..m]), run[m], e) {
      if m < |init| {
        assert init[..m] == run[..m];
      }
    }
  }

  lemma StillFelled(w: World, run: seq<Event>, e: Entity, killer: Entity)
    requires |run| > 0 && !Fells(Run(w, run[..|run| - 1]), run[|run| - 1], e)
    ensures FelledBy(w, run[..|run| - 1], e, killer) ==> FelledBy(w, run, e, killer)
    ensures DownedBy(w, run[..|run| - 1], e, killer) ==> DownedBy(w, run, e, killer)
  {
    hide Step, LifeOf, Run;
    var init := run[..|run| - 1];
    if n: nat :| LastFelling(w, init, e, n) && init[n].attacker == killer && LifeOf(Run(w, init[..n + 1]), e) == Knocked {
      FelledBefore(w, run, e, n);
    }
    if n: nat :| LastFelling(w, init, e, n) && init[n].attacker == killer {
      FelledBefore(w, run, e, n);
    }
  }

  lemma NamedBefore(w: World, run: seq<Event>, i: nat, d: Death)
    requires |run| > 0 && NamedRight(w, run[..|run| - 1], i, d)
    ensures NamedRight(w, run, i, d)
  {
    hide FelledBy, Run;
    var init := run[..|run| - 1];
    var m: nat :| m < |init| && |Run(w, init[..m]).log| <= i < |Run(w, init[..m + 1]).log|
                  && FelledBy(w, init[..m + 1], d.victim, d.killer);
    assert init[..m] == run[..m] && init[..m + 1] == run[..m + 1];
  }

  lemma NamedNow(w: World, run: seq<Event>, i: nat, d: Death)
    requires |run| > 0 && |Run(w, run[..|run| - 1]).log| <= i < |Run(w, run).log| && FelledBy(w, run, d.victim, d.killer)
    ensures NamedRight(w, run, i, d)
  {
    hide FelledBy, Run;
    var m: nat := |run| - 1;
    assert run[..m + 1] == run;
  }

  lemma ExpectedFelled(w: World, run: seq<Event>, e: Entity)
    requires |run| > 0
    requires var v := Run(w, run[..|run| - 1]); e in v.knock ==> DownedBy(w, run[..|run| - 1], e, v.knock[e].killer)
    ensures var v, ev := Run(w, run[..|run| - 1]), run[|run| - 1];
            forall k :: k in Expected(v, ev, e) ==>
              && FelledBy(w, run, e, k)
              && (!Fells(v, ev, e) || LifeOf(Run(w, run), e) == Knocked ==> DownedBy(w, run, e, k))
  {
    hide Run, Fells, LastFelling;
    var init := run[..|run| - 1];
    var v, ev := Run(w, init), run[|run| - 1];
    if Fells(v, ev, e) {
      FelledNow(w, run, e);
    } else if e in v.knock {
      StillFelled(w, run, e, v.knock[e].killer);
    }
  }

  /** No event of the run kills the entity outright while it is on record. */
  ghost predicate NotRefelled(w: World, run: seq<Event>, e: Entity) {
    forall n :: 0 <= n < |run| ==> !Refells(Run(w, run[..n]), run[n], e)
  }

  lemma NotRefelledPrefix(w: World, run: seq<Event>, e: Entity)
    requires NotRefelled(w, run, e) && |run| > 0
    ensures NotRefelled(w, run[..|run| - 1], e) && !Refells(Run(w, run[..|run| - 1]), run[|run| - 1], e)
  {
    hide Refells, Run;
    var init := run[..|run| - 1];
    forall n | 0 <= n < |init| ensures !Refells(Run(w, init[..n]), init[n], e) {
      assert init[..n] == run[..n];
    }
  }

  /** Over every run: the killer on record for a knock is the attacker of the last hit that took the entity
      from alive to the ground, and each logged death names the attacker of the last hit that had felled
      its victim by then. */
  lemma {:induction false} RunKillers(w: World, run: seq<Event>, e: Entity)
    requires w.knock == map[] && w.log == [] && NotRefelled(w, run, e)
    ensures var w' := Run(w, run);
            && (e in w'.knock ==> DownedBy(w, run, e, w'.knock[e].killer))
            && forall i :: 0 <= i < |w'.log| && w'.log[i].victim == e ==> NamedRight(w, run, i, w'.log[i])
  {
    hide Step, DownedBy, NamedRight, FelledBy, Fells, Refells, NotRefelled;
    if |run| > 0 {
      var init, ev := run[..|run| - 1], run[|run| - 1];
      NotRefelledPrefix(w, run, e);
      RunKillers(w, init, e);
      var v, w' := Run(w, init), Run(w, run);
      StepNames(v, ev, e);
      ExpectedFelled(w, run, e);
      forall i | 0 <= i < |w'.log| && w'.log[i].victim == e ensures NamedRight(w, run, i, w'.log[i]) {
        if i < |v.log| {
          NamedBefore(w, run, i, v.log[i]);
        } else {
          NamedNow(w, run, i, w'.log[i]);
        }
      }
    }
  }

  // ---------------------------------------------------------------- who can be hit while on record

  /** Only a fallback bot that has left. */
  lemma OnlyTheRetired(w: World, ev: Event, e: Entity)
    requires Invariant(w) && Refells(w, ev, e)
    ensures e == BOT && !Participates(w, BOT)
  {
    hide Step, TeamSize, TeamOf, Roster, Bounded;
    assert Participates(w, e) ==> Sound(w, e);
  }

  /** So players are always named right, and the bot is where it stays once it has come. */
  lemma KillersAreNamed(w: World, maxHP: nat, run: seq<Event>, e: Entity)
    requires Starts(w, maxHP) && SafeMaxHP(maxHP) && Feasible(w, run) && (e != BOT || FaithfulRun(w, run))
    ensures var w' := Run(w, run);
            && (e in w'.knock ==> DownedBy(w, run, e, w'.knock[e].killer))
            && forall i :: 0 <= i < |w'.log| && w'.log[i].victim == e ==> NamedRight(w, run, i, w'.log[i])
  {
    hide Run, Refells, DownedBy, NamedRight, Feasible, FaithfulRun, Invariant, Accounted, Starts;
    StartIsInvariant(w, maxHP);
    StartHasNoRecords(w, maxHP);
    forall n | 0 <= n < |run| ensures !Refells(Run(w, run[..n]), run[n], e) {
      FeasiblePrefix(w, run, n);
      RunKeeps(w, run[..n]);
      var v := Run(w, run[..n]);
      if e == BOT {
        RunCounts(w, maxHP, run[..n]);
        NotWhileOnTheRoster(v, run[n], e);
      } else {
        NoPlayer(v, run[n], e);
      }
    }
    RunKillers(w, run, e);
  }

  lemma StartHasNoRecords(w: World, maxHP: nat)
    requires Starts(w, maxHP)
    ensures w.knock == map[] && w.log == [] && w.rescues == map[]
  {}

  lemma NoPlayer(w: World, ev: Event, e: Entity)
    requires Invariant(w) && e != BOT
    ensures !Refells(w, ev, e)
  {
    hide Refells, Invariant;
    if Refells(w, ev, e) {
      OnlyTheRetired(w, ev, e);
    }
  }

  lemma NotWhileOnTheRoster(w: World, ev: Event, e: Entity)
    requires Accounted(w)
    ensures !Refells(w, ev, e)
  {
    hide Fells, Roster, Tracked, Bounded, DiedOnce, Scored, TeamSize, TeamOf;
    if e in w.knock {
      assert Participates(w, e) && Sound(w, e);
      FelledWasAlive(w, ev, e);
    }
  }

  lemma FelledWasAlive(w: World, ev: Event, e: Entity)
    ensures Fells(w, ev, e) ==> LifeOf(w, e) == Alive
  {}

  lemma FeasiblePrefix(w: World, run: seq<Event>, n: nat)
    requires n <= |run|
    ensures Feasible(w, run) ==> Feasible(w, run[..n])
    ensures FaithfulRun(w, run) ==> FaithfulRun(w, run[..n])
  {
    hide Run, Enabled, Faithful;
    assert forall m :: 0 <= m < n ==> run[..n][..m] == run[..m];
  }

  /** A bot that leaves while it is on the ground keeps its record; bleeding gives the record HP again, and a
      hit then kills it outright, once more, under another name than the one on record. */
  lemma RetiredBotIsMisnamed(maxHP: nat) returns (w: World, run: seq<Event>)
    requires maxHP > 0
    ensures Starts(w, maxHP) && Feasible(w, run)
    ensures BOT in Run(w, run).knock && !FelledBy(w, run, BOT, Run(w, run).knock[BOT].killer)
  {
    hide Step, Feasible, Starts, Initial, KnockPlayer, Run, TeamOf, Roster, LastFelling;
    w := Initial([E3], 3, BOT, maxHP);
    Teams();
    BotTeam();
    BotAndMate(maxHP);
    StartFacts([E3], 3, BOT, maxHP);
    StartRoster(w, maxHP);
    var e1, e2, e3, e4 := Damage(BOT, 0, maxHP, 0, []), Arrival(1), Bleed(BLEED_EVERY, [BOT]), Damage(BOT, E3, 190, 0, []);
    NoEvents(w);
    Extend(w, [], e1);
    HitKnocks(w, BOT, E3, maxHP, []);
    Knocks(w.(hp := w.hp[BOT := 0]), BOT);
    var w1 := Step(w, e1);
    SameRoster(w, w1);
    Extend(w, [] + [e1], e2);
    LeavesRecord(w1);
    var w2 := Step(w1, e2);
    Extend(w, [] + [e1] + [e2], e3);
    BleedsOn(w2);
    var w3 := Step(w2, e3);
    Extend(w, [] + [e1] + [e2] + [e3], e4);
    KilledAgain(w3);
    run := [] + [e1] + [e2] + [e3] + [e4];
    assert run[..3] == [] + [e1] + [e2] + [e3];
    OnlyTheLast(w, run);
  }

  lemma BotAndMate(maxHP: nat)
    ensures Starts(Initial([E3], 3, BOT, maxHP), maxHP) && BOT in Initial([E3], 3, BOT, maxHP).hp
    ensures Initial([E3], 3, BOT, maxHP).hp[BOT] == maxHP
  {
    hide TeamOf, Slot;
    Teams();
  }

  lemma LeavesRecord(w: World)
    requires Roster(w) && w.players == [E3] && w.bot == BOT && CanAdmit(w) && !w.roundOver
    requires w.knock == map[BOT := Knock(KNOCKDOWN_HP, BLEED_EVERY, 0)]
    ensures var w' := Step(w, Arrival(1));
            && w'.knock == w.knock && BOT !in w'.life && w'.bot == 0 && !w'.roundOver
            && |w'.players| == 2 && w'.players[0] == E3 && TeamOf(w'.players[1]) == 1
  {
    hide TeamOf, Slot, AllocEntity, Roster;
    AllocIsFresh(w, 1);
    Retired(w, 1);
  }

  lemma BleedsOn(w: World)
    requires w.knock == map[BOT := Knock(KNOCKDOWN_HP, BLEED_EVERY, 0)]
    ensures var w' := Step(w, Bleed(BLEED_EVERY, [BOT]));
            && w'.life == w.life && w'.players == w.players && w'.bot == w.bot && w'.roundOver == w.roundOver
            && BOT in w'.knock && w'.knock[BOT].killer == 0 && BOT in w'.hp && w'.hp[BOT] == 190
  {
    hide FinalizeKnock;
    assert [BOT][..0] == [];
    assert StepKnock(w, BLEED_EVERY, []) == w;
  }

  lemma KilledAgain(w: World)
    requires BOT !in w.life && |w.players| == 2 && w.players[0] == E3 && TeamOf(w.players[1]) == 1 && w.bot == 0
    requires !w.roundOver && BOT in w.knock && BOT in w.hp && w.hp[BOT] == 190
    ensures var w' := Step(w, Damage(BOT, E3, 190, 0, []));
            LifeOf(w, BOT) == Alive && LifeOf(w', BOT) == Dead && w'.knock == w.knock
  {
    hide TeamOf, KillEntity, CreditDeath;
    Teams();
    BotTeam();
    assert w.players[..1] == [E3] && [E3][..0] == [];
    assert CountTeam(w.players[..1], 2) == 1;
    KillIsDeath(w.(hp := w.hp[BOT := 0]), BOT, E3);
  }

  lemma OnlyTheLast(w: World, run: seq<Event>)
    requires |run| == 4 && Fells(Run(w, run[..3]), run[3], BOT) && run[3].attacker == E3
    ensures !FelledBy(w, run, BOT, 0)
  {
    hide Run, Fells;
  }
}
