/** Who wins a round that a tick finds decided: match-server/match.go promises that the first team to fall
    loses, and keeps the team that fell last, but reads only who is up at the tick. */
module MatchWinner {
  import opened MatchState
  import opened MatchVitals
  import opened MatchTeams
  import opened MatchStanding
  import Phases

  // ---------------------------------------------------------------- an event fells one team at most

  /** All but one of those who are up stay up. */
  ghost predicate Spares(w: World, w': World, x: Entity) {
    forall e :: e != x && Participates(w, e) && LifeOf(w, e) == Alive ==> Participates(w', e) && LifeOf(w', e) == Alive
  }

  /** All of them do. */
  ghost predicate SparesAll(w: World, w': World) {
    forall e :: Participates(w, e) && LifeOf(w, e) == Alive ==> Participates(w', e) && LifeOf(w', e) == Alive
  }

  lemma SparesOn(w: World, w1: World, w2: World)
    requires SparesAll(w, w1) && SparesAll(w1, w2)
    ensures SparesAll(w, w2)
  {}

  /** On the same roster only one life has changed away from the living. */
  lemma LifeSpares(w: World, w': World, x: Entity)
    requires w'.players == w.players && w'.bot == w.bot
    requires forall e :: e != x && LifeOf(w, e) == Alive ==> LifeOf(w', e) == Alive
    ensures Spares(w, w', x) && (LifeOf(w, x) != Alive || LifeOf(w', x) == Alive ==> SparesAll(w, w'))
  {}

  lemma DamageSpares(w: World, victim: Entity, attacker: Entity, dmg: nat, now: int, order: seq<Entity>)
    requires Roster(w)
    ensures Spares(w, ApplyDamage(w, victim, attacker, dmg, now, order), victim)
  {
    hide DamageKnocked, DownOrKill, Roster, Spares, SparesAll;
    LifeSpares(w, w, victim);
    if w.roundOver {
    } else if LifeOf(w, victim) == Knocked {
      DamageKnockedSpares(w, victim, dmg);
    } else if LifeOf(w, victim) == Alive && victim in w.hp && w.hp[victim] > 0 {
      var cur := if dmg >= w.hp[victim] then 0 else w.hp[victim] - dmg;
      var w1 := w.(hp := w.hp[victim := cur]);
      LifeSpares(w, w1, victim);
      RosterKept(w, w1);
      DownOrKillLife(w1, victim, attacker, now, order);
      LifeSpares(w, DownOrKill(w1, victim, attacker, now, order), victim);
    }
  }

  lemma DamageKnockedSpares(w: World, victim: Entity, dmg: nat)
    ensures Spares(w, DamageKnocked(w, victim, dmg), victim)
  {
    hide FinalizeKnock, Spares, SparesAll;
    if victim in w.knock {
      var ks := w.knock[victim];
      var hp := if dmg >= ks.hp then 0 else ks.hp - dmg;
      var w1 := w.(knock := w.knock[victim := ks.(hp := hp)], hp := w.hp[victim := hp]);
      FinalizeLife(w1, victim);
    }
    LifeSpares(w, DamageKnocked(w, victim, dmg), victim);
  }

  lemma DownOrKillLife(w: World, victim: Entity, attacker: Entity, now: int, order: seq<Entity>)
    requires Roster(w)
    ensures var w' := DownOrKill(w, victim, attacker, now, order);
            && w'.players == w.players && w'.bot == w.bot
            && forall e :: e != victim && LifeOf(w, e) == Alive ==> LifeOf(w', e) == Alive
  {
    hide KillEntity, KnockPlayer, SweepTeam, TeamSize, TeamAlive, TeamOf, Roster, CreditDeath;
    KillIsDeath(w, victim, attacker);
    Downed(w, victim, attacker, now);
    SweepLife(KnockPlayer(w, victim, attacker, now), TeamOf(victim), order);
  }

  lemma BleedOneSpares(w: World, e: Entity, now: int)
    requires Invariant(w)
    ensures SparesAll(w, BleedOne(w, e, now))
  {
    hide FinalizeKnock, Invariant, Participates;
    DownWhenKnocked(w, e);
    if e in w.knock && now >= w.knock[e].deadline {
      var w1 := w.(knock := w.knock[e := w.knock[e].(deadline := w.knock[e].deadline + BLEED_EVERY)]);
      FinalizeLife(w1, e);
      SameParticipants(w, FinalizeKnock(w1, e));
      SameParticipants(w, BleedOne(w, e, now));
    }
  }

  lemma SameParticipants(w: World, w': World)
    ensures w'.players == w.players && w'.bot == w.bot ==> forall e :: Participates(w', e) <==> Participates(w, e)
  {}

  lemma {:induction false} BleedingSpares(w: World, now: int, order: seq<Entity>)
    requires Invariant(w)
    ensures SparesAll(w, StepKnock(w, now, order))
  {
    hide Invariant, BleedOne, SparesAll;
    if |order| > 0 {
      var init := order[..|order| - 1];
      BleedingSpares(w, now, init);
      StepKnockKeeps(w, now, init);
      BleedOneSpares(StepKnock(w, now, init), order[|order| - 1], now);
      SparesOn(w, StepKnock(w, now, init), StepKnock(w, now, order));
    } else {
      SparesItself(w);
    }
  }

  lemma SparesItself(w: World)
    ensures SparesAll(w, w)
  {}

  lemma {:induction false} RescuesSpare(w: World, now: int, order: seq<Entity>)
    ensures SparesAll(w, StepRescue(w, now, order))
  {
    hide RescueOne, SparesAll;
    if |order| > 0 {
      var init, t := order[..|order| - 1], order[|order| - 1];
      RescuesSpare(w, now, init);
      var w1 := StepRescue(w, now, init);
      RescueOneLife(w1, t, now);
      LifeSpares(w1, RescueOne(w1, t, now), 0);
      SparesOn(w, w1, RescueOne(w1, t, now));
    } else {
      SparesItself(w);
    }
  }

  lemma RevivalSpares(w: World)
    ensures SparesAll(w, ReviveAll(w))
  {
    forall e | Participates(w, e) ensures Participates(ReviveAll(w), e) && LifeOf(ReviveAll(w), e) == Alive {
      assert e in Everyone(w.players, w.bot);
    }
  }

  lemma ArrivalSpares(w: World, prefer: nat)
    requires Roster(w) && CanAdmit(w)
    ensures Spares(w, Join(w, prefer), w.bot)
  {
    hide AllocEntity, TeamOf, Slot, Roster;
    AllocIsFresh(w, prefer);
    BotIsNoPlayer(w);
  }

  lemma StepSpares(w: World, ev: Event) returns (x: Entity)
    requires Invariant(w) && Enabled(w, ev)
    ensures Spares(w, Step(w, ev), x)
  {
    hide Invariant, ApplyDamage, StepKnock, StepRescue, ReviveAll, Join, RemovePlayer, Participates, CanAdmit;
    InvariantRoster(w);
    x := 0;
    match ev
    case Damage(victim, attacker, dmg, now, order) =>
      x := victim;
      DamageSpares(w, victim, attacker, dmg, now, order);
    case Bleed(now, order) => BleedingSpares(w, now, order);
    case RescueTick(now, order) => RescuesSpare(w, now, order);
    case Revival => RevivalSpares(w);
    case Arrival(prefer) =>
      x := w.bot;
      ArrivalSpares(w, prefer);
    case Departure(e) =>
      x := e;
      DepartureSpares(w, e);
    case BotSpawn => BotSpares(w);
    case _ =>
      QuietStep(w, ev);
      QuietSpares(w, Step(w, ev));
  }

  lemma QuietSpares(w: World, w': World)
    requires NoDeath(w, w') && forall e :: LifeOf(w', e) == LifeOf(w, e)
    ensures Spares(w, w', 0)
  {}

  lemma DepartureSpares(w: World, e: Entity)
    requires Roster(w)
    ensures Spares(w, RemovePlayer(w, e), e)
  {
    hide RemovePlayer, Roster;
    if e in w.players {
      Departed(w, e);
    } else {
      LeavesNobody(w, e);
    }
  }

  lemma BotSpares(w: World)
    requires Roster(w)
    ensures Spares(w, SpawnBot(w), 0)
  {
    hide TeamOf, Slot;
  }

  /** No event fells both teams. */
  lemma OneFalls(w: World, ev: Event)
    requires Invariant(w) && Enabled(w, ev) && SomeoneAlive(w, 1) && SomeoneAlive(w, 2)
    ensures SomeoneAlive(Step(w, ev), 1) || SomeoneAlive(Step(w, ev), 2)
  {
    hide Invariant, Enabled, Step, TeamOf;
    var x := StepSpares(w, ev);
    var a :| Participates(w, a) && TeamOf(a) == 1 && LifeOf(w, a) == Alive;
    var b :| Participates(w, b) && TeamOf(b) == 2 && LifeOf(w, b) == Alive;
    var c := if a == x then b else a;
    assert Participates(Step(w, ev), c) && LifeOf(Step(w, ev), c) == Alive;
  }

  // ---------------------------------------------------------------- since when a team has been down

  /** The number of events after which a team that is down at the end went down. */
  ghost function DownSince(w: World, run: seq<Event>, team: nat): nat {
    if |run| == 0 || SomeoneAlive(Run(w, run[..|run| - 1]), team) then |run|
    else DownSince(w, run[..|run| - 1], team)
  }

  ghost predicate BothDown(w: World) {
    !SomeoneAlive(w, 1) && !SomeoneAlive(w, 2)
  }

  /** Two teams never fall at the same moment, so one of them fell first. */
  lemma {:induction false} NoTie(w: World, run: seq<Event>)
    requires Invariant(w) && SafeMaxHP(w.maxHP) && Feasible(w, run) && !BothDown(w) && BothDown(Run(w, run))
    ensures DownSince(w, run, 1) != DownSince(w, run, 2)
    ensures DownSince(w, run, 1) <= |run| && DownSince(w, run, 2) <= |run|
  {
    hide Invariant, Enabled, Step, SomeoneAlive;
    var init := run[..|run| - 1];
    FeasiblePrefix(w, run);
    RunKeeps(w, init);
    var w1 := Run(w, init);
    if SomeoneAlive(w1, 1) && SomeoneAlive(w1, 2) {
      OneFalls(w1, run[|run| - 1]);
    } else if BothDown(w1) {
      NoTie(w, init);
    } else {
      DownBefore(w, init, 1);
      DownBefore(w, init, 2);
    }
  }

  lemma {:induction false} DownBefore(w: World, run: seq<Event>, team: nat)
    ensures DownSince(w, run, team) <= |run|
  {
    hide Run, SomeoneAlive;
    if |run| > 0 {
      DownBefore(w, run[..|run| - 1], team);
    }
  }

  lemma FeasiblePrefix(w: World, run: seq<Event>)
    requires Feasible(w, run) && |run| > 0
    ensures Feasible(w, run[..|run| - 1]) && Enabled(Run(w, run[..|run| - 1]), run[|run| - 1])
  {
    hide Run, Enabled;
    var init := run[..|run| - 1];
    forall n | 0 <= n < |init| ensures Enabled(Run(w, init[..n]), init[n]) {
      assert init[..n] == run[..n];
    }
  }

  // ---------------------------------------------------------------- the winner of the tick

  /** What the tick sees of the match. */
  ghost function Seen(w: World, now: int): Phases.Sight {
    Phases.Sight(now, TeamAlive(w, 1), TeamAlive(w, 2), true, true)
  }

  /** The team that is down, or fell first. */
  ghost function FirstToFall(w: World, run: seq<Event>): nat {
    if SomeoneAlive(Run(w, run), 1) then 2
    else if SomeoneAlive(Run(w, run), 2) then 1
    else if DownSince(w, run, 1) < DownSince(w, run, 2) then 1 else 2
  }

  /** When a tick ends a fight that the tick before left open, the first team to fall loses, except exactly
      when both are down and team 2 fell first: then it wins. */
  lemma FirstToFallLoses(w: World, run: seq<Event>, now: int)
    requires Invariant(w) && SafeMaxHP(w.maxHP) && Feasible(w, run) && SomeoneAlive(w, 1) && SomeoneAlive(w, 2)
    requires !SomeoneAlive(Run(w, run), 1) || !SomeoneAlive(Run(w, run), 2)
    ensures var i := Seen(Run(w, run), now);
            && (i.localAlive == 0 || i.enemyAlive == 0)
            && (Phases.Winner(i) == OtherTeam(FirstToFall(w, run))
                <==> !(BothDown(Run(w, run)) && DownSince(w, run, 2) < DownSince(w, run, 1)))
  {
    hide Invariant, TeamAlive, Run, Feasible, SomeoneAlive;
    RunKeeps(w, run);
    InvariantRoster(Run(w, run));
    AliveCounts(Run(w, run), 1);
    AliveCounts(Run(w, run), 2);
    if BothDown(Run(w, run)) {
      NoTie(w, run);
    }
  }
}
