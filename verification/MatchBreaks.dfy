/** Runs from a start that reach the boundaries of MatchStanding, MatchSpectators and MatchWinner: the promises
    hold until the last event and fail after it. */
module MatchBreaks {
  import opened MatchState
  import opened MatchVitals
  import opened MatchRounds
  import opened MatchTeams
  import opened MatchStanding
  import opened MatchSpectators
  import opened MatchWinner

  const E4: Entity := 0x200_0004
  const E5: Entity := 0x200_0005

  // ---------------------------------------------------------------- one event more

  lemma NoEvents(w: World)
    ensures Feasible(w, []) && Run(w, []) == w
  {}

  lemma Extend(w: World, run: seq<Event>, ev: Event)
    requires Feasible(w, run) && Enabled(Run(w, run), ev)
    ensures Feasible(w, run + [ev]) && Run(w, run + [ev]) == Step(Run(w, run), ev)
    ensures (run + [ev])[..|run + [ev]| - 1] == run
  {
    hide Step, Enabled, Run;
    RunOneMore(w, run, ev);
    forall n | 0 <= n < |run + [ev]| ensures Enabled(Run(w, (run + [ev])[..n]), (run + [ev])[n]) {
      if n < |run| {
        assert (run + [ev])[..n] == run[..n];
        assert Enabled(Run(w, run[..n]), run[n]);
      } else {
        assert (run + [ev])[..n] == run;
      }
    }
  }

  /** A lethal hit on someone whose team has another one up. */
  lemma HitKnocks(w: World, v: Entity, a: Entity, dmg: nat, order: seq<Entity>)
    requires Roster(w) && !w.roundOver && v in w.hp && 0 < w.hp[v] <= dmg
    requires Participates(w, v) && LifeOf(w, v) == Alive
    requires Participates(w, a) && LifeOf(w, a) == Alive && a != v && TeamOf(a) == TeamOf(v)
    ensures Step(w, Damage(v, 0, dmg, 0, order)) == KnockPlayer(w.(hp := w.hp[v := 0]), v, 0, 0)
  {
    hide TeamOf, TeamSize, TeamAlive, KnockPlayer, SweepTeam, Roster;
    var w1 := w.(hp := w.hp[v := 0]);
    var w2 := KnockPlayer(w1, v, 0, 0);
    SameRoster(w, w1);
    Knocks(w1, v);
    SameRoster(w1, w2);
    assert Participates(w1, a) && Participates(w1, v);
    if TeamSize(w1, TeamOf(v)) <= 1 {
      AloneInTeam(w1, v);
    }
    AliveCounts(w2, TeamOf(v));
    assert Participates(w2, a) && LifeOf(w2, a) == Alive;
  }

  lemma SameRoster(w: World, w': World)
    requires Roster(w) && w'.players == w.players && w'.sessions == w.sessions && w'.bot == w.bot
    requires w'.nextSlot == w.nextSlot
    ensures Roster(w')
  {}

  lemma Knocks(w: World, v: Entity)
    ensures var w' := KnockPlayer(w, v, 0, 0);
            && w'.players == w.players && w'.sessions == w.sessions && w'.bot == w.bot && w'.nextSlot == w.nextSlot
            && w'.roundOver == w.roundOver && w'.rescues == w.rescues && w'.maxHP == w.maxHP
            && LifeOf(w', v) == Knocked && (forall e :: e != v ==> LifeOf(w', e) == LifeOf(w, e))
            && w'.hp == w.hp[v := KNOCKDOWN_HP] && w'.knock == w.knock[v := Knock(KNOCKDOWN_HP, BLEED_EVERY, 0)]
  {}

  lemma StartFacts(players: seq<Entity>, nextSlot: nat, bot: Entity, maxHP: nat)
    ensures var w := Initial(players, nextSlot, bot, maxHP);
            && w.players == players && w.nextSlot == nextSlot && w.bot == bot && w.maxHP == maxHP
            && w.knock == map[] && w.rescues == map[] && !w.roundOver
            && (forall e :: LifeOf(w, e) == Alive)
            && (forall p :: p in players <==> p in w.sessions) && (forall p :: p in players ==> w.sessions[p].observing == 0)
            && (forall p :: p in players ==> p in w.hp && w.hp[p] == maxHP)
            && (forall p :: p in w.hp || p in w.life ==> p in players || (bot != 0 && p == bot))
  {}

  // ---------------------------------------------------------------- wiped teams

  /** The last to stand over a fallen team leaves. */
  lemma DepartureBreaks(maxHP: nat) returns (w: World, run: seq<Event>)
    requires maxHP > 0
    ensures Starts(w, maxHP) && Feasible(w, run) && |run| > 0
    ensures Standing(Run(w, run[..|run| - 1])) && !Standing(Run(w, run))
  {
    hide Step, Feasible, Starts, Initial, KnockPlayer, Run, TeamOf, Roster, Standing;
    w := Initial([P1, P3], 3, 0, maxHP);
    PairBegins(maxHP);
    Teams();
    StartFacts([P1, P3], 3, 0, maxHP);
    StartRoster(w, maxHP);
    var e1, e2 := Damage(P1, 0, maxHP, 0, [P1]), Departure(P3);
    NoEvents(w);
    Extend(w, [], e1);
    HitKnocks(w, P1, P3, maxHP, [P1]);
    Knocks(w.(hp := w.hp[P1 := 0]), P1);
    var w1 := Step(w, e1);
    Extend(w, [] + [e1], e2);
    SameRoster(w, w1);
    Departed(w1, P3);
    run := [] + [e1] + [e2];
    MateIsUp(w1, P3);
    LeftOnTheGround(w1, P1, P3);
  }

  lemma PairBegins(maxHP: nat)
    ensures Starts(Initial([P1, P3], 3, 0, maxHP), maxHP)
  {
    PairStarts(maxHP);
  }

  lemma MateIsUp(w: World, a: Entity)
    requires Participates(w, a) && LifeOf(w, a) == Alive
    requires forall e :: Participates(w, e) ==> TeamOf(e) == TeamOf(a)
    ensures Standing(w)
  {}

  lemma StartRoster(w: World, maxHP: nat)
    requires Starts(w, maxHP)
    ensures Roster(w)
  {}

  lemma LeftOnTheGround(w: World, k: Entity, e: Entity)
    requires Roster(w) && w.players == [k, e] && w.bot == 0 && LifeOf(w, k) == Knocked && k != e
    ensures !Standing(Step(w, Departure(e)))
  {
    hide TeamOf, RemovePlayer, Roster;
    Departed(w, e);
    var w' := RemovePlayer(w, e);
    assert Participates(w', k) && LifeOf(w', k) == Knocked && !SomeoneAlive(w', TeamOf(k));
  }

  /** The bot is the last to stand over its fallen teammate, and makes room for a newcomer to the other team. */
  lemma RetirementBreaks(maxHP: nat) returns (w: World, run: seq<Event>)
    requires maxHP > 0
    ensures Starts(w, maxHP) && Feasible(w, run) && |run| > 0
    ensures Standing(Run(w, run[..|run| - 1])) && !Standing(Run(w, run))
  {
    hide Step, Feasible, Starts, Initial, KnockPlayer, Run, TeamOf, Roster, Standing;
    w := Initial([E3], 3, 0, maxHP);
    Teams();
    StartFacts([E3], 3, 0, maxHP);
    SoloStarts(maxHP);
    StartRoster(w, maxHP);
    var e1, e2, e3 := BotSpawn, Damage(E3, 0, maxHP, 0, [E3]), Arrival(1);
    NoEvents(w);
    Extend(w, [], e1);
    var w1 := Step(w, e1);
    assert w1 == SpawnBot(w) by { StepIsSpawn(w); }
    BotJoins(w);
    Extend(w, [] + [e1], e2);
    HitKnocks(w1, E3, BOT, maxHP, [E3]);
    Knocks(w1.(hp := w1.hp[E3 := 0]), E3);
    var w2 := Step(w1, e2);
    Extend(w, [] + [e1] + [e2], e3);
    run := [] + [e1] + [e2] + [e3];
    SameRoster(w1, w2);
    MateIsUp(w2, BOT);
    BotMakesRoom(w2);
  }

  lemma StepIsSpawn(w: World)
    ensures Step(w, BotSpawn) == SpawnBot(w)
  {}

  lemma SoloStarts(maxHP: nat)
    ensures Starts(Initial([E3], 3, 0, maxHP), maxHP)
  {
    hide TeamOf, Slot;
    Teams();
  }

  lemma BotJoins(w: World)
    requires Roster(w) && w.bot == 0
    ensures var w' := SpawnBot(w);
            && Roster(w') && w'.players == w.players && w'.bot == BOT && w'.roundOver == w.roundOver && w'.nextSlot == w.nextSlot
            && w'.sessions == w.sessions && w'.maxHP == w.maxHP && w'.knock == w.knock
            && LifeOf(w', BOT) == Alive && Participates(w', BOT) && (forall e :: e != BOT ==> LifeOf(w', e) == LifeOf(w, e))
            && w'.hp == w.hp[BOT := w.maxHP]
    ensures TeamOf(BOT) == 2
  {}

  lemma BotMakesRoom(w: World)
    requires Roster(w) && w.players == [E3] && w.bot == BOT && CanAdmit(w)
    requires LifeOf(w, E3) == Knocked && LifeOf(w, BOT) == Alive
    ensures !Standing(Step(w, Arrival(1)))
  {
    hide TeamOf, Slot, Join, AllocEntity, Roster;
    Teams();
    AllocIsFresh(w, 1);
    Retired(w, 1);
    var w' := Join(w, 1);
    assert Participates(w', E3) && LifeOf(w', E3) == Knocked;
    assert !SomeoneAlive(w', 2);
  }

  lemma Retired(w: World, prefer: nat)
    requires Roster(w) && w.bot == BOT && CanAdmit(w) && prefer == 1
    ensures var e, w' := AllocEntity(w, prefer), Join(w, prefer);
            && w'.players == w.players + [e] && w'.bot == 0 && TeamOf(e) == 1 && e !in w.players
            && forall x :: x in w.players ==> LifeOf(w', x) == LifeOf(w, x)
  {
    hide Slot, Roster, AllocEntity, TeamOf;
    AllocIsFresh(w, prefer);
    BotIsNoPlayer(w);
  }

  // ---------------------------------------------------------------- spectators

  /** What a death leaves: the record, the life and the HP of the victim, and where everybody looks. */
  ghost predicate Fallen(w: World, w': World, e: Entity, focus: Entity) {
    && w'.players == w.players && w'.bot == w.bot && w'.nextSlot == w.nextSlot && w'.roundOver == w.roundOver
    && w'.sessions.Keys == w.sessions.Keys && w'.hp == w.hp[e := 0]
    && LifeOf(w', e) == Dead && (forall x :: x != e ==> LifeOf(w', x) == LifeOf(w, x))
    && forall p :: p in w.sessions ==>
         w'.sessions[p].observing
         == if focus != 0 && (p == e || w.sessions[p].observing == e) then focus else w.sessions[p].observing
  }

  lemma FallsOut(w: World, w1: World, e: Entity)
    requires w1.players == w.players && w1.bot == w.bot && w1.nextSlot == w.nextSlot && w1.roundOver == w.roundOver
    requires w1.sessions == w.sessions && w1.hp == w.hp[e := 0] && e in w.players
    requires LifeOf(w1, e) == Dead && forall x :: x != e ==> LifeOf(w1, x) == LifeOf(w, x)
    ensures var w2 := EmitDeath(w1, e, Observed(w1, e));
            Fallen(w, w2, e, SpectateFor(w1, e)) && w2 == w1.(sessions := w2.sessions)
  {
    hide SpectateFor;
    var o := SpectateFor(w1, e);
    EmitDeathOnlyObserving(w1, e, o);
    if o != 0 {
      TargetTakesPart(w1, e);
      WatchersFollow(w1, e, o);
    }
  }

  lemma KillFalls(w: World, e: Entity)
    requires e in w.players
    ensures Fallen(w, KillEntity(w, e, 0), e, SpectateFor(KillEntity(w, e, 0), e))
  {
    hide EmitDeath, Observed, CreditDeath, SpectateFor, Fallen;
    CreditFrame(w, e, 0);
    FallsOut(w, Bury(w, e, 0), e);
    SameFocus(Bury(w, e, 0), KillEntity(w, e, 0), e);
  }

  lemma FinalizeFalls(w: World, e: Entity)
    requires e in w.players && e in w.knock
    ensures Fallen(w, FinalizeKnock(w, e), e, SpectateFor(FinalizeKnock(w, e), e))
    ensures FinalizeKnock(w, e).rescues == w.rescues - {e} && FinalizeKnock(w, e).knock == w.knock - {e}
  {
    hide EmitDeath, Observed, CreditDeath, SpectateFor, Fallen;
    CreditFrame(w, e, w.knock[e].killer);
    var w1 := Bury(w, e, w.knock[e].killer);
    var w2 := w1.(knock := w1.knock - {e}, rescues := w1.rescues - {e});
    FallsOut(w, w2, e);
    SameFocus(w2, FinalizeKnock(w, e), e);
  }

  lemma SameFocus(w: World, w': World, e: Entity)
    requires w'.players == w.players && w'.bot == w.bot && w'.life == w.life
    ensures SpectateFor(w', e) == SpectateFor(w, e)
  {
    SameFirstFrom(w, w', 0, TeamOf(e), e);
    SameFirstFrom(w, w', 0, OtherTeam(TeamOf(e)), e);
  }

  lemma {:induction false} SameFirstFrom(w: World, w': World, i: nat, team: nat, except: Entity)
    requires w'.players == w.players && w'.bot == w.bot && w'.life == w.life && i <= |w.players|
    ensures FirstAliveFrom(w', i, team, except) == FirstAliveFrom(w, i, team, except)
    decreases |w.players| - i
  {
    hide TeamOf;
    if i < |w.players| {
      SameFirstFrom(w, w', i + 1, team, except);
    }
  }

  /** A lethal hit on the only one of a team. */
  lemma HitKills(w: World, v: Entity, dmg: nat)
    requires !w.roundOver && v in w.hp && 0 < w.hp[v] <= dmg && LifeOf(w, v) == Alive && TeamSize(w, TeamOf(v)) <= 1
    ensures Step(w, Damage(v, 0, dmg, 0, [])) == KillEntity(w.(hp := w.hp[v := 0]), v, 0)
  {
    hide TeamOf, CountTeam, KillEntity, KnockPlayer, SweepTeam, TeamAlive;
  }

  lemma DuelSizes(w: World)
    requires w.players == [P1, E3] && w.bot == 0
    ensures TeamSize(w, TeamOf(P1)) == 1 && TeamSize(w, TeamOf(E3)) == 1
  {
    hide TeamOf;
    Teams();
    assert [P1, E3][..1] == [P1] && [P1][..0] == [];
    assert CountTeam([P1], 1) == 1 && CountTeam([P1], 2) == 0;
    assert CountTeam([P1, E3], 1) == 1 && CountTeam([P1, E3], 2) == 1;
  }

  /** Nobody of the own team is left to watch, but one of the other is. */
  lemma DuelFocus(w: World)
    requires w.players == [P1, E3] && w.bot == 0
    ensures LifeOf(w, E3) == Alive ==> SpectateFor(w, P1) == E3
    ensures LifeOf(w, P1) != Alive ==> SpectateFor(w, E3) == 0
  {
    hide TeamOf;
    Teams();
    assert P1 != E3 && OtherTeam(1) == 2 && OtherTeam(2) == 1 && w.players[0] == P1 && w.players[1] == E3;
    FocusFrom(w, 1, P1);
    FocusFrom(w, 2, P1);
    FocusFrom(w, 1, E3);
    FocusFrom(w, 2, E3);
  }

  lemma FocusFrom(w: World, team: nat, except: Entity)
    requires w.players == [P1, E3] && w.bot == 0
    ensures FirstAlive(w, team, except)
         == if P1 != except && TeamOf(P1) == team && LifeOf(w, P1) == Alive then P1
            else if E3 != except && TeamOf(E3) == team && LifeOf(w, E3) == Alive then E3 else 0
  {
    hide TeamOf;
    assert FirstAliveFrom(w, 2, team, except) == 0;
    assert FirstAliveFrom(w, 1, team, except) == if E3 != except && TeamOf(E3) == team && LifeOf(w, E3) == Alive then E3 else 0;
  }

  /** One of the two is hit. */
  lemma DuelFall(w: World, maxHP: nat, v: Entity)
    requires w.players == [P1, E3] && w.bot == 0 && !w.roundOver && maxHP > 0 && v in w.players
    requires LifeOf(w, v) == Alive && v in w.hp && w.hp[v] == maxHP
    ensures var w' := Step(w, Damage(v, 0, maxHP, 0, [])); Fallen(w, w', v, SpectateFor(w', v))
  {
    hide TeamOf, TeamSize, KillEntity, Step, SpectateFor;
    DuelSizes(w);
    HitKills(w, v, maxHP);
    var w1 := w.(hp := w.hp[v := 0]);
    KillFalls(w1, v);
    assert w1.hp[v := 0] == w.hp[v := 0];
  }

  lemma FirstFalls(w: World, maxHP: nat)
    requires w.players == [P1, E3] && w.bot == 0 && !w.roundOver && maxHP > 0
    requires LifeOf(w, P1) == LifeOf(w, E3) == Alive && P1 in w.sessions
    requires P1 in w.hp && E3 in w.hp && w.hp[P1] == maxHP && w.hp[E3] == maxHP
    ensures var w' := Step(w, Damage(P1, 0, maxHP, 0, []));
            && Fallen(w, w', P1, E3) && w'.sessions[P1].observing == E3
  {
    hide TeamOf, Step, SpectateFor;
    DuelFall(w, maxHP, P1);
    DuelFocus(Step(w, Damage(P1, 0, maxHP, 0, [])));
  }

  lemma SecondFalls(w: World, maxHP: nat)
    requires w.players == [P1, E3] && w.bot == 0 && !w.roundOver && maxHP > 0
    requires LifeOf(w, P1) == Dead && LifeOf(w, E3) == Alive && E3 in w.hp && w.hp[E3] == maxHP
    ensures Fallen(w, Step(w, Damage(E3, 0, maxHP, 0, [])), E3, 0)
  {
    hide TeamOf, Step, SpectateFor;
    DuelFall(w, maxHP, E3);
    DuelFocus(Step(w, Damage(E3, 0, maxHP, 0, [])));
  }

  /** A duel in which both fall before the next tick, and a newcomer. */
  lemma ArrivalBreaks(maxHP: nat) returns (w: World, run: seq<Event>)
    requires SafeMaxHP(maxHP)
    ensures Starts(w, maxHP) && w.bot == 0 && Feasible(w, run) && |run| > 0
    ensures Watched(Run(w, run[..|run| - 1])) && !Watched(Run(w, run))
  {
    hide Step, Feasible, Starts, Initial, Run, TeamOf, Roster, Watched, Orderly, MayStandUp, Invariant;
    w := Initial([P1, E3], 3, 0, maxHP);
    DuelStarts(maxHP);
    StartFacts([P1, E3], 3, 0, maxHP);
    var e1, e2, e3 := Damage(P1, 0, maxHP, 0, []), Damage(E3, 0, maxHP, 0, []), Arrival(1);
    NoEvents(w);
    Extend(w, [], e1);
    var w1 := Step(w, e1);
    FirstFalls(w, maxHP);
    Extend(w, [] + [e1], e2);
    var w2 := Step(w1, e2);
    SecondFalls(w1, maxHP);
    Extend(w, [] + [e1] + [e2], e3);
    run := [] + [e1] + [e2] + [e3];
    var init := [] + [e1] + [e2];
    assert OrderlyRun(w, init) by { PlainRunIsOrderly(w, init); }
    SpectatorsWatchTheLiving(w, maxHP, init);
    NobodyMayStand(w2, P1, E3);
    ArrivalFails(w2);
  }

  lemma NobodyMayStand(w: World, p: Entity, o: Entity)
    requires p in w.sessions && w.sessions[p].observing == o != 0 && LifeOf(w, o) == Dead
    requires forall e :: e in w.players ==> LifeOf(w, e) != Alive
    ensures !MayStandUp(w)
  {}

  lemma ArrivalFails(w: World)
    requires Invariant(w) && Watched(w) && CanAdmit(w) && !MayStandUp(w)
    ensures !Watched(Step(w, Arrival(1)))
  {
    hide Invariant, Watched, MayStandUp, Join;
    ArrivalWatched(w, 1);
  }

  lemma DuelStarts(maxHP: nat)
    ensures var w := Initial([P1, E3], 3, 0, maxHP); Starts(w, maxHP) && Roster(w)
  {
    hide TeamOf, Slot;
    Teams();
  }

  lemma PlainRunIsOrderly(w: World, run: seq<Event>)
    requires Feasible(w, run) && forall i :: 0 <= i < |run| ==> !run[i].Arrival? && !run[i].BotSpawn? && !run[i].RescueTick?
    ensures OrderlyRun(w, run)
  {
    hide Run, Enabled, MayStandUp, Raises;
    forall n | 0 <= n < |run| ensures Orderly(Run(w, run[..n]), run[n]) {
      assert Enabled(Run(w, run[..n]), run[n]);
    }
  }

  // ---------------------------------------------------------------- a rescue that outlives its reviver

  const SQUADS: seq<Entity> := [P1, P3, E4, E5]

  /** Who is down, and that everyone else is up and unhurt. */
  ghost predicate Scene(w: World, maxHP: nat, players: seq<Entity>, down: map<Entity, Life>) {
    && Roster(w) && w.players == players && w.bot == 0 && !w.roundOver
    && forall p :: p in players ==>
         && LifeOf(w, p) == (if p in down then down[p] else Alive)
         && (p !in down ==> p in w.hp && w.hp[p] == maxHP)
  }

  lemma SceneStarts(maxHP: nat)
    ensures var w := Initial(SQUADS, 5, 0, maxHP);
            Starts(w, maxHP) && Scene(w, maxHP, SQUADS, map[]) && w.rescues == map[] && E4 in w.sessions
  {
    hide TeamOf, Slot, Roster, Initial;
    StartFacts(SQUADS, 5, 0, maxHP);
    SquadRoster(Initial(SQUADS, 5, 0, maxHP));
    assert E4 in SQUADS by { assert SQUADS[2] == E4; }
  }

  lemma SquadRoster(w: World)
    requires w.players == SQUADS && w.nextSlot == 5 && w.bot == 0 && forall p :: p in SQUADS <==> p in w.sessions
    ensures Roster(w)
  {
    hide TeamOf, Slot;
    Teams();
    SquadTeams();
  }

  lemma SquadTeams()
    ensures TeamOf(E4) == 2 && TeamOf(E5) == 2 && Slot(E4) == 4 && Slot(E5) == 5
  {}

  lemma SceneKnock(w: World, maxHP: nat, players: seq<Entity>, down: map<Entity, Life>, v: Entity, a: Entity)
    requires Scene(w, maxHP, players, down) && maxHP > 0 && TeamOf(a) == TeamOf(v) && a != v
    requires v in players && a in players && v !in down && a !in down
    ensures var w' := Step(w, Damage(v, 0, maxHP, 0, []));
            && Scene(w', maxHP, players, down[v := Knocked]) && w'.sessions == w.sessions && w'.rescues == w.rescues
            && v in w'.knock && w'.knock[v].hp == KNOCKDOWN_HP
  {
    hide Step, KnockPlayer, TeamOf, Roster;
    HitKnocks(w, v, a, maxHP, []);
    Knocks(w.(hp := w.hp[v := 0]), v);
    SameRoster(w, Step(w, Damage(v, 0, maxHP, 0, [])));
  }

  lemma SceneFinish(w: World, maxHP: nat, players: seq<Entity>, down: map<Entity, Life>, v: Entity)
    requires Scene(w, maxHP, players, down) && v in players && v in down && down[v] == Knocked
    requires v in w.knock && w.knock[v].hp == KNOCKDOWN_HP
    ensures var w' := Step(w, Damage(v, 0, KNOCKDOWN_HP, 0, []));
            && Scene(w', maxHP, players, down[v := Dead]) && w'.rescues == w.rescues - {v}
            && w'.sessions.Keys == w.sessions.Keys
            && (v in w.sessions && SpectateFor(w', v) != 0 ==> w'.sessions[v].observing == SpectateFor(w', v))
  {
    hide FinalizeKnock, TeamOf, Roster, SpectateFor;
    var w1 := w.(knock := w.knock[v := w.knock[v].(hp := 0)], hp := w.hp[v := 0]);
    FinalizeFalls(w1, v);
    RosterAfterFall(w, w1, FinalizeKnock(w1, v));
  }

  lemma RosterAfterFall(w: World, w1: World, w2: World)
    requires Roster(w) && w1.players == w.players && w1.sessions == w.sessions && w1.bot == w.bot && w1.nextSlot == w.nextSlot
    requires w2.players == w.players && w2.sessions.Keys == w.sessions.Keys && w2.bot == w.bot && w2.nextSlot == w.nextSlot
    ensures Roster(w2)
  {}

  /** The last of a team falls: there is nobody left whom its watchers could move on to. */
  lemma SceneWipe(w: World, maxHP: nat, players: seq<Entity>, down: map<Entity, Life>, v: Entity, dead: Entity)
    requires Scene(w, maxHP, players, down) && maxHP > 0 && v in players && v !in down
    requires dead in players && dead != v && TeamOf(dead) == TeamOf(v)
    requires forall p :: p in players && p != v ==> p in down && down[p] != Alive
    ensures var w' := Step(w, Damage(v, 0, maxHP, 0, [v]));
            && Scene(w', maxHP, players, down[v := Dead]) && w'.rescues == w.rescues - {v}
            && w'.sessions.Keys == w.sessions.Keys
            && (forall p :: p in w.sessions ==> w'.sessions[p].observing == w.sessions[p].observing)
            && forall x :: x != v ==> LifeOf(w', x) == LifeOf(w, x)
  {
    hide FinalizeKnock, KnockPlayer, TeamOf, Roster, SpectateFor, Fallen, Step;
    var w2 := KnockPlayer(w.(hp := w.hp[v := 0]), v, 0, 0);
    HitWipes(w, v, dead, maxHP);
    Knocks(w.(hp := w.hp[v := 0]), v);
    FinalizeFalls(w2, v);
    WipedScene(w, w2, FinalizeKnock(w2, v), maxHP, players, down, v);
  }

  /** A lethal hit on the last one up of a team of more than one. */
  lemma HitWipes(w: World, v: Entity, dead: Entity, dmg: nat)
    requires Roster(w) && !w.roundOver && v in w.hp && 0 < w.hp[v] <= dmg && v in w.players && dead in w.players
    requires LifeOf(w, v) == Alive && dead != v && TeamOf(dead) == TeamOf(v) && w.bot == 0
    requires forall p :: p in w.players && p != v ==> LifeOf(w, p) != Alive
    ensures var w2 := KnockPlayer(w.(hp := w.hp[v := 0]), v, 0, 0);
            v in w2.knock && Step(w, Damage(v, 0, dmg, 0, [v])) == FinalizeKnock(w2, v).(lastTeamFell := TeamOf(v))
  {
    hide FinalizeKnock, KnockPlayer, TeamOf, TeamSize, TeamAlive, Roster, SweepTeam;
    var w1 := w.(hp := w.hp[v := 0]);
    var w2 := KnockPlayer(w1, v, 0, 0);
    SameRoster(w, w1);
    Knocks(w1, v);
    SameRoster(w1, w2);
    assert Participates(w1, dead) && Participates(w1, v);
    if TeamSize(w1, TeamOf(v)) <= 1 {
      AloneInTeam(w1, v);
    }
    AliveCounts(w2, TeamOf(v));
    SweepOfOne(w2, v);
  }

  lemma WipedScene(w: World, w2: World, w3: World, maxHP: nat, players: seq<Entity>, down: map<Entity, Life>, v: Entity)
    requires Scene(w, maxHP, players, down) && v in players && v !in down
    requires forall p :: p in players && p != v ==> p in down && down[p] != Alive
    requires w2.players == w.players && w2.sessions == w.sessions && w2.bot == w.bot && w2.nextSlot == w.nextSlot
    requires w2.roundOver == w.roundOver && w2.rescues == w.rescues && forall e :: e != v ==> LifeOf(w2, e) == LifeOf(w, e)
    requires Fallen(w2, w3, v, SpectateFor(w3, v)) && w3.rescues == w2.rescues - {v}
    ensures var w' := w3.(lastTeamFell := TeamOf(v));
            && Scene(w', maxHP, players, down[v := Dead]) && w'.rescues == w.rescues - {v}
            && w'.sessions.Keys == w.sessions.Keys
            && (forall p :: p in w.sessions ==> w'.sessions[p].observing == w.sessions[p].observing)
            && forall x :: x != v ==> LifeOf(w', x) == LifeOf(w, x)
  {
    hide Roster, TeamOf, SpectateFor;
    NobodyLeft(w3, v);
    RosterAfterFall(w, w2, w3);
    SameRoster(w3, w3.(lastTeamFell := TeamOf(v)));
  }

  lemma SweepOfOne(w: World, v: Entity)
    requires v in w.knock && LifeOf(w, v) == Knocked
    ensures SweepTeam(w, TeamOf(v), [v]) == FinalizeKnock(w, v)
  {
    hide FinalizeKnock, TeamOf;
    assert [v][..0] == [];
    assert SweepTeam(w, TeamOf(v), []) == w;
  }

  lemma NobodyLeft(w: World, v: Entity)
    requires w.bot == 0 && forall p :: p in w.players ==> LifeOf(w, p) != Alive
    ensures SpectateFor(w, v) == 0
  {
    hide SpectateFor;
    TargetTakesPart(w, v);
  }

  lemma SceneLeave(w: World, maxHP: nat, down: map<Entity, Life>)
    requires Scene(w, maxHP, SQUADS, down) && E4 in w.sessions && w.sessions[E4].observing == E5
    ensures var w' := Step(w, Departure(P3));
            && Scene(w', maxHP, [P1, E4, E5], down) && w'.rescues == w.rescues
            && E4 in w'.sessions && w'.sessions[E4].observing == E5
            && LifeOf(w', P3) == Alive
  {
    hide RemovePlayer, TeamOf, Roster, Drop;
    DepartureFrame(w, P3);
    DropsThird();
    DepartureFocus(w, P3, E4) by { StaysSeated(w, P3, E4); }
    Departed(w, P3);
    RosterLess(w, P3);
  }

  lemma StaysSeated(w: World, e: Entity, p: Entity)
    requires e in w.players && p in w.sessions && p != e
    ensures p in RemovePlayer(w, e).sessions
  {
    hide RemovePlayer, Drop;
    DepartureFrame(w, e);
    assert p in Gone(w, e).sessions.Keys;
  }

  lemma RosterLess(w: World, e: Entity)
    requires Roster(w) && e in w.players
    ensures Roster(RemovePlayer(w, e))
  {
    hide RemovePlayer, Drop, TeamOf, Slot;
    DepartureFrame(w, e);
    DropMembers(w.players, e);
    assert forall p :: p in Gone(w, e).sessions.Keys <==> p in w.players && p != e;
  }

  lemma DropsThird()
    ensures Drop(SQUADS, P3) == [P1, E4, E5]
  {
    assert SQUADS[..3] == [P1, P3, E4] && [P1, P3, E4][..2] == [P1, P3] && [P1, P3][..1] == [P1] && [P1][..0] == [];
    assert Drop([P1], P3) == [P1];
    assert Drop([P1, P3], P3) == [P1];
    assert Drop([P1, P3, E4], P3) == [P1, E4];
  }

  lemma SquadFocus(w: World)
    requires w.players == SQUADS && w.bot == 0 && LifeOf(w, E5) == Alive
    ensures SpectateFor(w, E4) == E5
  {
    hide TeamOf;
    Teams();
    SquadTeams();
    assert FirstAliveFrom(w, 3, 2, E4) == E5;
    assert FirstAliveFrom(w, 2, 2, E4) == E5;
    assert FirstAliveFrom(w, 1, 2, E4) == E5;
  }

  /** One of team 2 has died and watches the other, one of team 1 is down and being rescued. */
  function Opening(maxHP: nat): seq<Event> {
    [] + [Damage(E4, 0, maxHP, 0, [])] + [Damage(E4, 0, KNOCKDOWN_HP, 0, [])] + [Damage(P1, 0, maxHP, 0, [])]
    + [RescueStart(P3, P1, 0)]
  }

  lemma Opened(maxHP: nat)
    requires maxHP > 0
    ensures var w := Initial(SQUADS, 5, 0, maxHP);
            && Feasible(w, Opening(maxHP)) && E4 in Run(w, Opening(maxHP)).sessions
            && Run(w, Opening(maxHP)).sessions[E4].observing == E5
            && Run(w, Opening(maxHP)).rescues == map[P1 := Rescue(P3, REVIVE_DURATION)]
            && Scene(Run(w, Opening(maxHP)), maxHP, SQUADS, map[E4 := Dead, P1 := Knocked])
  {
    hide Step, Feasible, Starts, Initial, Run, TeamOf, Roster, SpectateFor, Scene;
    var w := Initial(SQUADS, 5, 0, maxHP);
    SceneStarts(maxHP);
    Teams();
    SquadTeams();
    var e1, e2 := Damage(E4, 0, maxHP, 0, []), Damage(E4, 0, KNOCKDOWN_HP, 0, []);
    var e3, e4 := Damage(P1, 0, maxHP, 0, []), RescueStart(P3, P1, 0);
    NoEvents(w);
    Extend(w, [], e1);
    SceneKnock(w, maxHP, SQUADS, map[], E4, E5);
    Extend(w, [] + [e1], e2);
    var w1 := Step(w, e1);
    SceneFinish(w1, maxHP, SQUADS, map[][E4 := Knocked], E4);
    Extend(w, [] + [e1] + [e2], e3);
    var w2 := Step(w1, e2);
    SquadFocus(w2) by { SceneRoster(w2, maxHP, SQUADS, map[][E4 := Knocked][E4 := Dead]); }
    NoZeroFocus();
    SceneKnock(w2, maxHP, SQUADS, map[][E4 := Knocked][E4 := Dead], P1, P3);
    Extend(w, [] + [e1] + [e2] + [e3], e4);
    SceneRescue(Step(w2, e3), maxHP, map[][E4 := Knocked][E4 := Dead][P1 := Knocked]);
    assert map[][E4 := Knocked][E4 := Dead][P1 := Knocked] == map[E4 := Dead, P1 := Knocked];
  }

  lemma NoZeroFocus()
    ensures E5 != 0 && E4 != P1
  {}

  lemma SceneRoster(w: World, maxHP: nat, players: seq<Entity>, down: map<Entity, Life>)
    requires Scene(w, maxHP, players, down)
    ensures w.players == players && w.bot == 0 && forall p :: p in players && p !in down ==> LifeOf(w, p) == Alive
  {}

  lemma SceneRescue(w: World, maxHP: nat, down: map<Entity, Life>)
    requires Scene(w, maxHP, SQUADS, down) && P1 in down && down[P1] == Knocked && P3 !in down && w.rescues == map[]
    ensures var w' := Step(w, RescueStart(P3, P1, 0));
            && Scene(w', maxHP, SQUADS, down) && w'.sessions == w.sessions
            && w'.rescues == map[P1 := Rescue(P3, REVIVE_DURATION)]
  {
    hide TeamOf, Roster;
    Teams();
    SameRoster(w, Step(w, RescueStart(P3, P1, 0)));
  }

  /** A reviver leaves, both teams fall, and the rescue is completed under the eyes of a dead player who
      watches another dead one. */
  lemma RescueBreaks(maxHP: nat) returns (w: World, run: seq<Event>)
    requires SafeMaxHP(maxHP)
    ensures Starts(w, maxHP) && w.bot == 0 && Feasible(w, run) && |run| > 0
    ensures Watched(Run(w, run[..|run| - 1])) && !Watched(Run(w, run))
  {
    hide Step, Feasible, Starts, Initial, Run, TeamOf, Roster, Watched, Orderly, OrderlyRun, MayStandUp, Invariant, Scene,
         Opening;
    w := Initial(SQUADS, 5, 0, maxHP);
    SceneStarts(maxHP);
    Opened(maxHP);
    var down := map[E4 := Dead, P1 := Knocked];
    var e5, e6, e7 := Departure(P3), Damage(E5, 0, maxHP, 0, [E5]), RescueTick(REVIVE_DURATION, [P1]);
    var w4 := Run(w, Opening(maxHP));
    Extend(w, Opening(maxHP), e5);
    SceneLeave(w4, maxHP, down);
    Extend(w, Opening(maxHP) + [e5], e6);
    var w5 := Step(w4, e5);
    SceneWipe(w5, maxHP, [P1, E4, E5], down, E5, E4) by { SquadTeams(); }
    var init := Opening(maxHP) + [e5] + [e6];
    Extend(w, init, e7);
    run := init + [e7];
    PlainRunIsOrderly(w, init) by { OpeningIsPlain(maxHP, e5, e6); }
    StartRosterBot(w, maxHP);
    SpectatorsWatchTheLiving(w, maxHP, init);
    WipedFacts(Step(w5, e6), maxHP, down[E5 := Dead]);
    RescueFails(Step(w5, e6));
  }

  lemma StartRosterBot(w: World, maxHP: nat)
    requires w == Initial(SQUADS, 5, 0, maxHP)
    ensures w.bot == 0
  {}

  lemma OpeningIsPlain(maxHP: nat, a: Event, b: Event)
    requires a.Departure? && b.Damage?
    ensures var run := Opening(maxHP) + [a] + [b];
            forall i :: 0 <= i < |run| ==> !run[i].Arrival? && !run[i].BotSpawn? && !run[i].RescueTick?
  {}

  lemma WipedFacts(w: World, maxHP: nat, down: map<Entity, Life>)
    requires Scene(w, maxHP, [P1, E4, E5], down) && down == map[E4 := Dead, P1 := Knocked, E5 := Dead]
    requires E4 in w.sessions && w.sessions[E4].observing == E5
    ensures !MayStandUp(w) && LifeOf(w, P1) == Knocked
  {
    hide Roster;
    NobodyMayStand(w, E4, E5);
  }

  lemma RescueFails(w: World)
    requires Invariant(w) && Watched(w) && !MayStandUp(w)
    requires LifeOf(w, P1) == Knocked && P1 in w.rescues && w.rescues[P1] == Rescue(P3, REVIVE_DURATION)
    requires LifeOf(w, P3) == Alive
    ensures !Watched(Step(w, RescueTick(REVIVE_DURATION, [P1])))
  {
    hide Invariant, Watched, MayStandUp, StepRescue;
    assert P1 in [P1] && Completes(w, P1, REVIVE_DURATION);
    RescueTickWatched(w, REVIVE_DURATION, [P1]);
  }

  // ---------------------------------------------------------------- the winner

  lemma DuelUp(w: World)
    requires w.players == [P1, E3] && w.bot == 0
    ensures (SomeoneAlive(w, 1) <==> LifeOf(w, P1) == Alive) && (SomeoneAlive(w, 2) <==> LifeOf(w, E3) == Alive)
  {
    hide TeamOf;
    Teams();
    assert Participates(w, P1) && Participates(w, E3);
  }

  /** Both fall between two ticks, team 2 first: it wins. */
  lemma FirstToFallWins(maxHP: nat, now: int) returns (w: World, run: seq<Event>)
    requires SafeMaxHP(maxHP)
    ensures Starts(w, maxHP) && Feasible(w, run) && BothDown(Run(w, run))
    ensures FirstToFall(w, run) == 2 && Phases.Winner(Seen(Run(w, run), now)) == 2
  {
    hide Step, Starts, Initial, Run, TeamOf, Roster, SomeoneAlive, SpectateFor, TeamAlive, Feasible;
    w := Initial([P1, E3], 3, 0, maxHP);
    DuelStarts(maxHP);
    StartFacts([P1, E3], 3, 0, maxHP);
    var e1, e2 := Damage(E3, 0, maxHP, 0, []), Damage(P1, 0, maxHP, 0, []);
    NoEvents(w);
    Extend(w, [], e1);
    var w1 := Step(w, e1);
    DuelFall(w, maxHP, E3);
    Extend(w, [] + [e1], e2);
    DuelFall(w1, maxHP, P1);
    var w2 := Step(w1, e2);
    run := [] + [e1] + [e2];
    DuelUp(w);
    DuelUp(w1);
    DuelUp(w2);
    assert DownSince(w, [] + [e1], 2) == 1;
    assert DownSince(w, run, 2) == 1 && DownSince(w, run, 1) == 2;
    AliveCounts(w2, 1) by { FallenRoster(w, w1, w2); }
  }

  lemma FallenRoster(w: World, w1: World, w2: World)
    requires Roster(w) && Fallen(w, w1, E3, SpectateFor(w1, E3)) && Fallen(w1, w2, P1, SpectateFor(w2, P1))
    ensures Roster(w2)
  {}
}
