/** What one hit does, to the last HP; whom the dead watch; what a revival restores; and where arrivals sit. */
module MatchHits {
  import opened Vitals
  import opened MatchState
  import opened MatchVitals
  import opened MatchRounds
  import opened MatchTeams
  import opened MatchStanding
  import opened MatchSpectators
  import opened MatchBreaks

  /** Somebody else of the team is up. */
  ghost predicate MateUp(w: World, e: Entity) {
    exists m :: Participates(w, m) && m != e && TeamOf(m) == TeamOf(e) && LifeOf(w, m) == Alive
  }

  // ---------------------------------------------------------------- hits

  /** A hit that leaves some HP takes its damage from them, and one on the ground from the bleed pool, in a
      round that is not over; a hit on the dead, or after the round, does nothing. */
  lemma SurvivedHit(w: World, ev: Event)
    requires ev.Damage? && Invariant(w) && Participates(w, ev.victim)
    ensures var v := ev.victim;
            && (w.roundOver || LifeOf(w, v) == Dead ==> Step(w, ev) == w)
            && (!w.roundOver && LifeOf(w, v) == Alive && ev.dmg < w.hp[v] ==>
                  Step(w, ev) == w.(hp := w.hp[v := w.hp[v] - ev.dmg]))
            && (!w.roundOver && LifeOf(w, v) == Knocked && ev.dmg < w.hp[v] ==>
                  Step(w, ev) == w.(hp := w.hp[v := w.hp[v] - ev.dmg],
                                    knock := w.knock[v := w.knock[v].(hp := w.hp[v] - ev.dmg)]))
  {
    hide DownOrKill, FinalizeKnock, Roster, Tracked, Bounded;
    assert Sound(w, ev.victim);
  }

  /** A hit that takes the last HP of somebody whose team has another one up puts it on the ground with 200 HP
      to lose, the next of them after a second and a half, and the attacker on record. */
  lemma KnockdownHit(w: World, ev: Event)
    requires ev.Damage? && Invariant(w) && Participates(w, ev.victim) && !w.roundOver
    requires LifeOf(w, ev.victim) == Alive && w.hp[ev.victim] <= ev.dmg && MateUp(w, ev.victim)
    ensures var v := ev.victim;
            Step(w, ev) == w.(life := w.life[v := Knocked], hp := w.hp[v := 200],
                              knock := w.knock[v := Knock(200, ev.now + 1_500_000_000, ev.attacker)])
  {
    hide DownOrKill, Roster, Tracked, Bounded, MateUp;
    var v := ev.victim;
    assert Sound(w, v);
    var w1 := w.(hp := w.hp[v := 0]);
    RosterKept(w, w1);
    SameMates(w, w1, v);
    MateKeepsAlive(w1, v, ev.attacker, ev.now, ev.order);
    assert w1.hp[v := 200] == w.hp[v := 200];
  }

  lemma SameMates(w: World, w1: World, v: Entity)
    requires MateUp(w, v) && w1.players == w.players && w1.bot == w.bot && w1.life == w.life
    ensures MateUp(w1, v)
  {
    hide TeamOf;
    var m :| Participates(w, m) && m != v && TeamOf(m) == TeamOf(v) && LifeOf(w, m) == Alive;
    assert Participates(w1, m) && LifeOf(w1, m) == Alive;
  }

  lemma MateKeepsAlive(w: World, v: Entity, attacker: Entity, now: int, order: seq<Entity>)
    requires Roster(w) && Participates(w, v) && MateUp(w, v)
    ensures DownOrKill(w, v, attacker, now, order)
         == w.(life := w.life[v := Knocked], hp := w.hp[v := 200],
               knock := w.knock[v := Knock(200, now + 1_500_000_000, attacker)])
  {
    hide KillEntity, SweepTeam, TeamSize, TeamAlive, TeamOf, Roster;
    var team, w1 := TeamOf(v), KnockPlayer(w, v, attacker, now);
    var m :| Participates(w, m) && m != v && TeamOf(m) == TeamOf(v) && LifeOf(w, m) == Alive;
    if TeamSize(w, team) <= 1 {
      AloneInTeam(w, v);
    }
    RosterKept(w, w1);
    AliveCounts(w1, team);
    assert Participates(w1, m) && LifeOf(w1, m) == Alive;
  }

  /** One that takes the last HP of the last of a team kills it and whoever of the team was on the ground, and
      nobody else. */
  lemma WipingHit(w: World, ev: Event)
    requires ev.Damage? && Invariant(w) && Participates(w, ev.victim) && !w.roundOver
    requires LifeOf(w, ev.victim) == Alive && w.hp[ev.victim] <= ev.dmg && !MateUp(w, ev.victim)
    requires forall e :: e in w.knock || e == ev.victim ==> e in ev.order
    ensures forall e :: Participates(w, e) ==>
              LifeOf(Step(w, ev), e)
              == if e == ev.victim || (TeamOf(e) == TeamOf(ev.victim) && LifeOf(w, e) == Knocked) then Dead
                 else LifeOf(w, e)
  {
    hide DownOrKill, Roster, Tracked, Bounded, AllSound;
    var v := ev.victim;
    SoundNow(w, v);
    var w1 := w.(hp := w.hp[v := 0]);
    RosterKept(w, w1);
    GroundVisited(w, w1, v, ev.order);
    forall m | Participates(w1, m) && m != v && TeamOf(m) == TeamOf(v) ensures LifeOf(w1, m) != Alive {
      assert Participates(w, m);
    }
    NobodyLeftUp(w1, v, ev.attacker, ev.now, ev.order);
  }

  lemma SoundNow(w: World, e: Entity)
    requires AllSound(w) && Participates(w, e)
    ensures Sound(w, e)
  {}

  lemma NobodyLeftUp(w: World, v: Entity, attacker: Entity, now: int, order: seq<Entity>)
    requires Roster(w) && Participates(w, v) && !MateUp(w, v) && Visits(w, v, order)
    ensures var w' := DownOrKill(w, v, attacker, now, order);
            forall e :: Participates(w, e) ==>
              LifeOf(w', e)
              == if e == v || (TeamOf(e) == TeamOf(v) && LifeOf(w, e) == Knocked) then Dead else LifeOf(w, e)
  {
    hide KillEntity, KnockPlayer, SweepTeam, TeamSize, TeamAlive, TeamOf, Roster, CreditDeath;
    var team := TeamOf(v);
    if TeamSize(w, team) <= 1 {
      AloneInTeam(w, v);
      KillIsDeath(w, v, attacker);
    } else {
      var w1 := KnockPlayer(w, v, attacker, now);
      Downed(w, v, attacker, now);
      AliveCounts(w1, team);
      SweepLife(w1, team, order);
      forall e | Participates(w, e) && TeamOf(e) == team && (e == v || LifeOf(w, e) == Knocked)
        ensures e in order && e in w1.knock
      {
        assert e in w1.knock.Keys;
      }
    }
  }

  // ---------------------------------------------------------------- whom the dead watch

  /** May be watched by somebody of the given team's choice. */
  ghost predicate Watchable(w: World, e: Entity, team: nat, except: Entity) {
    e != except && TeamOf(e) == team && LifeOf(w, e) == Alive
  }

  /** The first of the roster that is up, and the bot after all of them. */
  lemma {:induction false} FirstOfRoster(w: World, i: nat, team: nat, except: Entity)
    requires i <= |w.players|
    ensures var r := FirstAliveFrom(w, i, team, except);
            || (exists k :: i <= k < |w.players| && r == w.players[k] && Watchable(w, r, team, except)
                            && forall j :: i <= j < k ==> !Watchable(w, w.players[j], team, except))
            || ((forall j :: i <= j < |w.players| ==> !Watchable(w, w.players[j], team, except))
                && r == if team == 2 && w.bot != 0 && w.bot != except && LifeOf(w, w.bot) == Alive then w.bot else 0)
    decreases |w.players| - i
  {
    hide TeamOf;
    if i < |w.players| {
      FirstOfRoster(w, i + 1, team, except);
      var p := w.players[i];
      if !Watchable(w, p, team, except) {
        var r := FirstAliveFrom(w, i + 1, team, except);
        assert FirstAliveFrom(w, i, team, except) == r;
        if k :| i + 1 <= k < |w.players| && r == w.players[k] && Watchable(w, r, team, except)
                && forall j :: i + 1 <= j < k ==> !Watchable(w, w.players[j], team, except)
        {
          assert forall j :: i <= j < k ==> !Watchable(w, w.players[j], team, except);
        }
      } else {
        assert w.players[i] == p && FirstAliveFrom(w, i, team, except) == p;
      }
    }
  }

  /** A teammate is watched rather than an enemy. */
  lemma MatesFirst(w: World, e: Entity)
    requires Roster(w)
    ensures MateUp(w, e) ==> TeamOf(SpectateFor(w, e)) == TeamOf(e) && SpectateFor(w, e) != e
    ensures SpectateFor(w, e) != 0 && !MateUp(w, e) ==> TeamOf(SpectateFor(w, e)) == OtherTeam(TeamOf(e))
  {
    hide TeamOf, Roster, FirstAlive;
    FirstFits(w, TeamOf(e), e);
    FirstFits(w, OtherTeam(TeamOf(e)), e);
    if m :| Participates(w, m) && m != e && TeamOf(m) == TeamOf(e) && LifeOf(w, m) == Alive {
      assert Watchable(w, m, TeamOf(e), e);
    }
  }

  lemma FirstFits(w: World, team: nat, except: Entity)
    requires Roster(w)
    ensures var r := FirstAlive(w, team, except);
            if r != 0 then Participates(w, r) && Watchable(w, r, team, except)
            else forall e :: Participates(w, e) ==> !Watchable(w, e, team, except)
  {
    hide TeamOf, Slot, FirstAliveFrom;
    BotTeam();
    FirstOfRoster(w, 0, team, except);
    RosterIsNonzero(w);
    if FirstAlive(w, team, except) == 0 {
      forall e | Participates(w, e) ensures !Watchable(w, e, team, except) {
        if e in w.players {
          var j :| 0 <= j < |w.players| && w.players[j] == e;
        }
      }
    }
  }

  lemma RosterIsNonzero(w: World)
    requires Roster(w)
    ensures forall p :: p in w.players ==> p != 0
  {}

  // ---------------------------------------------------------------- revivals and arrivals

  /** A revival leaves everyone alive with the full HP, nobody watching, no record, and the round open; the
      scoreboard stays. */
  lemma RevivalRestores(w: World)
    ensures var w' := Step(w, Revival);
            && (forall e :: Participates(w, e) ==> LifeOf(w', e) == Alive && e in w'.hp && w'.hp[e] == w.maxHP)
            && (forall p :: p in w.sessions ==> p in w'.sessions && w'.sessions[p] == w.sessions[p].(observing := 0))
            && w'.knock == map[] && w'.rescues == map[] && !w'.roundOver
            && w'.players == w.players && w'.bot == w.bot && w'.log == w.log
            && w'.kills == w.kills && w'.deaths == w.deaths && w'.lastTeamFell == w.lastTeamFell
  {
    forall e | Participates(w, e) ensures e in Everyone(w.players, w.bot) {}
  }

  /** Nobody is more than one ahead. */
  ghost predicate Balanced(w: World) {
    -1 <= CountTeam(w.players, 1) - CountTeam(w.players, 2) <= 1
  }

  /** An arrival that names no team joins the smaller one, and the first on a tie; one that does is given it. */
  lemma ArrivalSits(w: World, prefer: nat)
    requires Roster(w) && CanAdmit(w)
    ensures var w' := Step(w, Arrival(prefer));
            && |w'.players| == |w.players| + 1 && w'.players[..|w.players|] == w.players
            && w'.players[|w.players|] !in w.players
            && TeamOf(w'.players[|w.players|])
               == (if prefer == 1 then 1 else if prefer == 2 then 2
                   else if CountTeam(w.players, 1) > CountTeam(w.players, 2) then 2 else 1)
            && (prefer != 1 && prefer != 2 && Balanced(w) ==> Balanced(w'))
  {
    hide TeamOf, Slot, AllocEntity, Roster;
    AllocIsFresh(w, prefer);
    AllocSide(w, prefer);
    var w' := Step(w, Arrival(prefer));
    var e := AllocEntity(w, prefer);
    assert w'.players == w.players + [e];
    assert w'.players[..|w.players|] == w.players;
  }

  lemma AllocSide(w: World, prefer: nat)
    ensures TeamOf(AllocEntity(w, prefer)) == AllocTeam(w, prefer)
  {}

  /** A retired bot leaves its knock record and nothing else; the newcomer has the full HP and stands, and
      everyone else keeps what they had. */
  lemma NewcomerAndBot(w: World, prefer: nat)
    requires Roster(w) && CanAdmit(w)
    ensures var e, w' := AllocEntity(w, prefer), Step(w, Arrival(prefer));
            && w'.bot == 0 && (w.bot != 0 ==> BOT !in w'.hp && BOT !in w'.life && BOT !in w'.kills && BOT !in w'.deaths)
            && e in w'.hp && w'.hp[e] == w.maxHP && LifeOf(w', e) == Alive
            && (forall x :: x != e && x != w.bot ==>
                  && (x in w'.hp <==> x in w.hp) && (x in w.hp ==> w'.hp[x] == w.hp[x]) && LifeOf(w', x) == LifeOf(w, x)
                  && Count(w'.kills, x) == Count(w.kills, x) && Count(w'.deaths, x) == Count(w.deaths, x))
            && w'.knock == w.knock && w'.rescues == w.rescues && w'.log == w.log && w'.roundOver == w.roundOver
  {
    hide TeamOf, Slot, AllocEntity, RetireBot, Roster;
    AllocIsFresh(w, prefer);
    var e := AllocEntity(w, prefer);
    var w1 := w.(players := w.players + [e], sessions := w.sessions[e := Session(0, NO_HEAL, NO_ENERGY)],
                 nextSlot := (w.nextSlot + 1) % 256, hp := w.hp[e := w.maxHP], life := w.life[e := Alive]);
    BotRetires(w1);
    BotIs(w);
    NoZeroId(w, prefer);
  }

  lemma NoZeroId(w: World, prefer: nat)
    ensures AllocEntity(w, prefer) != 0
  {}

  lemma BotIs(w: World)
    requires Roster(w)
    ensures w.bot == 0 || w.bot == BOT
  {}

  lemma BotRetires(w: World)
    ensures var w' := RetireBot(w);
            && w'.bot == 0 && (w.bot != 0 ==> w.bot !in w'.hp && w.bot !in w'.life && w.bot !in w'.kills && w.bot !in w'.deaths)
            && (forall x :: x != w.bot ==>
                  && (x in w'.hp <==> x in w.hp) && (x in w.hp ==> w'.hp[x] == w.hp[x]) && LifeOf(w', x) == LifeOf(w, x)
                  && Count(w'.kills, x) == Count(w.kills, x) && Count(w'.deaths, x) == Count(w.deaths, x))
            && w'.knock == w.knock && w'.rescues == w.rescues && w'.log == w.log && w'.roundOver == w.roundOver
  {}

  /** After the end of a round, which changes nothing else, no hit does anything. */
  lemma NoHitAfterTheRound(w: World, ev: Event)
    requires ev.Damage?
    ensures var w' := Step(w, RoundEnd);
            Step(w', ev) == w' && w'.roundOver && w'.(roundOver := w.roundOver) == w
  {}

  /** A new round starts without energy, and with all the mushrooms to buy again. */
  lemma EnergyStartsAnew(w: World, p: Entity)
    requires p in w.sessions
    ensures var w' := Step(w, EnergyReset(p));
            && w'.sessions.Keys == w.sessions.Keys && w'.(sessions := w.sessions) == w
            && w'.sessions[p].energy.ep == 0 && w'.sessions[p].energy.mushrooms == 0
            && w'.sessions[p].heal == w.sessions[p].heal && w'.sessions[p].observing == w.sessions[p].observing
            && forall q :: q in w.sessions && q != p ==> w'.sessions[q] == w.sessions[q]
  {}

  // ---------------------------------------------------------------- where a death turns the eyes

  /** The death of a player turns its own eyes and those that watched it to its new focus, and the death of the
      bot nobody's. */
  lemma DeathTurnsEyes(w: World, e: Entity, killer: Entity)
    requires Roster(w)
    ensures var w' := KillEntity(w, e, killer);
            && w'.sessions.Keys == w.sessions.Keys
            && (e !in w.players ==> w'.sessions == w.sessions)
            && (e in w.players ==>
                  var focus := SpectateFor(w', e);
                  forall p :: p in w.sessions ==>
                    w'.sessions[p].observing
                    == if focus != 0 && (p == e || w.sessions[p].observing == e) then focus else w.sessions[p].observing)
  {
    hide EmitDeath, CreditDeath, SpectateFor, Slot, TeamOf;
    CreditFrame(w, e, killer);
    if e in w.players {
      EyesFollow(w, Bury(w, e, killer), e);
    } else {
      NobodysEyes(Bury(w, e, killer), e);
    }
  }

  lemma NobodysEyes(w: World, e: Entity)
    ensures EmitDeath(w, e, 0) == w
  {}

  lemma EyesFollow(w: World, w1: World, e: Entity)
    requires Roster(w1) && e in w1.players && LifeOf(w1, e) == Dead && w1.sessions == w.sessions
    ensures var w2 := EmitDeath(w1, e, SpectateFor(w1, e));
            && w2.sessions.Keys == w.sessions.Keys && SpectateFor(w2, e) == SpectateFor(w1, e)
            && forall p :: p in w.sessions ==>
                 w2.sessions[p].observing
                 == if SpectateFor(w1, e) != 0 && (p == e || w.sessions[p].observing == e) then SpectateFor(w1, e)
                    else w.sessions[p].observing
  {
    hide SpectateFor, Slot, TeamOf;
    var o := SpectateFor(w1, e);
    EmitDeathOnlyObserving(w1, e, o);
    SameFocus(w1, EmitDeath(w1, e, o), e);
    if o != 0 {
      TargetTakesPart(w1, e);
      WatchersFollow(w1, e, o);
    }
  }

  /** A death by bleeding or by a sweep does the same. */
  lemma KnockDeathTurnsEyes(w: World, e: Entity)
    requires Roster(w) && e in w.knock
    ensures var w' := FinalizeKnock(w, e);
            && w'.sessions.Keys == w.sessions.Keys
            && (e !in w.players ==> w'.sessions == w.sessions)
            && (e in w.players ==>
                  var focus := SpectateFor(w', e);
                  forall p :: p in w.sessions ==>
                    w'.sessions[p].observing
                    == if focus != 0 && (p == e || w.sessions[p].observing == e) then focus else w.sessions[p].observing)
  {
    hide EmitDeath, CreditDeath, SpectateFor, Slot, TeamOf;
    CreditFrame(w, e, w.knock[e].killer);
    var w1 := Bury(w, e, w.knock[e].killer);
    var w2 := w1.(knock := w1.knock - {e}, rescues := w1.rescues - {e});
    if e in w.players {
      EyesFollow(w, w2, e);
    } else {
      NobodysEyes(w2, e);
    }
  }
}
