/** The match as the server keeps it: fields updated in place by the handlers and ticks of
    match-server/deathmatch.go, knockdown.go, match.go, medkit.go and ep.go. Every method is proved equal
    to the step of MatchState that it implements, and keeps the invariant of MatchVitals. */
module MatchObject {
  import opened Vitals
  import opened MatchState
  import opened MatchVitals
  import opened MatchTeams

  // ---------------------------------------------------------------- reading does not depend on sessions

  /** Two worlds with the same roster and the same lives. */
  ghost predicate SameLives(w: World, w': World) {
    w'.players == w.players && w'.bot == w.bot && w'.life == w.life
  }

  lemma {:induction false} FirstAliveDepends(w: World, w': World, i: nat, team: nat, except: Entity)
    requires SameLives(w, w') && i <= |w.players|
    ensures FirstAliveFrom(w', i, team, except) == FirstAliveFrom(w, i, team, except)
    decreases |w.players| - i
  {
    hide TeamOf;
    if i < |w.players| {
      FirstAliveDepends(w, w', i + 1, team, except);
    }
  }

  lemma NextTargetDepends(w: World, w': World, spectator: Entity, prefer: Entity)
    requires SameLives(w, w')
    ensures NextTarget(w', spectator, prefer) == NextTarget(w, spectator, prefer)
  {
    hide TeamOf, FirstAliveFrom;
    FirstAliveDepends(w, w', 0, TeamOf(spectator), spectator);
    FirstAliveDepends(w, w', 0, OtherTeam(TeamOf(spectator)), spectator);
  }

  /** The sessions while the spectators of `out` have been moved. */
  ghost function Moved(w: World, out: seq<Entity>, prefer: Entity): map<Entity, Session> {
    map p | p in w.sessions ::
      if p in out then w.sessions[p].(observing := NextTarget(w, p, prefer)) else w.sessions[p]
  }

  lemma MovedOne(w: World, out: seq<Entity>, i: nat, prefer: Entity)
    requires i < |out| && out[i] in w.sessions
    ensures var p, before := out[i], Moved(w, out[..i], prefer);
            Moved(w, out[..i + 1], prefer) == before[p := before[p].(observing := NextTarget(w, p, prefer))]
  {
    hide NextTarget;
    assert out[..i + 1] == out[..i] + [out[i]];
  }

  lemma MovedKeys(w: World, out: seq<Entity>, prefer: Entity)
    ensures Moved(w, out, prefer).Keys == w.sessions.Keys
  {}

  lemma MovedAll(w: World, out: seq<Entity>, gone: Entity, prefer: Entity)
    requires forall p :: p in out <==> p in w.sessions && w.sessions[p].observing == gone
    ensures w.(sessions := Moved(w, out, prefer)) == Repoint(w, gone, prefer)
  {
    hide NextTarget;
  }

  lemma Enumerate(s: set<Entity>) returns (order: seq<Entity>)
    ensures forall e :: e in order <==> e in s
  {
    order := [];
    var todo := s;
    while todo != {}
      invariant forall e :: e in s <==> e in order || e in todo
    {
      var e :| e in todo;
      todo := todo - {e};
      order := order + [e];
    }
  }

  // ---------------------------------------------------------------- one tick for every player

  function HealEach(w: World, players: seq<Entity>, now: int): World {
    if |players| == 0 then w else StepHeal(HealEach(w, players[..|players| - 1], now), players[|players| - 1], now)
  }

  function EnergyEach(w: World, players: seq<Entity>, now: int): World {
    if |players| == 0 then w else StepEP(EnergyEach(w, players[..|players| - 1], now), players[|players| - 1], now)
  }

  lemma {:induction false} EachMaxHP(w: World, players: seq<Entity>, now: int)
    ensures HealEach(w, players, now).maxHP == w.maxHP && EnergyEach(w, players, now).maxHP == w.maxHP
  {
    hide StepHeal, StepEP;
    if |players| > 0 {
      var init, p := players[..|players| - 1], players[|players| - 1];
      EachMaxHP(w, init, now);
      HealFrame(HealEach(w, init, now), p, now);
      EnergyFrame(EnergyEach(w, init, now), p, now);
    }
  }

  lemma {:induction false} EachKeeps(w: World, players: seq<Entity>, now: int)
    requires Invariant(w) && SafeMaxHP(w.maxHP)
    ensures Invariant(HealEach(w, players, now)) && HealEach(w, players, now).maxHP == w.maxHP
    ensures Invariant(EnergyEach(w, players, now)) && EnergyEach(w, players, now).maxHP == w.maxHP
  {
    hide Invariant, StepHeal, StepEP;
    if |players| > 0 {
      var init, p := players[..|players| - 1], players[|players| - 1];
      EachKeeps(w, init, now);
      HealingKeeps(HealEach(w, init, now), p, now);
      HealingKeeps(EnergyEach(w, init, now), p, now);
      EachMaxHP(w, players, now);
      EachMaxHP(w, init, now);
    }
  }

  // ---------------------------------------------------------------- the players

  /** The part of a session that the death and healing rules write. */
  class Player {
    const entity: Entity
    var observing: Entity
    var healActive: bool
    var healStart: int
    var healApplied: nat
    var ep: nat
    var epLast: int
    var mushrooms: nat

    ghost function Snapshot(): Session
      reads this
    {
      Session(observing, Heal(healActive, healStart, healApplied), Energy(ep, epLast, mushrooms))
    }

    constructor (e: Entity)
      ensures entity == e && Snapshot() == Session(0, NO_HEAL, NO_ENERGY)
    {
      entity := e;
      observing := 0;
      healActive := false;
      healStart := 0;
      healApplied := 0;
      ep := 0;
      epLast := 0;
      mushrooms := 0;
    }

    method GrantMushroom(now: int)
      modifies this
      ensures Snapshot() == old(Snapshot()).(energy := Mushroom(old(Snapshot()).energy, now))
    {
      mushrooms := mushrooms + 1;
      ep := ep + EP_PER_MUSHROOM;
      if ep > MAX_EP {
        ep := MAX_EP;
      }
      epLast := now;
    }

    method ResetEP()
      modifies this
      ensures Snapshot() == old(Snapshot()).(energy := old(Snapshot()).energy.(ep := 0, mushrooms := 0))
    {
      ep := 0;
      mushrooms := 0;
    }

    method SetEnergy(e: Energy)
      modifies this
      ensures Snapshot() == old(Snapshot()).(energy := e)
    {
      ep := e.ep;
      epLast := e.last;
      mushrooms := e.mushrooms;
    }

    /** The medkit branch of handleUseInventory. */
    method ArmHeal(now: int)
      modifies this
      ensures Snapshot() == old(Snapshot()).(heal := Heal(true, now, 0))
    {
      healActive := true;
      healStart := now;
      healApplied := 0;
    }
  }

  /** Every player has an entity of its own. */
  ghost predicate OwnEntities(players: seq<Player>) {
    forall i, j :: 0 <= i < j < |players| ==> players[i].entity != players[j].entity
  }

  ghost function Ids(players: seq<Player>): (ids: seq<Entity>)
    ensures |ids| == |players|
  {
    seq(|players|, i requires 0 <= i < |players| => players[i].entity)
  }

  ghost function Sessions(players: seq<Player>): map<Entity, Session>
    reads players
  {
    if |players| == 0 then map[]
    else
      var p := players[|players| - 1];
      Sessions(players[..|players| - 1])[p.entity := p.Snapshot()]
  }

  lemma {:induction false} SessionsAre(players: seq<Player>)
    requires OwnEntities(players)
    ensures forall e :: e in Sessions(players) <==> e in Ids(players)
    ensures forall i :: 0 <= i < |players| ==>
              players[i].entity in Sessions(players) && Sessions(players)[players[i].entity] == players[i].Snapshot()
    ensures forall p :: p in players ==> p.entity in Sessions(players) && Sessions(players)[p.entity] == p.Snapshot()
  {
    if |players| > 0 {
      var init, p := players[..|players| - 1], players[|players| - 1];
      SessionsAre(init);
      assert Ids(players) == Ids(init) + [p.entity];
      forall i | 0 <= i < |players|
        ensures players[i].entity in Sessions(players) && Sessions(players)[players[i].entity] == players[i].Snapshot()
      {
        assert i < |init| ==> init[i] == players[i];
      }
    }
  }

  lemma SessionsBy(players: seq<Player>, m: map<Entity, Session>)
    requires OwnEntities(players)
    requires forall e :: e in m <==> e in Ids(players)
    requires forall i :: 0 <= i < |players| ==> players[i].entity in m && m[players[i].entity] == players[i].Snapshot()
    ensures Sessions(players) == m
  {
    SessionsAre(players);
    forall e | e in m ensures Sessions(players)[e] == m[e] {
      var i :| 0 <= i < |players| && Ids(players)[i] == e;
    }
  }

  /** What the sessions were, in a form that survives a change of one player. */
  ghost predicate Reads(players: seq<Player>, m: map<Entity, Session>, p: Player)
    reads players
  {
    && (forall e :: e in m <==> e in Ids(players))
    && (forall q :: q in players && q != p ==> q.entity in m && m[q.entity] == q.Snapshot())
  }

  lemma ReadsNow(players: seq<Player>, p: Player)
    requires OwnEntities(players)
    ensures Reads(players, Sessions(players), p)
    ensures p in players ==> p.entity in Sessions(players) && Sessions(players)[p.entity] == p.Snapshot()
  {
    SessionsAre(players);
  }

  /** One player's fields changed. */
  lemma OneChanged(players: seq<Player>, m: map<Entity, Session>, p: Player)
    requires OwnEntities(players) && p in players && Reads(players, m, p)
    ensures Sessions(players) == m[p.entity := p.Snapshot()]
  {
    var i :| 0 <= i < |players| && players[i] == p;
    assert Ids(players)[i] == p.entity;
    SessionsBy(players, m[p.entity := p.Snapshot()]);
  }

  // ---------------------------------------------------------------- the match

  class Match {
    var players: seq<Player>
    var nextSlot: nat
    var bot: Entity
    const maxHP: nat
    var hp: map<Entity, nat>
    var life: map<Entity, Life>
    var knock: map<Entity, Knock>
    var rescues: map<Entity, Rescue>
    var kills: map<Entity, nat>
    var deaths: map<Entity, nat>
    var lastTeamFell: nat
    var roundOver: bool
    ghost var log: seq<Death>
    ghost var roundStart: nat

    ghost function State(): World
      reads this, players
    {
      World(Ids(players), Sessions(players), nextSlot, bot, maxHP, hp, life, knock, rescues, kills, deaths, lastTeamFell,
            roundOver, log, roundStart)
    }

    ghost predicate Valid()
      reads this, players
    {
      Invariant(State()) && SafeMaxHP(maxHP)
    }

    constructor (roster: seq<Entity>, slot: nat, filler: Entity, fullHP: nat)
      requires Roster(Initial(roster, slot, filler, fullHP)) && SafeMaxHP(fullHP)
      ensures State() == Initial(roster, slot, filler, fullHP) && Valid() && fresh(players)
    {
      players := [];
      nextSlot := slot;
      bot := filler;
      maxHP := fullHP;
      hp := map[];
      life := map[];
      knock := map[];
      rescues := map[];
      kills := map[];
      deaths := map[];
      lastTeamFell := 0;
      roundOver := false;
      log := [];
      roundStart := 0;
      new;
      hide Initial, Roster, Invariant, Sessions;
      Begin(roster);
      InitialInvariant(roster, slot, filler, fullHP);
    }

    method Begin(roster: seq<Entity>)
      requires players == [] && lastTeamFell == 0 && !roundOver && log == [] && roundStart == 0
      modifies this`players, this`hp, this`life, this`knock, this`kills, this`deaths, this`rescues
      ensures State() == Initial(roster, nextSlot, bot, maxHP) && fresh(players)
    {
      hide Filled, Everyone, Blank, Sessions;
      SeatAll(roster);
      InitHP();
    }

    /** A session for each of the roster. */
    method SeatAll(roster: seq<Entity>)
      requires players == []
      modifies this`players
      ensures fresh(players) && Ids(players) == roster
      ensures Sessions(players) == Blank(roster)
    {
      hide Sessions, Blank;
      NoSessions(players);
      var i := 0;
      while i < |roster|
        invariant 0 <= i <= |roster|
        invariant fresh(players) && Ids(players) == roster[..i]
        invariant Sessions(players) == Blank(roster[..i])
      {
        var p := new Player(roster[i]);
        SeatPlayer(p);
        BlankOneMore(roster, i);
        assert roster[..i + 1] == roster[..i] + [roster[i]];
        i := i + 1;
      }
      assert roster[..i] == roster;
    }

    method InitHP()
      modifies this`hp, this`life, this`knock, this`kills, this`deaths, this`rescues
      ensures hp == Filled(map[], Everyone(Ids(players), bot), maxHP)
      ensures life == Filled(map[], Everyone(Ids(players), bot), Alive)
      ensures knock == map[] && kills == map[] && deaths == map[] && rescues == map[]
    {
      hide Filled, Everyone;
      hp := map[];
      life := map[];
      knock := map[];
      kills := map[];
      deaths := map[];
      rescues := map[];
      FillAll();
    }

    /** initHP and reviveAll bring the roster and the bot up. */
    method FillAll()
      modifies this`hp, this`life
      ensures hp == Filled(old(hp), Everyone(Ids(players), bot), maxHP)
      ensures life == Filled(old(life), Everyone(Ids(players), bot), Alive)
    {
      hide Filled, Everyone;
      FillPlayers();
      if bot != 0 {
        FilledOne(old(hp), Everyone(Ids(players), 0), bot, maxHP);
        FilledOne(old(life), Everyone(Ids(players), 0), bot, Alive);
        hp := hp[bot := maxHP];
        life := life[bot := Alive];
      }
      Botless(Ids(players), bot);
    }

    method FillPlayers()
      modifies this`hp, this`life
      ensures hp == Filled(old(hp), Everyone(Ids(players), 0), maxHP)
      ensures life == Filled(old(life), Everyone(Ids(players), 0), Alive)
    {
      hide Filled;
      FilledNone(hp, maxHP);
      FilledNone(life, Alive);
      for i := 0 to |players|
        invariant hp == Filled(old(hp), Everyone(Ids(players)[..i], 0), maxHP)
        invariant life == Filled(old(life), Everyone(Ids(players)[..i], 0), Alive)
      {
        FilledOne(old(hp), Everyone(Ids(players)[..i], 0), players[i].entity, maxHP);
        FilledOne(old(life), Everyone(Ids(players)[..i], 0), players[i].entity, Alive);
        OneMore(Ids(players), i);
        hp := hp[players[i].entity := maxHP];
        life := life[players[i].entity := Alive];
      }
      assert Ids(players)[..|players|] == Ids(players);
    }

    // -------------------------------------------------------------- reading

    method Life(e: Entity) returns (l: Life)
      ensures l == LifeOf(State(), e)
    {
      l := if e in life then life[e] else Alive;
    }

    method HP(e: Entity) returns (h: nat)
      ensures h == HPOf(State(), e)
    {
      h := if e in hp then hp[e] else 0;
    }

    method SessionByEntity(e: Entity) returns (p: Player?)
      ensures p != null ==> p in players && p.entity == e
      ensures p == null <==> e !in Ids(players)
    {
      for i := 0 to |players|
        invariant e !in Ids(players)[..i]
      {
        assert Ids(players)[i] == players[i].entity;
        if players[i].entity == e {
          return players[i];
        }
      }
      assert Ids(players)[..|players|] == Ids(players);
      return null;
    }

    method TeamSize(team: nat) returns (n: nat)
      ensures n == MatchState.TeamSize(State(), team)
    {
      hide TeamOf;
      n := 0;
      ghost var ids := Ids(players);
      for i := 0 to |players|
        invariant n == CountTeam(ids[..i], team)
      {
        assert ids[..i + 1][..i] == ids[..i];
        if TeamOf(players[i].entity) == team {
          n := n + 1;
        }
      }
      assert ids[..|players|] == ids;
      if team == ENEMY_TEAM && bot != 0 {
        n := n + 1;
      }
    }

    method TeamAlive(team: nat) returns (n: nat)
      ensures n == MatchState.TeamAlive(State(), team)
    {
      hide TeamOf;
      n := 0;
      ghost var ids := Ids(players);
      for i := 0 to |players|
        invariant n == CountAlive(State(), ids[..i], team)
      {
        assert ids[..i + 1][..i] == ids[..i];
        var l := Life(players[i].entity);
        if TeamOf(players[i].entity) == team && l == Alive {
          n := n + 1;
        }
      }
      assert ids[..|players|] == ids;
      if team == ENEMY_TEAM && bot != 0 {
        var l := Life(bot);
        if l == Alive {
          n := n + 1;
        }
      }
    }

    method FirstAlive(team: nat, except: Entity) returns (r: Entity)
      ensures r == MatchState.FirstAlive(State(), team, except)
    {
      hide TeamOf;
      for i := 0 to |players|
        invariant FirstAliveFrom(State(), 0, team, except) == FirstAliveFrom(State(), i, team, except)
      {
        var e := players[i].entity;
        assert State().players[i] == e;
        var l := Life(e);
        if e != except && TeamOf(e) == team && l == Alive {
          return e;
        }
      }
      if team == ENEMY_TEAM && bot != 0 && bot != except {
        var l := Life(bot);
        if l == Alive {
          return bot;
        }
      }
      return 0;
    }

    method SpectateFor(victim: Entity) returns (r: Entity)
      ensures r == MatchState.SpectateFor(State(), victim)
    {
      hide TeamOf;
      r := FirstAlive(TeamOf(victim), victim);
      if r == 0 {
        r := FirstAlive(OtherTeam(TeamOf(victim)), victim);
      }
    }

    method SpectatorsOf(e: Entity) returns (out: seq<Player>)
      ensures forall p :: p in out <==> p in players && p.observing == e
    {
      out := [];
      for i := 0 to |players|
        invariant forall p :: p in out <==> p in players[..i] && p.observing == e
      {
        assert players[..i + 1] == players[..i] + [players[i]];
        if players[i].observing == e {
          out := out + [players[i]];
        }
      }
      assert players[..|players|] == players;
    }

    // -------------------------------------------------------------- spectators

    method TargetFor(spectator: Entity, prefer: Entity) returns (target: Entity)
      ensures target == NextTarget(State(), spectator, prefer)
    {
      hide MatchState.SpectateFor;
      target := prefer;
      if target != 0 {
        var l := Life(target);
        if l == Alive {
          return;
        }
      }
      target := SpectateFor(spectator);
    }

    method Watch(p: Player, target: Entity)
      requires OwnEntities(players) && p in players
      modifies p`observing
      ensures p.entity in old(Sessions(players))
      ensures var m := old(Sessions(players)); Sessions(players) == m[p.entity := m[p.entity].(observing := target)]
    {
      hide Sessions;
      ghost var m := Sessions(players);
      ReadsNow(players, p);
      p.observing := target;
      OneChanged(players, m, p);
    }

    /** The loop over the players found beforehand. */
    method MoveSpectators(out: seq<Player>, prefer: Entity)
      requires OwnEntities(players) && forall p :: p in out ==> p in players
      modifies players
      ensures Sessions(players) == Moved(old(State()), Ids(out), prefer)
    {
      hide NextTarget, MatchState.SpectateFor, Sessions, Moved;
      ghost var w, ids := State(), Ids(out);
      MovedNone(w, prefer);
      for i := 0 to |out|
        invariant Sessions(players) == Moved(w, ids[..i], prefer)
      {
        var p := out[i];
        assert p in out && ids[i] == p.entity;
        var target := TargetFor(p.entity, prefer);
        NextTargetDepends(w, State(), p.entity, prefer);
        MovedKeys(w, ids[..i], prefer);
        ReadsNow(players, p);
        MovedOne(w, ids, i, prefer);
        Watch(p, target);
      }
      assert ids[..|out|] == ids;
    }

    method RepointSpectators(gone: Entity, prefer: Entity)
      requires OwnEntities(players)
      modifies players
      ensures State() == Repoint(old(State()), gone, prefer)
    {
      hide NextTarget, MatchState.SpectateFor, Sessions, Moved, Repoint;
      ghost var w := State();
      SessionsAre(players);
      var out := SpectatorsOf(gone);
      WatchersAre(players, out, w.sessions, gone);
      MovedAll(w, Ids(out), gone, prefer);
      MoveSpectators(out, prefer);
    }

    method EmitDeath(victim: Entity, observe: Entity)
      requires OwnEntities(players)
      modifies players
      ensures State() == MatchState.EmitDeath(old(State()), victim, observe)
    {
      hide Repoint, Sessions;
      if observe != 0 {
        SessionsAre(players);
        var spectator := SessionByEntity(victim);
        if spectator != null {
          Watch(spectator, observe);
        }
        RepointSpectators(victim, observe);
      }
    }

    // -------------------------------------------------------------- deaths

    method CreditDeath(victim: Entity, killer: Entity)
      modifies this`kills, this`deaths, this`log
      ensures State() == MatchState.CreditDeath(old(State()), victim, killer)
    {
      hide TeamOf, Wrap16;
      deaths := deaths[victim := Wrap16(Count(deaths, victim) + 1)];
      if killer != 0 && TeamOf(killer) != TeamOf(victim) {
        kills := kills[killer := Wrap16(Count(kills, killer) + 1)];
      }
      log := log + [Death(victim, killer)];
    }

    method FocusOf(victim: Entity) returns (observe: Entity)
      ensures observe == Observed(State(), victim)
    {
      hide MatchState.SpectateFor;
      var session := SessionByEntity(victim);
      observe := 0;
      if session != null {
        observe := SpectateFor(victim);
      }
    }

    method BuryEntity(victim: Entity, killer: Entity)
      modifies this`kills, this`deaths, this`log, this`life, this`hp
      ensures State() == Bury(old(State()), victim, killer)
    {
      hide MatchState.CreditDeath, Sessions;
      CreditFrame(State(), victim, killer);
      CreditDeath(victim, killer);
      life := life[victim := Dead];
      hp := hp[victim := 0];
    }

    method KillEntity(victim: Entity, killer: Entity)
      requires OwnEntities(players)
      modifies this`kills, this`deaths, this`log, this`life, this`hp, this`knock, this`rescues, players
      ensures State() == MatchState.KillEntity(old(State()), victim, killer)
    {
      hide MatchState.EmitDeath, Observed, Bury, Sessions;
      BuryEntity(victim, killer);
      var observe := FocusOf(victim);
      EmitDeath(victim, observe);
    }

    method FinalizeKnock(e: Entity)
      requires OwnEntities(players) && e in knock
      modifies this`kills, this`deaths, this`log, this`life, this`hp, this`knock, this`rescues, players
      ensures State() == MatchState.FinalizeKnock(old(State()), e)
    {
      hide MatchState.EmitDeath, Observed, Bury, Sessions;
      BuryEntity(e, knock[e].killer);
      knock := knock - {e};
      rescues := rescues - {e};
      var observe := FocusOf(e);
      EmitDeath(e, observe);
    }

    method KnockPlayer(victim: Entity, attacker: Entity, now: int)
      modifies this`life, this`knock, this`hp
      ensures State() == MatchState.KnockPlayer(old(State()), victim, attacker, now)
    {
      life := life[victim := Knocked];
      knock := knock[victim := Knock(KNOCKDOWN_HP, now + BLEED_EVERY, attacker)];
      hp := hp[victim := KNOCKDOWN_HP];
    }

    /** The knock records are visited in an unspecified order, each once. */
    method TeamFellToZero(team: nat) returns (ghost order: seq<Entity>)
      requires OwnEntities(players)
      modifies this`kills, this`deaths, this`log, this`life, this`hp, this`knock, this`rescues, this`lastTeamFell,
               players
      ensures State() == MatchState.TeamFellToZero(old(State()), team, order)
      ensures forall e :: e in order <==> e in old(knock)
    {
      hide SweepOne, Sessions, SweepTeam;
      ghost var w := State();
      SweepNone(w, team);
      order := [];
      var todo := knock.Keys;
      while todo != {}
        invariant State() == SweepTeam(w, team, order)
        invariant forall e :: e in w.knock <==> e in order || e in todo
      {
        var e :| e in todo;
        todo := todo - {e};
        SweepOneMore(w, team, order, e);
        SweepMember(e, team);
        order := order + [e];
      }
      lastTeamFell := team;
    }

    method SweepMember(e: Entity, team: nat)
      requires OwnEntities(players)
      modifies this`kills, this`deaths, this`log, this`life, this`hp, this`knock, this`rescues, players
      ensures State() == SweepOne(old(State()), e, team)
    {
      hide TeamOf, MatchState.FinalizeKnock, Sessions;
      var l := Life(e);
      if e in knock && TeamOf(e) == team && l == Knocked {
        FinalizeKnock(e);
      }
    }

    method DownOrKill(victim: Entity, attacker: Entity, now: int) returns (ghost order: seq<Entity>)
      requires OwnEntities(players)
      modifies this`kills, this`deaths, this`log, this`life, this`hp, this`knock, this`rescues, this`lastTeamFell,
               players
      ensures State() == MatchState.DownOrKill(old(State()), victim, attacker, now, order)
      ensures forall e :: e in order <==> e in old(knock) || e == victim
    {
      hide TeamOf, MatchState.KillEntity, SweepTeam, MatchState.TeamSize, MatchState.TeamAlive;
      order := Enumerate(knock.Keys + {victim});
      var team := TeamOf(victim);
      var size := TeamSize(team);
      if size <= 1 {
        KillEntity(victim, attacker);
      } else {
        KnockPlayer(victim, attacker, now);
        var alive := TeamAlive(team);
        if alive == 0 {
          order := TeamFellToZero(team);
        }
      }
    }

    method DamageKnocked(victim: Entity, dmg: nat)
      requires OwnEntities(players)
      modifies this`kills, this`deaths, this`log, this`life, this`hp, this`knock, this`rescues, players
      ensures State() == MatchState.DamageKnocked(old(State()), victim, dmg)
    {
      hide MatchState.FinalizeKnock;
      if victim in knock {
        var ks := knock[victim];
        if dmg >= ks.hp {
          knock := knock[victim := ks.(hp := 0)];
          hp := hp[victim := 0];
          FinalizeKnock(victim);
          return;
        }
        knock := knock[victim := ks.(hp := ks.hp - dmg)];
        hp := hp[victim := ks.hp - dmg];
      }
    }

    method ApplyDamage(victim: Entity, attacker: Entity, dmg: nat, now: int) returns (ghost order: seq<Entity>)
      requires Valid()
      modifies this`kills, this`deaths, this`log, this`life, this`hp, this`knock, this`rescues, this`lastTeamFell,
               players
      ensures State() == MatchState.ApplyDamage(old(State()), victim, attacker, dmg, now, order) && Valid()
      ensures forall e :: e in order <==> e in old(knock) || e == victim
    {
      hide MatchState.DownOrKill, MatchState.DamageKnocked, Invariant, Sessions;
      ghost var w := State();
      OwnIds(players, w);
      order := Enumerate(knock.Keys + {victim});
      if !roundOver {
        var l := Life(victim);
        if l == Knocked {
          DamageKnocked(victim, dmg);
        } else if l == Alive && victim in hp && hp[victim] > 0 {
          var cur := if dmg >= hp[victim] then 0 else hp[victim] - dmg;
          hp := hp[victim := cur];
          if cur == 0 {
            order := DownOrKill(victim, attacker, now);
          }
        }
      }
      ApplyDamageKeeps(w, victim, attacker, dmg, now, order);
    }

    method BleedOne(e: Entity, now: int)
      requires OwnEntities(players)
      modifies this`kills, this`deaths, this`log, this`life, this`hp, this`knock, this`rescues, players
      ensures State() == MatchState.BleedOne(old(State()), e, now)
    {
      hide MatchState.FinalizeKnock;
      if e !in knock || now < knock[e].deadline {
        return;
      }
      knock := knock[e := knock[e].(deadline := knock[e].deadline + BLEED_EVERY)];
      if knock[e].hp <= BLEED_AMOUNT {
        FinalizeKnock(e);
      } else {
        knock := knock[e := knock[e].(hp := knock[e].hp - BLEED_AMOUNT)];
        hp := hp[e := knock[e].hp];
      }
    }

    method StepKnock(now: int) returns (ghost order: seq<Entity>)
      requires Valid()
      modifies this`kills, this`deaths, this`log, this`life, this`hp, this`knock, this`rescues, players
      ensures State() == MatchState.StepKnock(old(State()), now, order) && Valid()
      ensures forall e :: e in order <==> e in old(knock)
    {
      hide MatchState.BleedOne, Invariant;
      ghost var w := State();
      OwnIds(players, w);
      order := [];
      var todo := knock.Keys;
      while todo != {}
        invariant State() == MatchState.StepKnock(w, now, order)
        invariant forall e :: e in w.knock <==> e in order || e in todo
      {
        var e :| e in todo;
        todo := todo - {e};
        assert (order + [e])[..|order|] == order;
        order := order + [e];
        BleedOne(e, now);
      }
      StepKnockKeeps(w, now, order);
    }

    // -------------------------------------------------------------- rescues

    method StartRescue(reviver: Entity, target: Entity, now: int)
      requires Valid()
      modifies this`rescues
      ensures State() == MatchState.StartRescue(old(State()), reviver, target, now) && Valid()
    {
      hide TeamOf, Invariant;
      RescuesDoNotMatter(State(), rescues[target := Rescue(reviver, now + REVIVE_DURATION)]);
      var lt, lr := LifeOfBoth(target, reviver);
      if lt != Knocked || lr != Alive || TeamOf(reviver) != TeamOf(target) {
        return;
      }
      if target !in rescues {
        rescues := rescues[target := Rescue(reviver, now + REVIVE_DURATION)];
      }
    }

    method LifeOfBoth(a: Entity, b: Entity) returns (la: Life, lb: Life)
      ensures la == LifeOf(State(), a) && lb == LifeOf(State(), b)
    {
      la := Life(a);
      lb := Life(b);
    }

    method StopRescue(reviver: Entity, target: Entity)
      requires Valid()
      modifies this`rescues
      ensures State() == MatchState.StopRescue(old(State()), reviver, target) && Valid()
    {
      hide Invariant;
      RescuesDoNotMatter(State(), rescues - {target});
      if target in rescues && rescues[target].reviver == reviver {
        rescues := rescues - {target};
      }
    }

    method CompleteRescue(target: Entity)
      modifies this`life, this`hp, this`knock
      ensures State() == MatchState.CompleteRescue(old(State()), target)
    {
      life := life[target := Alive];
      hp := hp[target := REVIVE_HP];
      knock := knock - {target};
    }

    method RescueOne(target: Entity, now: int)
      modifies this`life, this`hp, this`knock, this`rescues
      ensures State() == MatchState.RescueOne(old(State()), target, now)
    {
      hide MatchState.CompleteRescue;
      if target !in rescues {
        return;
      }
      var r := rescues[target];
      var lt, lr := LifeOfBoth(target, r.reviver);
      if lt != Knocked || lr != Alive {
        rescues := rescues - {target};
        return;
      }
      if now >= r.completeAt {
        rescues := rescues - {target};
        CompleteRescue(target);
      }
    }

    method StepRescue(now: int) returns (ghost order: seq<Entity>)
      requires Valid()
      modifies this`life, this`hp, this`knock, this`rescues
      ensures State() == MatchState.StepRescue(old(State()), now, order) && Valid()
      ensures forall e :: e in order <==> e in old(rescues)
    {
      hide MatchState.RescueOne, Invariant;
      ghost var w := State();
      order := [];
      var todo := rescues.Keys;
      while todo != {}
        invariant State() == MatchState.StepRescue(w, now, order)
        invariant forall e :: e in w.rescues <==> e in order || e in todo
      {
        var target :| target in todo;
        todo := todo - {target};
        assert (order + [target])[..|order|] == order;
        order := order + [target];
        RescueOne(target, now);
      }
      StepRescueKeeps(w, now, order);
    }

    // -------------------------------------------------------------- healing

    method UseMedkit(p: Player, now: int)
      requires Valid() && p in players
      modifies p
      ensures State() == MatchState.UseMedkit(old(State()), p.entity, now) && Valid()
    {
      hide Invariant, StepHeal, StepEP, MatchState.GrantMushroom, MatchState.ResetEP, Sessions;
      HealingKeeps(State(), p.entity, now);
      OwnIds(players, State());
      ghost var m := Sessions(players);
      ReadsNow(players, p);
      p.ArmHeal(now);
      OneChanged(players, m, p);
    }

    method SetHeal(p: Player, active: bool, applied: nat)
      requires OwnEntities(players) && p in players
      modifies p
      ensures p.entity in old(Sessions(players)) && old(Sessions(players))[p.entity] == old(p.Snapshot())
      ensures Sessions(players) == old(Sessions(players))[p.entity := old(p.Snapshot()).(heal := Heal(active, old(p.healStart), applied))]
    {
      hide Sessions;
      ghost var m := Sessions(players);
      ReadsNow(players, p);
      p.healActive := active;
      p.healApplied := applied;
      OneChanged(players, m, p);
    }

    method SetEnergy(p: Player, e: Energy)
      requires OwnEntities(players) && p in players
      modifies p
      ensures p.entity in old(Sessions(players)) && old(Sessions(players))[p.entity] == old(p.Snapshot())
      ensures Sessions(players) == old(Sessions(players))[p.entity := old(p.Snapshot()).(energy := e)]
    {
      hide Sessions;
      ghost var m := Sessions(players);
      ReadsNow(players, p);
      p.SetEnergy(e);
      OneChanged(players, m, p);
    }

    /** stepHeal of one session. */
    method HealPlayer(p: Player, now: int)
      requires OwnEntities(players) && p in players
      modifies p, this`hp
      ensures State() == StepHeal(old(State()), p.entity, now)
    {
      hide Vitals.HealTick, Sessions, StepHeal, HPOf, LifeOf;
      ReadsNow(players, p);
      StepHealIs(State(), p.entity, now);
      if !p.healActive {
        return;
      }
      var e := p.entity;
      var health := HP(e);
      var l := Life(e);
      var before := p.healApplied;
      var active, applied, h := Ripen(p.healStart, p.healApplied, health, l == Alive, now);
      SetHeal(p, active, applied);
      if l == Alive && applied != before {
        hp := hp[e := h];
      }
    }

    /** The arithmetic of stepHeal for an armed heal. */
    method Ripen(start: int, before: nat, health: nat, alive: bool, now: int) returns (active: bool, applied: nat, h: nat)
      ensures (Heal(active, start, applied), h) == Vitals.HealTick(Heal(true, start, before), health, alive, maxHP, now)
    {
      hide Div;
      applied, h := before, health;
      if !alive {
        return false, before, health;
      }
      var want := Div(now - start, MEDKIT_INTERVAL);
      if want > MEDKIT_STEPS {
        want := MEDKIT_STEPS;
      }
      if want > before {
        h := Wrap16(health + (want - before));
        if h > maxHP {
          h := maxHP;
        }
        applied := want;
      }
      active := !(applied >= MEDKIT_STEPS || h >= maxHP);
    }

    method HealTick(now: int)
      requires Valid()
      modifies players, this`hp
      ensures State() == HealEach(old(State()), Ids(players), now) && Valid()
    {
      hide Invariant, StepHeal, Sessions;
      ghost var w, ids := State(), Ids(players);
      EachKeeps(w, ids, now);
      OwnIds(players, w);
      for i := 0 to |players|
        invariant State() == HealEach(w, ids[..i], now)
      {
        assert ids[..i + 1][..i] == ids[..i];
        HealPlayer(players[i], now);
      }
      assert ids[..|players|] == ids;
    }

    method GrantMushroom(p: Player, now: int)
      requires Valid() && p in players
      modifies p
      ensures State() == MatchState.GrantMushroom(old(State()), p.entity, now) && Valid()
    {
      hide Invariant, StepHeal, StepEP, MatchState.UseMedkit, MatchState.ResetEP, Sessions;
      HealingKeeps(State(), p.entity, now);
      OwnIds(players, State());
      ghost var m := Sessions(players);
      ReadsNow(players, p);
      p.GrantMushroom(now);
      OneChanged(players, m, p);
    }

    /** The arithmetic of stepEP for a player with energy left. */
    method Drain(energy: Energy, health: nat, alive: bool, now: int) returns (e: Energy, h: nat)
      requires maxHP <= 0xFFFF
      ensures (e, h) == Vitals.EnergyTick(energy, health, alive, maxHP, now)
    {
      hide Div;
      e, h := energy, health;
      if e.ep == 0 {
        return;
      }
      if !alive || health == 0 || health >= maxHP {
        e := e.(last := now);
        return;
      }
      var steps := Div(now - e.last, EP_INTERVAL);
      if steps <= 0 {
        return;
      }
      e := e.(last := e.last + steps * EP_INTERVAL);
      var gain := Wrap16(steps);
      if gain > e.ep {
        gain := e.ep;
      }
      if Wrap16(health + gain) > maxHP {
        gain := maxHP - health;
      }
      if gain == 0 {
        return;
      }
      h := Wrap16(health + gain);
      e := e.(ep := e.ep - gain);
    }

    /** stepEP of one session. */
    method EnergizePlayer(p: Player, now: int)
      requires maxHP <= 0xFFFF && OwnEntities(players) && p in players
      modifies p, this`hp
      ensures State() == StepEP(old(State()), p.entity, now)
    {
      hide Vitals.EnergyTick, Sessions, StepEP, HPOf, LifeOf;
      ReadsNow(players, p);
      StepEPIs(State(), p.entity, now);
      var id := p.entity;
      var health := HP(id);
      var l := Life(id);
      var before := p.ep;
      var e, h := Drain(Energy(p.ep, p.epLast, p.mushrooms), health, l == Alive, now);
      SetEnergy(p, e);
      if e.ep != before {
        hp := hp[id := h];
      }
    }

    method EnergyTick(now: int)
      requires Valid()
      modifies players, this`hp
      ensures State() == EnergyEach(old(State()), Ids(players), now) && Valid()
    {
      hide Invariant, StepEP, Sessions;
      ghost var w, ids := State(), Ids(players);
      EachKeeps(w, ids, now);
      OwnIds(players, w);
      for i := 0 to |players|
        invariant State() == EnergyEach(w, ids[..i], now)
      {
        assert ids[..i + 1][..i] == ids[..i];
        EnergizePlayer(players[i], now);
      }
      assert ids[..|players|] == ids;
    }

    method ResetEP(p: Player)
      requires Valid() && p in players
      modifies p
      ensures State() == MatchState.ResetEP(old(State()), p.entity) && Valid()
    {
      hide Invariant, StepHeal, StepEP, MatchState.UseMedkit, MatchState.GrantMushroom, Sessions;
      HealingKeeps(State(), p.entity, 0);
      OwnIds(players, State());
      ghost var m := Sessions(players);
      ReadsNow(players, p);
      p.ResetEP();
      OneChanged(players, m, p);
    }

    // -------------------------------------------------------------- rounds and roster

    method EndRound()
      requires Valid()
      modifies this`roundOver
      ensures State() == MatchState.EndRound(old(State())) && Valid()
    {
      hide Invariant, Sessions;
      EndRoundKeeps(State());
      roundOver := true;
    }

    method ReviveAll()
      requires Valid()
      modifies this`life, this`hp, this`knock, this`rescues, this`roundOver, this`roundStart, players
      ensures State() == MatchState.ReviveAll(old(State())) && Valid()
    {
      hide Invariant, Filled, Everyone, Unwatching, Sessions;
      ghost var w := State();
      OwnIds(players, w);
      ReviveKeeps(w);
      ClearObserving();
      FillAll();
      knock := map[];
      rescues := map[];
      roundOver := false;
      roundStart := |log|;
    }

    method ClearObserving()
      requires OwnEntities(players)
      modifies players
      ensures Sessions(players) == Unwatching(old(Sessions(players)))
    {
      hide Sessions;
      SessionsAre(players);
      ghost var was := Sessions(players);
      for i := 0 to |players|
        invariant forall j :: 0 <= j < |players| ==>
                    players[j].Snapshot() == if j < i then was[players[j].entity].(observing := 0) else was[players[j].entity]
      {
        players[i].observing := 0;
      }
      SessionsBy(players, Unwatching(was));
    }

    /** The humans of the two teams. */
    method CountHumans() returns (ones: nat, twos: nat)
      requires forall p :: p in players ==> TeamOf(p.entity) == 1 || TeamOf(p.entity) == 2
      ensures ones == CountTeam(Ids(players), 1) && twos == CountTeam(Ids(players), 2)
    {
      hide TeamOf;
      ones, twos := 0, 0;
      ghost var ids := Ids(players);
      for i := 0 to |players|
        invariant ones == CountTeam(ids[..i], 1) && twos == CountTeam(ids[..i], 2)
      {
        assert ids[..i + 1][..i] == ids[..i] && players[i] in players;
        if TeamOf(players[i].entity) == 1 {
          ones := ones + 1;
        } else {
          twos := twos + 1;
        }
      }
      assert ids[..|players|] == ids;
    }

    method AllocSlot(prefer: nat) returns (e: Entity)
      requires forall p :: p in players ==> TeamOf(p.entity) == 1 || TeamOf(p.entity) == 2
      modifies this`nextSlot
      ensures e == AllocEntity(old(State()), prefer)
      ensures nextSlot == (old(nextSlot) + 1) % 256
    {
      hide TeamOf, Sessions, CountTeam;
      nextSlot := (nextSlot + 1) % 256;
      var ones, twos := CountHumans();
      var team := 1;
      if prefer == 1 || prefer == 2 {
        team := prefer;
      } else if twos < ones {
        team := 2;
      }
      e := team * 0x100_0000 + nextSlot;
    }

    method RetireBot()
      modifies this`bot, this`hp, this`life, this`kills, this`deaths
      ensures State() == MatchState.RetireBot(old(State()))
    {
      hide Sessions;
      if bot != 0 {
        var gone := bot;
        bot := 0;
        hp := hp - {gone};
        life := life - {gone};
        kills := kills - {gone};
        deaths := deaths - {gone};
      }
    }

    /** addPlayer and the world part of admitLater. */
    method AddPlayer(prefer: nat) returns (p: Player)
      requires Valid() && CanAdmit(State())
      modifies this
      ensures State() == MatchState.Join(old(State()), prefer) && Valid()
      ensures fresh(p) && players == old(players) + [p] && p.entity !in old(Ids(players))
    {
      hide Invariant, AllocEntity, MatchState.RetireBot, Sessions, Roster;
      ghost var w := State();
      JoinKeeps(w, prefer);
      InvariantRoster(w);
      AllocIsFresh(w, prefer);
      TwoTeams(players, w);
      var e := AllocSlot(prefer);
      p := new Player(e);
      SeatFresh(p);
      RetireBot();
    }

    method SeatFresh(p: Player)
      requires p.Snapshot() == Session(0, NO_HEAL, NO_ENERGY)
      modifies this`players, this`hp, this`life
      ensures players == old(players) + [p]
      ensures var w, e := old(State()), p.entity;
              State() == w.(players := w.players + [e], sessions := w.sessions[e := Session(0, NO_HEAL, NO_ENERGY)],
                            hp := w.hp[e := w.maxHP], life := w.life[e := Alive])
    {
      hide Sessions;
      SeatPlayer(p);
      hp := hp[p.entity := maxHP];
      life := life[p.entity := Alive];
    }

    method SeatPlayer(p: Player)
      modifies this`players
      ensures players == old(players) + [p] && Ids(players) == old(Ids(players)) + [p.entity]
      ensures Sessions(players) == old(Sessions(players))[p.entity := p.Snapshot()]
    {
      assert (players + [p])[..|players|] == players;
      players := players + [p];
    }

    /** spawnFallbackBot. */
    method SpawnBot()
      requires Valid()
      modifies this`bot, this`hp, this`life
      ensures State() == MatchState.SpawnBot(old(State())) && (Valid() <==> BOT !in knock)
    {
      hide Invariant, Sessions;
      SpawnBotKeeps(State());
      bot := BOT;
      hp := hp[bot := maxHP];
      life := life[bot := Alive];
    }

    /** The session that leaves is as a rule the roster's own. If it is another one of the same entity, the
        roster stays and its records go. */
    method RemovePlayer(s: Player)
      requires Valid()
      modifies this, players
      ensures s in old(players) || s.entity !in old(Ids(players)) ==>
                State() == MatchState.RemovePlayer(old(State()), s.entity) && Valid()
      ensures s !in old(players) && s.entity in old(Ids(players)) ==>
                && players == old(players)
                && State() == Repoint(Forgotten(old(State()), s.entity), s.entity, 0)
    {
      hide Invariant, Repoint, Sessions, Gone, MatchState.RemovePlayer, Forgotten;
      ghost var w := State();
      RemoveKeeps(w, s.entity);
      OwnIds(players, w);
      RemovePlayerIs(w, s.entity);
      OnRoster(players, s);
      var session := SessionByEntity(s.entity);
      if session == null {
        return;
      }
      EmitDeath(s.entity, 0);
      Leave(s);
      assert forall i :: 0 <= i < |players| ==> players[i] in players && players[i] in old(players);
      RepointSpectators(s.entity, 0);
    }

    /** removePlayer drops the session from the roster and its entity from three of the records. */
    method Leave(s: Player)
      requires OwnEntities(players)
      modifies this`players, this`hp, this`life, this`knock
      ensures OwnEntities(players) && forall p :: p in players ==> p in old(players)
      ensures s in old(players) ==> State() == Gone(old(State()), s.entity)
      ensures s !in old(players) ==> players == old(players) && State() == Forgotten(old(State()), s.entity)
    {
      hide Sessions, Drop;
      KeepOthers(s);
      hp := hp - {s.entity};
      life := life - {s.entity};
      knock := knock - {s.entity};
    }

    method KeepOthers(s: Player)
      requires OwnEntities(players)
      modifies this`players
      ensures OwnEntities(players) && forall p :: p in players ==> p in old(players)
      ensures s in old(players) ==> Ids(players) == Drop(old(Ids(players)), s.entity)
      ensures s in old(players) ==> Sessions(players) == old(Sessions(players)) - {s.entity}
      ensures s !in old(players) ==> players == old(players)
    {
      hide Sessions;
      var kept := [];
      for i := 0 to |players|
        invariant kept == Others(players[..i], s)
      {
        assert players[..i + 1][..i] == players[..i];
        if players[i] != s {
          kept := kept + [players[i]];
        }
      }
      assert players[..|players|] == players;
      OthersAre(players, s);
      if s in players {
        OthersDrop(players, s);
        KeptSessions(players, s);
      }
      players := kept;
    }
  }

  /** A roster with its entity forgotten by hp, life and knock. */
  function Forgotten(w: World, e: Entity): World {
    w.(hp := w.hp - {e}, life := w.life - {e}, knock := w.knock - {e})
  }

  function Others(players: seq<Player>, s: Player): seq<Player> {
    if |players| == 0 then []
    else
      var rest := Others(players[..|players| - 1], s);
      if players[|players| - 1] != s then rest + [players[|players| - 1]] else rest
  }

  lemma {:induction false} OthersAre(players: seq<Player>, s: Player)
    requires OwnEntities(players)
    ensures OwnEntities(Others(players, s))
    ensures forall i :: 0 <= i < |Others(players, s)| ==> Others(players, s)[i] in players && Others(players, s)[i] != s
    ensures forall i :: 0 <= i < |players| && players[i] != s ==> players[i] in Others(players, s)
    ensures s !in players ==> Others(players, s) == players
  {
    if |players| > 0 {
      var init, p := players[..|players| - 1], players[|players| - 1];
      OthersAre(init, s);
      OthersOneMore(players, Others(init, s), s);
    }
  }

  lemma OthersOneMore(players: seq<Player>, rest: seq<Player>, s: Player)
    requires |players| > 0 && OwnEntities(players) && rest == Others(players[..|players| - 1], s) && OwnEntities(rest)
    requires forall i :: 0 <= i < |rest| ==> rest[i] in players[..|players| - 1] && rest[i] != s
    requires forall i :: 0 <= i < |players| - 1 && players[i] != s ==> players[i] in rest
    requires s !in players[..|players| - 1] ==> rest == players[..|players| - 1]
    ensures OwnEntities(Others(players, s))
    ensures forall i :: 0 <= i < |Others(players, s)| ==> Others(players, s)[i] in players && Others(players, s)[i] != s
    ensures forall i :: 0 <= i < |players| && players[i] != s ==> players[i] in Others(players, s)
    ensures s !in players ==> Others(players, s) == players
  {
    var init, p := players[..|players| - 1], players[|players| - 1];
    assert players == init + [p];
    forall i | 0 <= i < |rest| ensures rest[i].entity != p.entity {
      var j :| 0 <= j < |init| && init[j] == rest[i];
    }
  }

  lemma {:induction false} OthersDrop(players: seq<Player>, s: Player)
    requires forall p :: p in players && p.entity == s.entity ==> p == s
    ensures Ids(Others(players, s)) == Drop(Ids(players), s.entity)
  {
    if |players| > 0 {
      var init, p := players[..|players| - 1], players[|players| - 1];
      assert forall q :: q in init ==> q in players;
      OthersDrop(init, s);
      assert Ids(players)[..|init|] == Ids(init) && p in players;
      assert Ids(Others(init, s) + [p]) == Ids(Others(init, s)) + [p.entity];
    }
  }

  /** What the sweep does to one record. */
  function SweepOne(w: World, e: Entity, team: nat): World {
    if e in w.knock && TeamOf(e) == team && LifeOf(w, e) == Knocked then MatchState.FinalizeKnock(w, e) else w
  }

  lemma SweepOneMore(w: World, team: nat, order: seq<Entity>, e: Entity)
    ensures SweepTeam(w, team, order + [e]) == SweepOne(SweepTeam(w, team, order), e, team)
  {
    hide TeamOf, MatchState.FinalizeKnock;
    assert (order + [e])[..|order|] == order;
  }

  lemma SweepNone(w: World, team: nat)
    ensures SweepTeam(w, team, []) == w
  {}

  lemma RemovePlayerIs(w: World, e: Entity)
    ensures MatchState.RemovePlayer(w, e) == if e in w.players then Repoint(Gone(w, e), e, 0) else w
  {
    hide Repoint, Drop;
  }

  /** A session is on the roster under its entity. */
  lemma OnRoster(players: seq<Player>, s: Player)
    ensures s in players ==> s.entity in Ids(players)
  {
    if s in players {
      var i :| 0 <= i < |players| && players[i] == s;
      assert Ids(players)[i] == s.entity;
    }
  }

  /** The sessions of everyone but one. */
  lemma KeptSessions(players: seq<Player>, s: Player)
    requires OwnEntities(players) && forall p :: p in players && p.entity == s.entity ==> p == s
    ensures Sessions(Others(players, s)) == Sessions(players) - {s.entity}
  {
    hide Sessions, Drop, Others;
    var ids, kept := Ids(players), Others(players, s);
    OthersAre(players, s);
    OthersDrop(players, s);
    OwnDropMembers(players, s.entity);
    SessionsAre(players);
    forall i | 0 <= i < |kept|
      ensures kept[i].entity in Sessions(players) - {s.entity}
      ensures (Sessions(players) - {s.entity})[kept[i].entity] == kept[i].Snapshot()
    {
      assert kept[i] in players && Ids(kept)[i] in Ids(kept);
    }
    SessionsBy(kept, Sessions(players) - {s.entity});
  }

  lemma OwnDropMembers(players: seq<Player>, e: Entity)
    requires OwnEntities(players)
    ensures forall x :: x in Drop(Ids(players), e) <==> x in Ids(players) && x != e
  {
    DropMembers(Ids(players), e);
  }

  lemma TwoTeams(players: seq<Player>, w: World)
    requires Roster(w) && w.players == Ids(players)
    ensures forall p :: p in players ==> TeamOf(p.entity) == 1 || TeamOf(p.entity) == 2
  {
    hide TeamOf, Slot;
    forall p | p in players ensures TeamOf(p.entity) == 1 || TeamOf(p.entity) == 2 {
      var i :| 0 <= i < |players| && players[i] == p;
      assert w.players[i] == p.entity;
    }
  }

  /** A roster in order has an entity for each player. */
  lemma OwnIds(players: seq<Player>, w: World)
    requires Invariant(w) && w.players == Ids(players)
    ensures OwnEntities(players)
  {
    hide Tracked, AllSound, Bounded;
    forall i, j | 0 <= i < j < |players| ensures players[i].entity != players[j].entity {
      assert w.players[i] != w.players[j];
    }
  }

  lemma NoSessions(players: seq<Player>)
    requires players == []
    ensures Sessions(players) == Blank([])
  {}

  lemma BlankOneMore(roster: seq<Entity>, i: nat)
    requires i < |roster|
    ensures Blank(roster[..i + 1]) == Blank(roster[..i])[roster[i] := Session(0, NO_HEAL, NO_ENERGY)]
  {
    assert roster[..i + 1] == roster[..i] + [roster[i]];
  }

  lemma MovedNone(w: World, prefer: Entity)
    ensures Moved(w, [], prefer) == w.sessions
  {}

  /** The players found are those whose sessions watch the entity. */
  lemma WatchersAre(players: seq<Player>, out: seq<Player>, sessions: map<Entity, Session>, gone: Entity)
    requires OwnEntities(players) && forall p :: p in out ==> p in players
    requires forall e :: e in sessions <==> e in Ids(players)
    requires forall p :: p in players ==>
      p.entity in sessions && (p in out <==> sessions[p.entity].observing == gone)
    ensures forall e :: e in Ids(out) <==> e in sessions && sessions[e].observing == gone
  {
    forall e | e in sessions && sessions[e].observing == gone ensures e in Ids(out) {
      var i :| 0 <= i < |players| && Ids(players)[i] == e;
      var j :| 0 <= j < |out| && out[j] == players[i];
      assert Ids(out)[j] == e;
    }
    forall e | e in Ids(out) ensures e in sessions && sessions[e].observing == gone {
      var j :| 0 <= j < |out| && Ids(out)[j] == e;
      assert out[j] in out && out[j] in players;
    }
  }

  lemma FilledNone<T>(m: map<Entity, T>, v: T)
    ensures Filled(m, Everyone([], 0), v) == m
  {}

  lemma FilledOne<T>(m: map<Entity, T>, up: set<Entity>, e: Entity, v: T)
    ensures Filled(m, up + {e}, v) == Filled(m, up, v)[e := v]
  {}

  lemma OneMore(players: seq<Entity>, i: nat)
    requires i < |players|
    ensures players[..i + 1] == players[..i] + [players[i]]
    ensures Everyone(players[..i + 1], 0) == Everyone(players[..i], 0) + {players[i]}
  {}

  lemma Botless(players: seq<Entity>, bot: Entity)
    ensures Everyone(players, bot) == if bot != 0 then Everyone(players, 0) + {bot} else Everyone(players, 0)
  {}
}
