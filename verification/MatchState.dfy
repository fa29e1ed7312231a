/** The death, knockdown and rescue rules of match-server/deathmatch.go and knockdown.go, with the
    roster changes of match.go and the HP writers of medkit.go and ep.go, as functions on values. The
    order in which Go visits a map is an argument. Times are nanoseconds. */
module MatchState {
  import opened Vitals

  const KNOCKDOWN_HP: nat := 200
  const BLEED_AMOUNT: nat := 10
  const BLEED_EVERY: nat := 1_500_000_000
  const REVIVE_HP: nat := 20
  const REVIVE_DURATION: nat := 4_000_000_000
  const ENEMY_TEAM: nat := 2
  const MAX_PLAYERS: nat := 8
  const BOT: Entity := 0x200_0002

  type Entity = nat

  datatype Life = Alive | Knocked | Dead
  datatype Knock = Knock(hp: nat, deadline: int, killer: Entity)
  datatype Rescue = Rescue(reviver: Entity, completeAt: int)
  datatype Session = Session(observing: Entity, heal: Heal, energy: Energy)
  datatype Death = Death(victim: Entity, killer: Entity)

  datatype World = World(
    players: seq<Entity>,
    sessions: map<Entity, Session>,
    nextSlot: nat,
    bot: Entity,
    maxHP: nat,
    hp: map<Entity, nat>,
    life: map<Entity, Life>,
    knock: map<Entity, Knock>,
    rescues: map<Entity, Rescue>,
    kills: map<Entity, nat>,
    deaths: map<Entity, nat>,
    lastTeamFell: nat,
    roundOver: bool,
    log: seq<Death>,
    roundStart: nat)

  // ---------------------------------------------------------------- reading

  /** The high byte of an entity id. */
  function TeamOf(e: Entity): nat {
    e / 0x100_0000 % 256
  }

  function OtherTeam(team: nat): nat {
    (3 - team) % 256
  }

  function LifeOf(w: World, e: Entity): Life {
    if e in w.life then w.life[e] else Alive
  }

  function Everyone(players: seq<Entity>, bot: Entity): set<Entity> {
    (set p | p in players) + if bot != 0 then {bot} else {}
  }

  predicate IsPlayer(w: World, e: Entity) {
    e in w.players
  }

  predicate Participates(w: World, e: Entity) {
    e in w.players || (w.bot != 0 && e == w.bot)
  }

  function CountTeam(players: seq<Entity>, team: nat): nat {
    if |players| == 0 then 0
    else CountTeam(players[..|players| - 1], team) + if TeamOf(players[|players| - 1]) == team then 1 else 0
  }

  function CountAlive(w: World, players: seq<Entity>, team: nat): nat {
    if |players| == 0 then 0
    else
      var p := players[|players| - 1];
      CountAlive(w, players[..|players| - 1], team) + if TeamOf(p) == team && LifeOf(w, p) == Alive then 1 else 0
  }

  function TeamSize(w: World, team: nat): nat {
    CountTeam(w.players, team) + if team == ENEMY_TEAM && w.bot != 0 then 1 else 0
  }

  function TeamAlive(w: World, team: nat): nat {
    CountAlive(w, w.players, team)
    + if team == ENEMY_TEAM && w.bot != 0 && LifeOf(w, w.bot) == Alive then 1 else 0
  }

  function FirstAliveFrom(w: World, i: nat, team: nat, except: Entity): Entity
    requires i <= |w.players|
    decreases |w.players| - i
  {
    if i == |w.players| then
      if team == ENEMY_TEAM && w.bot != 0 && w.bot != except && LifeOf(w, w.bot) == Alive then w.bot else 0
    else
      var p := w.players[i];
      if p != except && TeamOf(p) == team && LifeOf(w, p) == Alive then p else FirstAliveFrom(w, i + 1, team, except)
  }

  function FirstAlive(w: World, team: nat, except: Entity): Entity {
    FirstAliveFrom(w, 0, team, except)
  }

  /** A live teammate, else a live enemy, else nobody. */
  function SpectateFor(w: World, victim: Entity): Entity {
    var mate := FirstAlive(w, TeamOf(victim), victim);
    if mate != 0 then mate else FirstAlive(w, OtherTeam(TeamOf(victim)), victim)
  }

  // ---------------------------------------------------------------- spectators

  function NextTarget(w: World, spectator: Entity, prefer: Entity): Entity {
    if prefer == 0 || LifeOf(w, prefer) != Alive then SpectateFor(w, spectator) else prefer
  }

  /** Everyone who watched `gone` moves on. */
  function Repoint(w: World, gone: Entity, prefer: Entity): World {
    w.(sessions := map p | p in w.sessions ::
         if w.sessions[p].observing == gone then w.sessions[p].(observing := NextTarget(w, p, prefer))
         else w.sessions[p])
  }

  function EmitDeath(w: World, victim: Entity, observe: Entity): World {
    if observe == 0 then w
    else
      var w1 := if victim in w.sessions
                then w.(sessions := w.sessions[victim := w.sessions[victim].(observing := observe)]) else w;
      Repoint(w1, victim, observe)
  }

  // ---------------------------------------------------------------- deaths

  function Count(m: map<Entity, nat>, e: Entity): nat {
    if e in m then m[e] else 0
  }

  predicate IsEnemyKill(victim: Entity, killer: Entity) {
    killer != 0 && TeamOf(killer) != TeamOf(victim)
  }

  /** A 16-bit counter counts one up. */
  function Bumped(m: map<Entity, nat>, e: Entity): map<Entity, nat> {
    m[e := Wrap16(Count(m, e) + 1)]
  }

  function CreditDeath(w: World, victim: Entity, killer: Entity): World {
    w.(deaths := Bumped(w.deaths, victim),
       kills := if IsEnemyKill(victim, killer) then Bumped(w.kills, killer) else w.kills,
       log := w.log + [Death(victim, killer)])
  }

  function Bury(w: World, victim: Entity, killer: Entity): World {
    var w1 := CreditDeath(w, victim, killer);
    w1.(life := w1.life[victim := Dead], hp := w1.hp[victim := 0])
  }

  function Observed(w: World, victim: Entity): Entity {
    if IsPlayer(w, victim) then SpectateFor(w, victim) else 0
  }

  function KillEntity(w: World, victim: Entity, killer: Entity): World {
    var w1 := Bury(w, victim, killer);
    EmitDeath(w1, victim, Observed(w1, victim))
  }

  function FinalizeKnock(w: World, e: Entity): World
    requires e in w.knock
  {
    var w1 := Bury(w, e, w.knock[e].killer);
    var w2 := w1.(knock := w1.knock - {e}, rescues := w1.rescues - {e});
    EmitDeath(w2, e, Observed(w2, e))
  }

  function KnockPlayer(w: World, victim: Entity, attacker: Entity, now: int): World {
    w.(life := w.life[victim := Knocked],
       knock := w.knock[victim := Knock(KNOCKDOWN_HP, now + BLEED_EVERY, attacker)],
       hp := w.hp[victim := KNOCKDOWN_HP])
  }

  /** The sweep of a wiped team, in the order the knock records are visited. */
  function SweepTeam(w: World, team: nat, order: seq<Entity>): World {
    if |order| == 0 then w
    else
      var w1 := SweepTeam(w, team, order[..|order| - 1]);
      var e := order[|order| - 1];
      if e in w1.knock && TeamOf(e) == team && LifeOf(w1, e) == Knocked then FinalizeKnock(w1, e) else w1
  }

  function TeamFellToZero(w: World, team: nat, order: seq<Entity>): World {
    SweepTeam(w, team, order).(lastTeamFell := team)
  }

  function DownOrKill(w: World, victim: Entity, attacker: Entity, now: int, order: seq<Entity>): World {
    var team := TeamOf(victim);
    if TeamSize(w, team) <= 1 then KillEntity(w, victim, attacker)
    else
      var w1 := KnockPlayer(w, victim, attacker, now);
      if TeamAlive(w1, team) == 0 then TeamFellToZero(w1, team, order) else w1
  }

  function DamageKnocked(w: World, victim: Entity, dmg: nat): World {
    if victim !in w.knock then w
    else
      var ks := w.knock[victim];
      if dmg >= ks.hp then
        FinalizeKnock(w.(knock := w.knock[victim := ks.(hp := 0)], hp := w.hp[victim := 0]), victim)
      else
        w.(knock := w.knock[victim := ks.(hp := ks.hp - dmg)], hp := w.hp[victim := ks.hp - dmg])
  }

  function ApplyDamage(w: World, victim: Entity, attacker: Entity, dmg: nat, now: int, order: seq<Entity>): World {
    if w.roundOver then w
    else if LifeOf(w, victim) == Knocked then DamageKnocked(w, victim, dmg)
    else if LifeOf(w, victim) != Alive then w
    else if victim !in w.hp || w.hp[victim] == 0 then w
    else
      var cur := if dmg >= w.hp[victim] then 0 else w.hp[victim] - dmg;
      var w1 := w.(hp := w.hp[victim := cur]);
      if cur == 0 then DownOrKill(w1, victim, attacker, now, order) else w1
  }

  function BleedOne(w: World, e: Entity, now: int): World {
    if e !in w.knock || now < w.knock[e].deadline then w
    else
      var ks := w.knock[e].(deadline := w.knock[e].deadline + BLEED_EVERY);
      var w1 := w.(knock := w.knock[e := ks]);
      if ks.hp <= BLEED_AMOUNT then FinalizeKnock(w1, e)
      else w1.(knock := w1.knock[e := ks.(hp := ks.hp - BLEED_AMOUNT)], hp := w1.hp[e := ks.hp - BLEED_AMOUNT])
  }

  function StepKnock(w: World, now: int, order: seq<Entity>): World {
    if |order| == 0 then w else BleedOne(StepKnock(w, now, order[..|order| - 1]), order[|order| - 1], now)
  }

  // ---------------------------------------------------------------- rescues

  function StartRescue(w: World, reviver: Entity, target: Entity, now: int): World {
    if LifeOf(w, target) != Knocked || LifeOf(w, reviver) != Alive || TeamOf(reviver) != TeamOf(target) then w
    else if target in w.rescues then w
    else w.(rescues := w.rescues[target := Rescue(reviver, now + REVIVE_DURATION)])
  }

  function StopRescue(w: World, reviver: Entity, target: Entity): World {
    if target in w.rescues && w.rescues[target].reviver == reviver then w.(rescues := w.rescues - {target}) else w
  }

  function CompleteRescue(w: World, target: Entity): World {
    w.(life := w.life[target := Alive], hp := w.hp[target := REVIVE_HP], knock := w.knock - {target})
  }

  function RescueOne(w: World, target: Entity, now: int): World {
    if target !in w.rescues then w
    else
      var r, w1 := w.rescues[target], w.(rescues := w.rescues - {target});
      if LifeOf(w, target) != Knocked || LifeOf(w, r.reviver) != Alive then w1
      else if now < r.completeAt then w
      else CompleteRescue(w1, target)
  }

  function StepRescue(w: World, now: int, order: seq<Entity>): World {
    if |order| == 0 then w else RescueOne(StepRescue(w, now, order[..|order| - 1]), order[|order| - 1], now)
  }

  // ---------------------------------------------------------------- healing

  function HPOf(w: World, e: Entity): nat {
    if e in w.hp then w.hp[e] else 0
  }

  function UseMedkit(w: World, p: Entity, now: int): World {
    if p !in w.sessions then w
    else w.(sessions := w.sessions[p := w.sessions[p].(heal := Heal(true, now, 0))])
  }

  function StepHeal(w: World, p: Entity, now: int): World {
    if p !in w.sessions || !w.sessions[p].heal.active then w
    else
      var alive := LifeOf(w, p) == Alive;
      var (heal, hp) := HealTick(w.sessions[p].heal, HPOf(w, p), alive, w.maxHP, now);
      var w1 := w.(sessions := w.sessions[p := w.sessions[p].(heal := heal)]);
      if alive && heal.applied != w.sessions[p].heal.applied then w1.(hp := w1.hp[p := hp]) else w1
  }

  function GrantMushroom(w: World, p: Entity, now: int): World {
    if p !in w.sessions then w
    else w.(sessions := w.sessions[p := w.sessions[p].(energy := Mushroom(w.sessions[p].energy, now))])
  }

  function StepEP(w: World, p: Entity, now: int): World {
    if p !in w.sessions then w
    else
      var (energy, hp) := EnergyTick(w.sessions[p].energy, HPOf(w, p), LifeOf(w, p) == Alive, w.maxHP, now);
      var w1 := w.(sessions := w.sessions[p := w.sessions[p].(energy := energy)]);
      if energy.ep != w.sessions[p].energy.ep then w1.(hp := w1.hp[p := hp]) else w1
  }

  function ResetEP(w: World, p: Entity): World {
    if p !in w.sessions then w
    else w.(sessions := w.sessions[p := w.sessions[p].(energy := w.sessions[p].energy.(ep := 0, mushrooms := 0))])
  }

  // ---------------------------------------------------------------- rounds and roster

  function EndRound(w: World): World {
    w.(roundOver := true)
  }

  /** Every given entity gets the value. */
  function Filled<T>(m: map<Entity, T>, up: set<Entity>, v: T): map<Entity, T> {
    map e | e in m.Keys + up :: if e in up then v else m[e]
  }

  function Unwatching(sessions: map<Entity, Session>): map<Entity, Session> {
    map p | p in sessions :: sessions[p].(observing := 0)
  }

  function ReviveAll(w: World): World {
    var up := Everyone(w.players, w.bot);
    w.(life := Filled(w.life, up, Alive),
       hp := Filled(w.hp, up, w.maxHP),
       sessions := Unwatching(w.sessions),
       knock := map[], rescues := map[], roundOver := false, roundStart := |w.log|)
  }

  /** A session for each of the roster. */
  function Blank(players: seq<Entity>): map<Entity, Session> {
    map p | p in players :: Session(0, NO_HEAL, NO_ENERGY)
  }

  /** initHP, on any roster. */
  function Initial(players: seq<Entity>, nextSlot: nat, bot: Entity, maxHP: nat): World {
    var up := Everyone(players, bot);
    World(players, Blank(players), nextSlot, bot, maxHP,
          Filled(map[], up, maxHP), Filled(map[], up, Alive), map[], map[], map[], map[], 0, false, [], 0)
  }

  /** The team and the entity id that allocSlot gives to the next human. */
  function AllocTeam(w: World, prefer: nat): (team: nat) {
    if prefer == 1 || prefer == 2 then prefer
    else if CountTeam(w.players, 2) < CountTeam(w.players, 1) then 2 else 1
  }

  function AllocEntity(w: World, prefer: nat): Entity {
    AllocTeam(w, prefer) * 0x100_0000 + (w.nextSlot + 1) % 256
  }

  function RetireBot(w: World): World {
    if w.bot == 0 then w
    else w.(bot := 0, hp := w.hp - {w.bot}, life := w.life - {w.bot}, kills := w.kills - {w.bot},
            deaths := w.deaths - {w.bot})
  }

  /** addPlayer and the world part of admitLater. */
  function Join(w: World, prefer: nat): World {
    var e := AllocEntity(w, prefer);
    RetireBot(w.(players := w.players + [e], sessions := w.sessions[e := Session(0, NO_HEAL, NO_ENERGY)],
                 nextSlot := (w.nextSlot + 1) % 256,
                 hp := w.hp[e := w.maxHP], life := w.life[e := Alive]))
  }

  /** spawnFallbackBot. */
  function SpawnBot(w: World): World {
    w.(bot := BOT, hp := w.hp[BOT := w.maxHP], life := w.life[BOT := Alive])
  }

  /** Slot 2 is set aside for the bot, so this many humans have been seated. */
  predicate CanAdmit(w: World) {
    w.nextSlot - 1 < MAX_PLAYERS
  }

  function Drop(players: seq<Entity>, e: Entity): seq<Entity> {
    if |players| == 0 then []
    else
      var rest := Drop(players[..|players| - 1], e);
      if players[|players| - 1] == e then rest else rest + [players[|players| - 1]]
  }

  function RemovePlayer(w: World, e: Entity): World {
    if e !in w.players then w
    else
      var w1 := EmitDeath(w, e, 0);
      Repoint(w1.(players := Drop(w1.players, e), sessions := w1.sessions - {e},
                  hp := w1.hp - {e}, life := w1.life - {e}, knock := w1.knock - {e}), e, 0)
  }

  // ---------------------------------------------------------------- events

  datatype Event =
    | Damage(victim: Entity, attacker: Entity, dmg: nat, now: int, order: seq<Entity>)
    | Bleed(now: int, order: seq<Entity>)
    | RescueStart(reviver: Entity, target: Entity, now: int)
    | RescueStop(reviver: Entity, target: Entity)
    | RescueTick(now: int, order: seq<Entity>)
    | Medkit(p: Entity, now: int)
    | HealOne(p: Entity, now: int)
    | MushroomBuy(p: Entity, now: int)
    | EnergyOne(p: Entity, now: int)
    | EnergyReset(p: Entity)
    | RoundEnd
    | Revival
    | Arrival(prefer: nat)
    | Departure(e: Entity)
    | BotSpawn

  function Step(w: World, ev: Event): World {
    match ev
    case Damage(victim, attacker, dmg, now, order) => ApplyDamage(w, victim, attacker, dmg, now, order)
    case Bleed(now, order) => StepKnock(w, now, order)
    case RescueStart(reviver, target, now) => StartRescue(w, reviver, target, now)
    case RescueStop(reviver, target) => StopRescue(w, reviver, target)
    case RescueTick(now, order) => StepRescue(w, now, order)
    case Medkit(p, now) => UseMedkit(w, p, now)
    case HealOne(p, now) => StepHeal(w, p, now)
    case MushroomBuy(p, now) => GrantMushroom(w, p, now)
    case EnergyOne(p, now) => StepEP(w, p, now)
    case EnergyReset(p) => ResetEP(w, p)
    case RoundEnd => EndRound(w)
    case Revival => ReviveAll(w)
    case Arrival(prefer) => Join(w, prefer)
    case Departure(e) => RemovePlayer(w, e)
    case BotSpawn => SpawnBot(w)
  }

  function Run(w: World, run: seq<Event>): World {
    if |run| == 0 then w else Step(Run(w, run[..|run| - 1]), run[|run| - 1])
  }
}
