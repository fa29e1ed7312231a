/** match-server/match.go: the thirteen phases of a Contra Squad match, its best-of-N score and its
    teardown. Times are nanoseconds. What a tick sees of the rest of the match is an argument. */
module Phases {

  datatype Phase =
    | SetupBind | SetupGap | SetupWait | Prepare | Fight | MatchEndPause | PostBanner | PostReviveBind
    | PostBlack | IntroWait | Intro | MatchEnd | Cancelled

  /** Go's zero time stands for no deadline. */
  datatype Deadline = Never | At(time: int)

  /** The round counts, the switches, and the three pauses between rounds. */
  datatype Rules = Rules(
    maxRound: nat,
    roundsToWin: nat,
    isCustom: bool,
    matchBot: bool,
    postToBlack: int,
    postBlackHold: int,
    introHold: int)

  /** The clock, the standing members of the two teams, and the answers of teamsReady and deadHumans. */
  datatype Sight = Sight(now: int, localAlive: nat, enemyAlive: nat, ready: bool, anyDead: bool)

  /** teamScore and lossStreak are indexed by team - 1; results lists the winner of every finished round. */
  datatype State = State(
    phase: Phase,
    deadline: Deadline,
    round: nat,
    teamScore: seq<nat>,
    lossStreak: seq<nat>,
    started: bool,
    ended: bool,
    tearingDown: bool,
    closes: nat,
    bots: nat,
    winnerTeam: nat,
    results: seq<nat>)

  const LOCAL_TEAM: nat := 1
  const ENEMY_TEAM: nat := 2

  const SECOND: int := 1_000_000_000
  const BIND_DELAY: int := 150_000_000
  const SETUP_GAP: int := SECOND
  const SETUP_WAIT: int := 3 * SECOND
  const BUY_PHASE: int := 10 * SECOND
  const WAIT_PLAYERS: int := 30 * SECOND
  const CANCEL_HOLD: int := 10 * SECOND
  const HOLD: int := 21_600 * SECOND
  const MATCH_END_PAUSE: int := 500_000_000
  const MATCH_STATS_HOLD: int := 20 * SECOND

  /** The round count of a custom room, in Go's uint8. */
  function RoundsToWin(maxRound: nat): nat {
    (maxRound + 1) % 256 / 2
  }

  function Inc8(n: nat): nat {
    (n + 1) % 256
  }

  // ---------------------------------------------------------------- one tick

  function Enter(s: State, now: int, phase: Phase, dur: int): State {
    s.(phase := phase, deadline := if dur <= 0 then Never else At(now + dur))
  }

  function StartBuyPhase(s: State, now: int): State {
    Enter(s.(started := true), now, Prepare, BUY_PHASE)
  }

  function EnterPrepare(r: Rules, s: State, i: Sight): State {
    if !s.started && !i.ready then
      if r.isCustom then
        StartBuyPhase(if r.matchBot && s.bots == 0 then s.(bots := s.bots + 1) else s, i.now)
      else
        Enter(s, i.now, Prepare, WAIT_PLAYERS)
    else
      StartBuyPhase(s, i.now)
  }

  function Winner(i: Sight): nat {
    if i.localAlive > 0 then LOCAL_TEAM else ENEMY_TEAM
  }

  /** The score after a round. */
  function Scored(s: State, winner: nat): State
    requires winner == 1 || winner == 2
    requires |s.teamScore| == 2 && |s.lossStreak| == 2
  {
    s.(teamScore := s.teamScore[winner - 1 := Inc8(s.teamScore[winner - 1])],
       lossStreak := s.lossStreak[winner - 1 := 0][2 - winner := Inc8(s.lossStreak[2 - winner])],
       results := s.results + [winner])
  }

  function EndFight(r: Rules, s: State, i: Sight): (t: State)
    requires |s.teamScore| == 2 && |s.lossStreak| == 2
    ensures |t.teamScore| == 2 && |t.lossStreak| == 2
  {
    var s1 := Scored(s, Winner(i));
    if s1.teamScore[0] >= r.roundsToWin || s1.teamScore[1] >= r.roundsToWin || s1.round >= r.maxRound then
      Enter(s1.(winnerTeam := Winner(i)), i.now, MatchEndPause, MATCH_END_PAUSE)
    else
      Enter(s1, i.now, PostBanner, r.postToBlack)
  }

  function TearDown(s: State): State {
    if s.tearingDown then s else s.(tearingDown := true, closes := s.closes + 1)
  }

  /** The edge that fires when the deadline has passed. */
  function Edge(r: Rules, s: State, i: Sight): (t: State)
    ensures t.teamScore == s.teamScore && t.lossStreak == s.lossStreak && t.results == s.results
  {
    match s.phase
    case SetupBind => Enter(s, i.now, SetupGap, SETUP_GAP)
    case SetupGap => Enter(s, i.now, SetupWait, SETUP_WAIT)
    case SetupWait => EnterPrepare(r, s, i)
    case Prepare =>
      if s.started then Enter(s, i.now, Fight, HOLD)
      else if r.matchBot then StartBuyPhase(s.(bots := s.bots + 1), i.now)
      else Enter(s.(ended := true), i.now, Cancelled, CANCEL_HOLD)
    case Fight => s
    case MatchEndPause => Enter(s.(ended := true), i.now, MatchEnd, MATCH_STATS_HOLD)
    case PostBanner =>
      if i.anyDead then Enter(s, i.now, PostReviveBind, BIND_DELAY) else Enter(s, i.now, PostBlack, r.postBlackHold)
    case PostReviveBind => Enter(s, i.now, PostBlack, r.postBlackHold)
    case PostBlack => Enter(s.(round := s.round + 1), i.now, IntroWait, BIND_DELAY)
    case IntroWait => Enter(s, i.now, Intro, r.introHold)
    case Intro => EnterPrepare(r, s, i)
    case MatchEnd => TearDown(s)
    case Cancelled => TearDown(s)
  }

  predicate Passed(d: Deadline, now: int) {
    d.At? && now >= d.time
  }

  function Tick(r: Rules, s: State, i: Sight): (t: State)
    requires |s.teamScore| == 2 && |s.lossStreak| == 2
    ensures |t.teamScore| == 2 && |t.lossStreak| == 2
  {
    if s.phase.Fight? then
      if i.localAlive == 0 || i.enemyAlive == 0 then EndFight(r, s, i) else s
    else if s.phase.Prepare? && !s.started && i.ready then StartBuyPhase(s, i.now)
    else if !Passed(s.deadline, i.now) then s
    else Edge(r, s, i)
  }

  function Start(now: int): State {
    State(SetupBind, At(now + BIND_DELAY), 1, [0, 0], [0, 0], false, false, false, 0, 0, 0, [])
  }

  function Run(r: Rules, now: int, run: seq<Sight>): (s: State)
    ensures |s.teamScore| == 2 && |s.lossStreak| == 2
  {
    if |run| == 0 then Start(now) else Tick(r, Run(r, now, run[..|run| - 1]), run[|run| - 1])
  }

  // ---------------------------------------------------------------- what is kept

  function Wins(results: seq<nat>, team: nat): nat {
    if |results| == 0 then 0
    else Wins(results[..|results| - 1], team) + if results[|results| - 1] == team then 1 else 0
  }

  /** How many of the last rounds the team lost in a row. */
  function LossRun(results: seq<nat>, team: nat): (n: nat)
    ensures n <= |results|
  {
    if |results| == 0 || results[|results| - 1] == team then 0 else LossRun(results[..|results| - 1], team) + 1
  }

  /** The scoreboard agrees with the finished rounds. */
  ghost predicate Tallied(s: State) {
    && |s.teamScore| == 2 && |s.lossStreak| == 2
    && s.teamScore[0] + s.teamScore[1] == |s.results|
    && Credited(s, LOCAL_TEAM) && Credited(s, ENEMY_TEAM)
  }

  /** The score of a team is the rounds it won, its streak the rounds it lost since. */
  ghost predicate Credited(s: State, team: nat)
    requires |s.teamScore| == 2 && |s.lossStreak| == 2 && 1 <= team <= 2
  {
    s.teamScore[team - 1] == Wins(s.results, team) && s.lossStreak[team - 1] == LossRun(s.results, team)
  }

  predicate Over(p: Phase) {
    p.MatchEndPause? || p.MatchEnd?
  }

  /** The phases between the end of a round and the start of the next. */
  predicate Between(p: Phase) {
    p.PostBanner? || p.PostReviveBind? || p.PostBlack?
  }

  predicate Opening(p: Phase) {
    p.SetupBind? || p.SetupGap? || p.SetupWait?
  }

  /** Nobody has won yet and the round counter is one ahead of the finished rounds, except between rounds;
      or the match is over and exactly the last round's winner has reached the target. */
  ghost predicate Standings(s: State, target: nat)
    requires |s.teamScore| == 2
  {
    if Over(s.phase) then
      && |s.results| > 0 && s.round == |s.results|
      && s.winnerTeam == s.results[|s.results| - 1] && (s.winnerTeam == 1 || s.winnerTeam == 2)
      && s.teamScore[s.winnerTeam - 1] == target && s.teamScore[2 - s.winnerTeam] < target
    else
      && s.teamScore[0] < target && s.teamScore[1] < target
      && s.round == |s.results| + if Between(s.phase) then 0 else 1
  }

  /** Flags and teardown. */
  ghost predicate Flagged(r: Rules, s: State) {
    && (s.ended <==> s.phase.MatchEnd? || s.phase.Cancelled?)
    && (s.tearingDown ==> s.ended) && s.closes == (if s.tearingDown then 1 else 0)
    && (Opening(s.phase) || s.phase.Cancelled? ==> !s.started)
    && (!Opening(s.phase) && !s.phase.Cancelled? && !s.phase.Prepare? ==> s.started)
    && (!s.started ==> |s.results| == 0 && s.bots == 0)
    && s.bots <= 1 && (s.bots == 1 ==> r.matchBot)
  }

  ghost predicate Proper(r: Rules) {
    1 <= r.maxRound <= 254 && r.roundsToWin == (r.maxRound + 1) / 2
  }

  ghost predicate Invariant(r: Rules, s: State) {
    Tallied(s) && Standings(s, r.roundsToWin) && Flagged(r, s)
  }

  lemma RoundIsTallied(s: State, winner: nat)
    requires Tallied(s) && |s.results| < 255 && (winner == 1 || winner == 2)
    ensures Tallied(Scored(s, winner))
    ensures Scored(s, winner).teamScore[winner - 1] == s.teamScore[winner - 1] + 1
    ensures Scored(s, winner).teamScore[2 - winner] == s.teamScore[2 - winner]
  {
    hide Wins, LossRun;
    OneMoreResult(s.results, winner, LOCAL_TEAM);
    OneMoreResult(s.results, winner, ENEMY_TEAM);
    ScoredAt(s, winner);
  }

  /** Without a wrap the winner gains one and starts afresh, the loser's streak grows. */
  lemma ScoredAt(s: State, winner: nat)
    requires |s.teamScore| == 2 && |s.lossStreak| == 2 && (winner == 1 || winner == 2)
    requires s.teamScore[winner - 1] < 255 && s.lossStreak[2 - winner] < 255
    ensures var s1 := Scored(s, winner);
            && s1.results == s.results + [winner] && |s1.teamScore| == 2 && |s1.lossStreak| == 2
            && s1.teamScore[winner - 1] == s.teamScore[winner - 1] + 1 && s1.teamScore[2 - winner] == s.teamScore[2 - winner]
            && s1.lossStreak[winner - 1] == 0 && s1.lossStreak[2 - winner] == s.lossStreak[2 - winner] + 1
  {}

  lemma OneMoreResult(results: seq<nat>, winner: nat, team: nat)
    ensures Wins(results + [winner], team) == Wins(results, team) + if winner == team then 1 else 0
    ensures LossRun(results + [winner], team) == if winner == team then 0 else LossRun(results, team) + 1
  {
    assert (results + [winner])[..|results|] == results;
  }

  /** The round cap never decides alone: when a fight ends the match, its winner has reached the target. */
  lemma EndFightKeeps(r: Rules, s: State, i: Sight)
    requires Proper(r) && Invariant(r, s) && s.phase.Fight?
    ensures Invariant(r, EndFight(r, s, i))
    ensures var s' := EndFight(r, s, i); Over(s'.phase) <==> s'.teamScore[Winner(i) - 1] == r.roundsToWin
  {
    hide Wins, LossRun, Scored;
    RoundIsTallied(s, Winner(i));
    ScoredFrame(s, Winner(i));
  }

  lemma ScoredFrame(s: State, winner: nat)
    requires |s.teamScore| == 2 && |s.lossStreak| == 2 && (winner == 1 || winner == 2)
    ensures var s1 := Scored(s, winner);
            && s1 == s.(teamScore := s1.teamScore, lossStreak := s1.lossStreak, results := s1.results)
            && s1.results == s.results + [winner] && |s1.teamScore| == 2 && |s1.lossStreak| == 2
  {}

  /** Only the phase, the deadline, and the flags of a start differ. */
  ghost predicate Moved(s: State, s': State, next: Phase) {
    && s' == s.(phase := next, deadline := s'.deadline, round := s'.round, started := s'.started, ended := s'.ended,
                bots := s'.bots)
  }

  lemma EnterMoves(s: State, now: int, next: Phase)
    ensures forall dur :: Moved(s, Enter(s, now, next, dur), next) && Enter(s, now, next, dur).round == s.round
  {}

  lemma PrepareMoves(r: Rules, s: State, i: Sight)
    ensures Moved(s, EnterPrepare(r, s, i), Prepare) && EnterPrepare(r, s, i).round == s.round
    ensures Moved(s, StartBuyPhase(s, i.now), Prepare) && StartBuyPhase(s, i.now).round == s.round
  {}

  /** Where an edge leads. */
  function Next(r: Rules, s: State, i: Sight): Phase {
    match s.phase
    case SetupBind => SetupGap
    case SetupGap => SetupWait
    case SetupWait => Prepare
    case Prepare => if s.started then Fight else if r.matchBot then Prepare else Cancelled
    case Fight => Fight
    case MatchEndPause => MatchEnd
    case PostBanner => if i.anyDead then PostReviveBind else PostBlack
    case PostReviveBind => PostBlack
    case PostBlack => IntroWait
    case IntroWait => Intro
    case Intro => Prepare
    case MatchEnd => MatchEnd
    case Cancelled => Cancelled
  }

  lemma TearDownMoves(r: Rules, s: State, i: Sight)
    requires s.phase.MatchEnd? || s.phase.Cancelled?
    ensures var s' := Edge(r, s, i); s' == s.(tearingDown := s'.tearingDown, closes := s'.closes)
  {}

  /** An edge leads where Next says, and only one edge counts a round. */
  lemma EdgeMoves(r: Rules, s: State, i: Sight)
    ensures Moved(s, Edge(r, s, i), Next(r, s, i)) || s.phase.MatchEnd? || s.phase.Cancelled?
    ensures Edge(r, s, i).round == s.round + if s.phase.PostBlack? then 1 else 0
  {
    hide EnterPrepare, StartBuyPhase, Enter;
    PrepareMoves(r, s, i);
    PrepareMoves(r, s.(bots := s.bots + 1), i);
    EnterMoves(s, i.now, Next(r, s, i));
    EnterMoves(s.(ended := true), i.now, Next(r, s, i));
    EnterMoves(s.(round := s.round + 1), i.now, IntroWait);
  }

  lemma EdgeStandings(r: Rules, s: State, i: Sight)
    requires Tallied(s) && Standings(s, r.roundsToWin) && !s.phase.Fight?
    ensures Tallied(Edge(r, s, i)) && Standings(Edge(r, s, i), r.roundsToWin)
  {
    hide Wins, LossRun, Edge;
    EdgeMoves(r, s, i);
    if s.phase.MatchEnd? || s.phase.Cancelled? {
      TearDownMoves(r, s, i);
    }
  }

  lemma EdgeFlags(r: Rules, s: State, i: Sight)
    requires Flagged(r, s) && !s.phase.Fight?
    ensures Flagged(r, Edge(r, s, i))
  {}

  lemma EdgeKeeps(r: Rules, s: State, i: Sight)
    requires Proper(r) && Invariant(r, s) && !s.phase.Fight?
    ensures Invariant(r, Edge(r, s, i))
  {
    hide Edge, Tallied, Standings, Flagged;
    EdgeStandings(r, s, i);
    EdgeFlags(r, s, i);
  }

  lemma TickKeeps(r: Rules, s: State, i: Sight)
    requires Proper(r) && Invariant(r, s)
    ensures Invariant(r, Tick(r, s, i))
  {
    hide Wins, LossRun, EndFight, Edge;
    if s.phase.Fight? {
      EndFightKeeps(r, s, i);
    } else {
      EdgeKeeps(r, s, i);
    }
  }

  /** Over every run: the scores are the rounds won and sum to the rounds finished, the streaks count the
      rounds lost in a row, both scores stay below the target until the match is over, and then exactly
      the last round's winner stands at the target; the channel is closed at most once. */
  lemma {:induction false} RunKeeps(r: Rules, now: int, run: seq<Sight>)
    requires Proper(r)
    ensures Invariant(r, Run(r, now, run))
  {
    hide Tick;
    if |run| > 0 {
      RunKeeps(r, now, run[..|run| - 1]);
      TickKeeps(r, Run(r, now, run[..|run| - 1]), run[|run| - 1]);
    }
  }

  // ---------------------------------------------------------------- the exact round counts

  ghost predicate WinnersReachTarget(r: Rules) {
    forall now, run :: var s := Run(r, now, run);
      Over(s.phase) ==> 1 <= s.winnerTeam <= 2 && s.teamScore[s.winnerTeam - 1] == (r.maxRound + 1) / 2
  }

  function EnemyDown(now: int): Sight {
    Sight(now, 1, 0, true, false)
  }

  /** Balanced teams, and a first round that the local team wins; every tick comes after its deadline. */
  function FirstRound(): seq<Sight> {
    var late := HOLD + BUY_PHASE;
    [EnemyDown(late), EnemyDown(2 * late), EnemyDown(3 * late), EnemyDown(4 * late), EnemyDown(5 * late)]
  }

  lemma OneMoreTick(r: Rules, now: int, run: seq<Sight>, i: Sight)
    ensures Run(r, now, run + [i]) == Tick(r, Run(r, now, run), i)
  {
    hide Tick;
    assert (run + [i])[..|run|] == run;
  }

  lemma Opened(r: Rules, i: Sight, j: Sight, k: Sight)
    requires i.ready && j.ready && k.ready
    requires BIND_DELAY <= i.now && i.now + SETUP_GAP <= j.now && j.now + SETUP_WAIT <= k.now
    ensures Run(r, 0, [i, j, k]) == Start(0).(phase := Prepare, deadline := At(k.now + BUY_PHASE), started := true)
  {
    OneMoreTick(r, 0, [], i);
    OneMoreTick(r, 0, [i], j);
    OneMoreTick(r, 0, [i, j], k);
    assert [] + [i] == [i] && [i] + [j] == [i, j] && [i, j] + [k] == [i, j, k];
  }

  /** In a 255-round match the target wraps to nothing, and the first round ends the match. */
  lemma FirstRoundEndsLongestMatch(r: Rules)
    requires r.maxRound == 255 && r.roundsToWin == RoundsToWin(255)
    ensures var s := Run(r, 0, FirstRound()); s.phase == MatchEndPause && s.winnerTeam == 1 && s.teamScore == [1, 0]
  {
    hide Run;
    var run := FirstRound();
    Opened(r, run[0], run[1], run[2]);
    OneMoreTick(r, 0, [run[0], run[1], run[2]], run[3]);
    OneMoreTick(r, 0, [run[0], run[1], run[2], run[3]], run[4]);
    assert [run[0], run[1], run[2]] + [run[3]] == [run[0], run[1], run[2], run[3]];
    assert [run[0], run[1], run[2], run[3]] + [run[4]] == run;
  }

  /** Among the round counts of a custom room, the winner reaches (rounds + 1) / 2 unless there are 255. */
  lemma RoundCounts(r: Rules)
    requires 1 <= r.maxRound <= 255 && r.roundsToWin == RoundsToWin(r.maxRound)
    ensures WinnersReachTarget(r) <==> r.maxRound <= 254
  {
    hide Run;
    if r.maxRound <= 254 {
      forall now, run ensures var s := Run(r, now, run);
          Over(s.phase) ==> 1 <= s.winnerTeam <= 2 && s.teamScore[s.winnerTeam - 1] == (r.maxRound + 1) / 2
      {
        RunKeeps(r, now, run);
      }
    } else {
      FirstRoundEndsLongestMatch(r);
      assert Over(Run(r, 0, FirstRound()).phase);
    }
  }

  // ---------------------------------------------------------------- every match ends

  ghost predicate Positive(r: Rules) {
    r.postToBlack > 0 && r.postBlackHold > 0 && r.introHold > 0
  }

  /** Every phase but a fight has a deadline. */
  ghost predicate Timed(s: State) {
    s.deadline.At?
  }

  /** Rounds left, then the place in the cycle of phases, then whether the match has started. */
  function Measure(r: Rules, s: State): int {
    match s.phase
    case MatchEndPause => 2
    case MatchEnd => if s.tearingDown then 0 else 1
    case Cancelled => if s.tearingDown then 0 else 1
    case _ => 8 * (2 * r.roundsToWin - 1 - |s.results|) + Rank(s.phase, s.started)
  }

  function Rank(p: Phase, started: bool): nat {
    match p
    case SetupBind => 6
    case SetupGap => 5
    case SetupWait => 4
    case PostBanner => 7
    case PostReviveBind => 6
    case PostBlack => 5
    case IntroWait => 4
    case Intro => 3
    case Prepare => if started then 2 else 3
    case _ => 1
  }

  /** The tick comes after the deadline or, in a fight, sees a team down. */
  predicate Due(s: State, i: Sight) {
    if s.phase.Fight? then i.localAlive == 0 || i.enemyAlive == 0 else Passed(s.deadline, i.now)
  }

  /** Every due tick lowers the measure, and no tick raises it. */
  lemma TickProgress(r: Rules, s: State, i: Sight)
    requires Proper(r) && Positive(r) && Invariant(r, s) && Timed(s)
    ensures var s' := Tick(r, s, i);
            && Timed(s') && 0 <= Measure(r, s') <= Measure(r, s)
            && (Due(s, i) && !s.tearingDown ==> Measure(r, s') < Measure(r, s))
  {
    hide Wins, LossRun, Scored, Edge, EndFight, Measure;
    NeverNegative(r, s);
    if s.phase.Fight? {
      if i.localAlive == 0 || i.enemyAlive == 0 {
        FightProgress(r, s, i);
      }
    } else if s.phase.Prepare? && !s.started && i.ready {
      OpeningProgress(r, s, i.now);
    } else if Passed(s.deadline, i.now) {
      EdgeProgress(r, s, i);
    }
  }

  lemma NeverNegative(r: Rules, s: State)
    requires Proper(r) && Invariant(r, s)
    ensures 0 <= Measure(r, s)
  {
    hide Wins, LossRun;
  }

  lemma FightProgress(r: Rules, s: State, i: Sight)
    requires Proper(r) && Positive(r) && Invariant(r, s) && s.phase.Fight?
    ensures var s' := EndFight(r, s, i); Timed(s') && 0 <= Measure(r, s') < Measure(r, s)
  {
    hide Wins, LossRun, Scored;
    RoundIsTallied(s, Winner(i));
    ScoredFrame(s, Winner(i));
  }

  lemma OpeningProgress(r: Rules, s: State, now: int)
    requires Proper(r) && Invariant(r, s) && s.phase.Prepare? && !s.started
    ensures var s' := StartBuyPhase(s, now); Timed(s') && 0 <= Measure(r, s') < Measure(r, s)
  {
    hide Wins, LossRun;
  }

  lemma EdgeProgress(r: Rules, s: State, i: Sight)
    requires Proper(r) && Positive(r) && Invariant(r, s) && Timed(s) && !s.phase.Fight?
    ensures var s' := Edge(r, s, i);
            Timed(s') && 0 <= Measure(r, s') <= Measure(r, s) && (!s.tearingDown ==> Measure(r, s') < Measure(r, s))
  {
    hide Invariant, Edge, Measure, Proper;
    EdgeTimed(r, s, i);
    EdgeLowers(r, s, i);
    EdgeKeeps(r, s, i);
    NeverNegative(r, Edge(r, s, i));
  }

  lemma EdgeTimed(r: Rules, s: State, i: Sight)
    requires Positive(r) && Timed(s)
    ensures Timed(Edge(r, s, i))
  {
    hide Enter;
    var bot := s.(bots := s.bots + 1);
    EnterTimed(s, i.now);
    EnterTimed(bot, i.now);
    EnterTimed(s.(started := true), i.now);
    EnterTimed(bot.(started := true), i.now);
    EnterTimed(s.(ended := true), i.now);
    EnterTimed(s.(round := s.round + 1), i.now);
  }

  lemma EnterTimed(s: State, now: int)
    ensures forall next, dur :: dur > 0 ==> Timed(Enter(s, now, next, dur))
  {}

  /** Every edge goes on in the cycle of phases, or tears the match down. */
  lemma EdgeLowers(r: Rules, s: State, i: Sight)
    requires Proper(r) && Invariant(r, s) && !s.phase.Fight?
    ensures Measure(r, Edge(r, s, i)) <= Measure(r, s)
    ensures !s.tearingDown ==> Measure(r, Edge(r, s, i)) < Measure(r, s)
  {
    hide Edge, Tallied, Standings, Enter;
    if s.phase.MatchEnd? || s.phase.Cancelled? {
      TornDown(r, s, i);
    } else {
      EdgeMoves(r, s, i);
      if (s.phase.Prepare? && !s.started && r.matchBot) || (s.phase.Intro? && s.started) {
        StartedAfter(r, s, i);
      }
      if !Over(s.phase) {
        Remaining(r, s);
      }
    }
  }

  lemma TornDown(r: Rules, s: State, i: Sight)
    requires s.phase.MatchEnd? || s.phase.Cancelled?
    ensures Edge(r, s, i).phase == s.phase && Edge(r, s, i).tearingDown
  {}

  /** An edge into the buy phase starts the match unless it waits for players for the first time. */
  lemma StartedAfter(r: Rules, s: State, i: Sight)
    requires (s.phase.Prepare? && !s.started && r.matchBot) || (s.phase.Intro? && s.started)
    ensures Edge(r, s, i).phase.Prepare? && Edge(r, s, i).started
  {}

  lemma Remaining(r: Rules, s: State)
    requires Proper(r) && Invariant(r, s) && !Over(s.phase)
    ensures |s.results| <= 2 * r.roundsToWin - 2
  {
    hide Wins, LossRun;
  }

  function DueTicks(r: Rules, now: int, run: seq<Sight>): nat {
    if |run| == 0 then 0
    else
      var s := Run(r, now, run[..|run| - 1]);
      DueTicks(r, now, run[..|run| - 1]) + if Due(s, run[|run| - 1]) && !s.tearingDown then 1 else 0
  }

  lemma StartMeasure(r: Rules, now: int)
    ensures Measure(r, Start(now)) == 8 * (2 * r.roundsToWin - 1) + 6
  {}

  lemma {:induction false} RunProgress(r: Rules, now: int, run: seq<Sight>)
    requires Proper(r) && Positive(r)
    ensures var s := Run(r, now, run);
            && Timed(s) && 0 <= Measure(r, s)
            && DueTicks(r, now, run) + Measure(r, s) <= 8 * (2 * r.roundsToWin - 1) + 6
  {
    hide Tick, Measure, Due;
    if |run| == 0 {
      StartMeasure(r, now);
    } else {
      var init := run[..|run| - 1];
      RunProgress(r, now, init);
      RunKeeps(r, now, init);
      TickProgress(r, Run(r, now, init), run[|run| - 1]);
    }
  }

  /** Every tick comes after its deadline, and every fight comes to an end. */
  ghost predicate Prompt(r: Rules, now: int, run: seq<Sight>) {
    forall n :: 0 <= n < |run| ==> Due(Run(r, now, run[..n]), run[n]) || Run(r, now, run[..n]).tearingDown
  }

  lemma {:induction false} PromptTicks(r: Rules, now: int, run: seq<Sight>)
    requires Proper(r) && Prompt(r, now, run) && !Run(r, now, run).tearingDown
    ensures DueTicks(r, now, run) == |run|
  {
    hide Due, Tick;
    if |run| > 0 {
      var init := run[..|run| - 1];
      assert Due(Run(r, now, init), run[|run| - 1]) || Run(r, now, init).tearingDown;
      forall n | 0 <= n < |init| ensures Due(Run(r, now, init[..n]), init[n]) || Run(r, now, init[..n]).tearingDown {
        assert init[..n] == run[..n];
      }
      RunKeeps(r, now, init);
      if Run(r, now, init).tearingDown {
        TornStays(r, Run(r, now, init), run[|run| - 1]);
      }
      PromptTicks(r, now, init);
    }
  }

  lemma TornStays(r: Rules, s: State, i: Sight)
    requires Invariant(r, s) && s.tearingDown
    ensures Tick(r, s, i) == s
  {
    hide Wins, LossRun, EndFight;
  }

  /** However the rounds go, 16 * roundsToWin - 2 such ticks bring the match to its end or to its
      cancellation, with the channel closed once. Late ticks only delay it: the due ones are counted. */
  lemma EveryMatchEnds(r: Rules, now: int, run: seq<Sight>)
    requires Proper(r) && Positive(r)
    ensures DueTicks(r, now, run) <= 16 * r.roundsToWin - 2
    ensures var s := Run(r, now, run);
            Prompt(r, now, run) && |run| >= 16 * r.roundsToWin - 2 ==>
              s.tearingDown && s.closes == 1 && (s.phase.MatchEnd? || s.phase.Cancelled?)
  {
    hide Tick, Run, Due, Prompt, DueTicks;
    RunProgress(r, now, run);
    RunKeeps(r, now, run);
    if Prompt(r, now, run) && !Run(r, now, run).tearingDown {
      PromptTicks(r, now, run);
    }
  }

  // ---------------------------------------------------------------- the match object

  class CSMatch {
    const rules: Rules
    var phase: Phase
    var deadline: Deadline
    var round: nat
    var teamScore: seq<nat>
    var lossStreak: seq<nat>
    var started: bool
    var ended: bool
    var tearingDown: bool
    var bots: nat
    var winnerTeam: nat
    ghost var closes: nat
    ghost var results: seq<nat>

    ghost function Value(): State
      reads this
    {
      State(phase, deadline, round, teamScore, lossStreak, started, ended, tearingDown, closes, bots, winnerTeam, results)
    }

    ghost predicate Valid()
      reads this
    {
      Proper(rules) && Invariant(rules, Value())
    }

    constructor (r: Rules, now: int)
      requires Proper(r)
      ensures rules == r && Value() == Start(now) && Valid()
    {
      rules := r;
      phase := SetupBind;
      deadline := At(now + BIND_DELAY);
      round := 1;
      teamScore := [0, 0];
      lossStreak := [0, 0];
      started := false;
      ended := false;
      tearingDown := false;
      bots := 0;
      winnerTeam := 0;
      closes := 0;
      results := [];
      new;
      RunKeeps(r, now, []);
    }

    method EnterPhase(now: int, next: Phase, dur: int)
      modifies this`phase, this`deadline
      ensures Value() == Enter(old(Value()), now, next, dur)
    {
      phase := next;
      if dur <= 0 {
        deadline := Never;
      } else {
        deadline := At(now + dur);
      }
    }

    method StartBuy(now: int)
      modifies this`phase, this`deadline, this`started
      ensures Value() == StartBuyPhase(old(Value()), now)
    {
      started := true;
      EnterPhase(now, Prepare, BUY_PHASE);
    }

    method EnterBuy(i: Sight)
      modifies this`phase, this`deadline, this`started, this`bots
      ensures Value() == EnterPrepare(rules, old(Value()), i)
    {
      if !started && !i.ready {
        if rules.isCustom {
          if rules.matchBot && bots == 0 {
            bots := bots + 1;
          }
          StartBuy(i.now);
          return;
        }
        EnterPhase(i.now, Prepare, WAIT_PLAYERS);
        return;
      }
      StartBuy(i.now);
    }

    method FinishFight(i: Sight)
      requires |teamScore| == 2 && |lossStreak| == 2
      modifies this
      ensures Value() == EndFight(rules, old(Value()), i)
    {
      hide Scored;
      var winner := CreditWin(i);
      ScoredFrame(old(Value()), winner);
      if teamScore[0] >= rules.roundsToWin || teamScore[1] >= rules.roundsToWin || round >= rules.maxRound {
        winnerTeam := winner;
        EnterPhase(i.now, MatchEndPause, MATCH_END_PAUSE);
        return;
      }
      EnterPhase(i.now, PostBanner, rules.postToBlack);
    }

    method CreditWin(i: Sight) returns (winner: nat)
      requires |teamScore| == 2 && |lossStreak| == 2
      modifies this`teamScore, this`lossStreak, this`results
      ensures winner == Winner(i) && Value() == Scored(old(Value()), winner)
    {
      winner := LOCAL_TEAM;
      if i.localAlive > 0 {
        teamScore := teamScore[0 := Inc8(teamScore[0])];
      } else {
        winner := ENEMY_TEAM;
        teamScore := teamScore[1 := Inc8(teamScore[1])];
      }
      lossStreak := lossStreak[winner - 1 := 0];
      lossStreak := lossStreak[2 - winner := Inc8(lossStreak[2 - winner])];
      results := results + [winner];
    }

    method CloseDone()
      modifies this`tearingDown, this`closes
      ensures Value() == TearDown(old(Value()))
    {
      if !tearingDown {
        tearingDown := true;
        closes := closes + 1;
      }
    }

    method FireEdge(i: Sight)
      modifies this
      ensures Value() == Edge(rules, old(Value()), i)
    {
      match phase {
        case SetupBind => EnterPhase(i.now, SetupGap, SETUP_GAP);
        case SetupGap => EnterPhase(i.now, SetupWait, SETUP_WAIT);
        case SetupWait => EnterBuy(i);
        case Prepare =>
          if started {
            EnterPhase(i.now, Fight, HOLD);
          } else if rules.matchBot {
            bots := bots + 1;
            StartBuy(i.now);
          } else {
            ended := true;
            EnterPhase(i.now, Cancelled, CANCEL_HOLD);
          }
        case Fight =>
        case MatchEndPause =>
          ended := true;
          EnterPhase(i.now, MatchEnd, MATCH_STATS_HOLD);
        case PostBanner =>
          if i.anyDead {
            EnterPhase(i.now, PostReviveBind, BIND_DELAY);
          } else {
            EnterPhase(i.now, PostBlack, rules.postBlackHold);
          }
        case PostReviveBind => EnterPhase(i.now, PostBlack, rules.postBlackHold);
        case PostBlack =>
          round := round + 1;
          EnterPhase(i.now, IntroWait, BIND_DELAY);
        case IntroWait => EnterPhase(i.now, Intro, rules.introHold);
        case Intro => EnterBuy(i);
        case MatchEnd => CloseDone();
        case Cancelled => CloseDone();
      }
    }

    method AdvancePhase(i: Sight)
      requires Valid()
      modifies this
      ensures Value() == Tick(rules, old(Value()), i) && Valid()
    {
      hide EndFight, Edge, Wins, LossRun, Standings, Flagged;
      TickKeeps(rules, Value(), i);
      if phase == Fight {
        if i.localAlive == 0 || i.enemyAlive == 0 {
          FinishFight(i);
        }
        return;
      }
      if phase == Prepare && !started && i.ready {
        StartBuy(i.now);
        return;
      }
      if !Passed(deadline, i.now) {
        return;
      }
      FireEdge(i);
    }
  }
}
