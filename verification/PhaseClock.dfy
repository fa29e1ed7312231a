/** When the phases of a match give way to the next, over every run: how long each lasts, when a match may
    start, and when it is cancelled. */
module PhaseClock {
  import opened Phases

  /** How long a phase lasts, in nanoseconds. Before the start, Prepare is the hold for players. */
  function Lasts(r: Rules, p: Phase, started: bool): int {
    match p
    case SetupBind => 150_000_000
    case SetupGap => 1_000_000_000
    case SetupWait => 3_000_000_000
    case Prepare => if started then 10_000_000_000 else 30_000_000_000
    case Fight => 21_600_000_000_000
    case MatchEndPause => 500_000_000
    case PostBanner => r.postToBlack
    case PostReviveBind => 150_000_000
    case PostBlack => r.postBlackHold
    case IntroWait => 150_000_000
    case Intro => r.introHold
    case MatchEnd => 20_000_000_000
    case Cancelled => 10_000_000_000
  }

  /** Another phase, or the buy phase after the hold. */
  ghost predicate Changed(s: State, s': State) {
    s'.phase != s.phase || s'.started != s.started
  }

  /** The number of ticks up to the last that changed the phase. */
  ghost function LastChange(r: Rules, now: int, run: seq<Sight>): (n: nat)
    ensures n <= |run|
  {
    if |run| == 0 then 0
    else if Changed(Run(r, now, run[..|run| - 1]), Run(r, now, run)) then |run|
    else LastChange(r, now, run[..|run| - 1])
  }

  ghost predicate NoChange(r: Rules, now: int, run: seq<Sight>, m: nat)
    requires m < |run|
  {
    !Changed(Run(r, now, run[..m]), Run(r, now, run[..m + 1]))
  }

  lemma {:induction false} LastChangeIsLast(r: Rules, now: int, run: seq<Sight>)
    ensures var n := LastChange(r, now, run);
            && (n > 0 ==> Changed(Run(r, now, run[..n - 1]), Run(r, now, run[..n])))
            && forall m: nat :: n <= m < |run| ==> NoChange(r, now, run, m)
  {
    hide Run, Changed;
    if |run| > 0 {
      var init := run[..|run| - 1];
      assert run[..|run|] == run;
      if !Changed(Run(r, now, init), Run(r, now, run)) {
        LastChangeIsLast(r, now, init);
        var n := LastChange(r, now, init);
        assert n > 0 ==> init[..n - 1] == run[..n - 1] && init[..n] == run[..n];
        forall m: nat | n <= m < |run| ensures NoChange(r, now, run, m) {
          if m < |init| {
            assert NoChange(r, now, init, m);
            assert init[..m] == run[..m] && init[..m + 1] == run[..m + 1];
          }
        }
      }
    }
  }

  /** The time of that tick, or of the start. */
  ghost function Since(r: Rules, now: int, run: seq<Sight>): int {
    var n := LastChange(r, now, run);
    if n == 0 then now else run[n - 1].now
  }

  /** A tick that changes the phase gives it its time from now on, and any other leaves the deadline. */
  lemma TickClock(r: Rules, s: State, i: Sight)
    requires Positive(r) && Invariant(r, s)
    ensures var s' := Tick(r, s, i);
            s'.deadline == if Changed(s, s') then At(i.now + Lasts(r, s'.phase, s'.started)) else s.deadline
  {
    hide Credited, Standings, Scored;
    if s.phase.Fight? {
      ScoredFrame(s, Winner(i));
    }
  }

  /** Over every run the deadline stands where the phase began, and its time later. */
  lemma {:induction false} RunClock(r: Rules, now: int, run: seq<Sight>)
    requires Proper(r) && Positive(r)
    ensures var s := Run(r, now, run); s.deadline == At(Since(r, now, run) + Lasts(r, s.phase, s.started))
  {
    hide Tick, Invariant, Lasts, Proper, Positive;
    if |run| == 0 {
      ClockAtStart(r, now);
    } else {
      var init := run[..|run| - 1];
      RunClock(r, now, init);
      RunKeeps(r, now, init);
      TickClock(r, Run(r, now, init), run[|run| - 1]);
      var n := LastChange(r, now, init);
      assert n > 0 ==> init[n - 1] == run[n - 1];
    }
  }

  lemma ClockAtStart(r: Rules, now: int)
    ensures Run(r, now, []) == Start(now) && Start(now).deadline == At(now + Lasts(r, SetupBind, false))
  {}

  // ---------------------------------------------------------------- leaving a phase

  /** The phase has lasted its time. */
  ghost predicate TimeIsUp(r: Rules, now: int, run: seq<Sight>, i: Sight) {
    var s := Run(r, now, run);
    i.now >= Since(r, now, run) + Lasts(r, s.phase, s.started)
  }

  predicate Final(p: Phase) {
    p.MatchEnd? || p.Cancelled?
  }

  lemma TickChanges(r: Rules, s: State, i: Sight)
    requires Invariant(r, s)
    ensures Changed(s, Tick(r, s, i))
       <==> if s.phase.Fight? then i.localAlive == 0 || i.enemyAlive == 0
            else (s.phase.Prepare? && !s.started && i.ready) || (Passed(s.deadline, i.now) && !Final(s.phase))
    ensures s.phase.PostBanner? && Changed(s, Tick(r, s, i)) ==> (Tick(r, s, i).phase.PostReviveBind? <==> i.anyDead)
  {
    hide Credited, Standings, Scored;
    if s.phase.Fight? {
      ScoredFrame(s, Winner(i));
    }
  }

  /** Over every run: a fight is left by the tick that sees a team down, the hold for players by one that sees
      both teams ready, and apart from that a phase is left by the first tick after its time, and none before. */
  lemma PhasesLast(r: Rules, now: int, run: seq<Sight>, i: Sight)
    requires Proper(r) && Positive(r)
    ensures var s, s' := Run(r, now, run), Tick(r, Run(r, now, run), i);
            && (Changed(s, s')
                <==> if s.phase.Fight? then i.localAlive == 0 || i.enemyAlive == 0
                     else (s.phase.Prepare? && !s.started && i.ready) || (TimeIsUp(r, now, run, i) && !Final(s.phase)))
            && (s.phase.PostBanner? && Changed(s, s') ==> (s'.phase.PostReviveBind? <==> i.anyDead))
  {
    hide Run, Tick, Invariant, Proper, Positive, Lasts, Changed, Since;
    RunKeeps(r, now, run);
    RunClock(r, now, run);
    TickChanges(r, Run(r, now, run), i);
  }

  /** A fight ends with the round for the team that stands, and for the second when neither does: its score
      goes up and its losses are forgotten, the other's go up, and it has won the match if that is its last
      round to win. */
  lemma RoundGoesTo(r: Rules, s: State, i: Sight)
    requires Proper(r) && Invariant(r, s) && s.phase.Fight? && (i.localAlive == 0 || i.enemyAlive == 0)
    ensures var s', w := Tick(r, s, i), if i.localAlive == 0 then 2 else 1;
            && s'.results == s.results + [w]
            && s'.teamScore == s.teamScore[w - 1 := s.teamScore[w - 1] + 1]
            && s'.lossStreak == s.lossStreak[w - 1 := 0][2 - w := s.lossStreak[2 - w] + 1]
            && (if s.teamScore[w - 1] + 1 == r.roundsToWin then s'.phase.MatchEndPause? && s'.winnerTeam == w
                else s'.phase.PostBanner? && s'.winnerTeam == s.winnerTeam)
  {
    hide Wins, LossRun;
    EndFightKeeps(r, s, i);
    FewRounds(r, s);
  }

  lemma FewRounds(r: Rules, s: State)
    requires Proper(r) && Invariant(r, s) && s.phase.Fight?
    ensures s.teamScore[0] < 255 && s.teamScore[1] < 255 && s.lossStreak[0] < 255 && s.lossStreak[1] < 255
  {
    hide Wins;
  }

  // ---------------------------------------------------------------- the start of a match

  /** A custom room is not held for players and not cancelled. */
  ghost predicate RoomGoesOn(s: State) {
    !s.phase.Cancelled? && (s.phase.Prepare? ==> s.started)
  }

  lemma TickGoesOn(r: Rules, s: State, i: Sight)
    requires r.isCustom && RoomGoesOn(s) && Invariant(r, s)
    ensures RoomGoesOn(Tick(r, s, i))
  {
    hide Credited, Standings, Scored;
    if s.phase.Fight? {
      ScoredFrame(s, Winner(i));
    }
  }

  lemma {:induction false} RoomsGoOn(r: Rules, now: int, run: seq<Sight>)
    requires Proper(r) && r.isCustom
    ensures RoomGoesOn(Run(r, now, run))
  {
    hide Tick, Invariant;
    if |run| > 0 {
      RoomsGoOn(r, now, run[..|run| - 1]);
      RunKeeps(r, now, run[..|run| - 1]);
      TickGoesOn(r, Run(r, now, run[..|run| - 1]), run[|run| - 1]);
    }
  }

  /** What a tick does to a match that has not started. */
  lemma TickStarts(r: Rules, s: State, i: Sight)
    requires Invariant(r, s) && !s.started && (r.isCustom ==> RoomGoesOn(s))
    ensures var s', due := Tick(r, s, i), Passed(s.deadline, i.now);
            && (s'.started <==> || (s.phase.SetupWait? && due && (r.isCustom || i.ready))
                                || (s.phase.Prepare? && !r.isCustom && (i.ready || (due && r.matchBot))))
            && (s'.bots > s.bots <==> r.matchBot && !i.ready && due && if r.isCustom then s.phase.SetupWait? else s.phase.Prepare?)
            && (s'.phase.Cancelled? && !s.phase.Cancelled?
                <==> s.phase.Prepare? && !r.isCustom && !r.matchBot && !i.ready && due)
  {
    hide Credited, Standings, Scored;
  }

  /** Over every run: a custom room is started by the tick that leaves SetupWait, with the bot if it is switched
      on and a team is short, and is never cancelled. Any other match is started by a tick that sees both teams
      ready after SetupWait, or by one that comes thirty seconds or more after the hold for players began and
      brings the bot; without the bot that tick cancels it. */
  lemma MatchStarts(r: Rules, now: int, run: seq<Sight>, i: Sight)
    requires Proper(r) && Positive(r) && !Run(r, now, run).started
    ensures var s, s' := Run(r, now, run), Tick(r, Run(r, now, run), i);
            var since := Since(r, now, run);
            && (r.isCustom ==>
                  && (s'.started <==> s.phase.SetupWait? && i.now >= since + 3_000_000_000)
                  && (s'.bots > s.bots <==> s'.started && r.matchBot && !i.ready)
                  && !s'.phase.Cancelled?)
            && (!r.isCustom ==>
                  var expired := s.phase.Prepare? && i.now >= since + 30_000_000_000 && !i.ready;
                  && (s'.started <==> || (s.phase.SetupWait? && i.now >= since + 3_000_000_000 && i.ready)
                                      || (s.phase.Prepare? && i.ready) || (expired && r.matchBot))
                  && (s'.bots > s.bots <==> expired && r.matchBot)
                  && (s'.phase.Cancelled? && !s.phase.Cancelled? <==> expired && !r.matchBot))
  {
    hide Run, Tick, Invariant, Proper, Positive, Since, RoomGoesOn;
    RunKeeps(r, now, run);
    RunClock(r, now, run);
    if r.isCustom {
      RoomsGoOn(r, now, run);
      StartedRoom(Run(r, now, run));
    }
    TickStarts(r, Run(r, now, run), i);
  }

  lemma StartedRoom(s: State)
    requires RoomGoesOn(s) && !s.started
    ensures !s.phase.Prepare? && !s.phase.Cancelled?
  {}

  /** The hold for players begins with the tick that leaves SetupWait. */
  lemma HoldBegins(r: Rules, now: int, run: seq<Sight>)
    requires Proper(r) && Run(r, now, run).phase.Prepare? && !Run(r, now, run).started
    ensures var n := LastChange(r, now, run);
            n > 0 && Run(r, now, run[..n - 1]).phase.SetupWait? && Run(r, now, run[..n]).phase.Prepare?
  {
    hide Run, Tick, Invariant, Proper;
    var n := LastChange(r, now, run);
    LastChangeIsLast(r, now, run);
    StaysFrom(r, now, run, n);
    RunsNothing(r, now);
    assert run[..0] == [];
    if n > 0 {
      RunKeeps(r, now, run[..n - 1]);
      RunOneTick(r, now, run, n);
      FromSetupWait(r, Run(r, now, run[..n - 1]), run[n - 1]);
    }
  }

  lemma RunsNothing(r: Rules, now: int)
    ensures Run(r, now, []) == Start(now)
  {}

  lemma RunOneTick(r: Rules, now: int, run: seq<Sight>, n: nat)
    requires 0 < n <= |run|
    ensures Run(r, now, run[..n]) == Tick(r, Run(r, now, run[..n - 1]), run[n - 1])
  {
    hide Tick;
    assert run[..n][..n - 1] == run[..n - 1];
  }

  lemma {:induction false} StaysFrom(r: Rules, now: int, run: seq<Sight>, n: nat)
    requires n <= |run| && forall m: nat :: n <= m < |run| ==> NoChange(r, now, run, m)
    ensures !Changed(Run(r, now, run[..n]), Run(r, now, run))
    decreases |run| - n
  {
    hide Run;
    if n == |run| {
      assert run[..n] == run;
    } else {
      assert NoChange(r, now, run, n);
      StaysFrom(r, now, run, n + 1);
    }
  }

  lemma FromSetupWait(r: Rules, s: State, i: Sight)
    requires Invariant(r, s)
    requires var s' := Tick(r, s, i); Changed(s, s') && s'.phase.Prepare? && !s'.started
    ensures s.phase.SetupWait?
  {
    hide Credited, Standings, Scored;
    if s.phase.Fight? {
      ScoredFrame(s, Winner(i));
    }
  }
}
