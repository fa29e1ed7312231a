/** match-server/medkit.go and match-server/ep.go: the two healing effects of a player. Times are
    nanoseconds. */
module Vitals {

  const MEDKIT_STEPS: nat := 75
  const MEDKIT_INTERVAL: nat := 66_666_666 // five seconds / 75
  const EP_PER_MUSHROOM: nat := 100
  const MAX_EP: nat := 200
  const EP_INTERVAL: nat := 250_000_000

  /** Largest full HP for which no healing step leaves 16 bits. */
  const MAX_SAFE_HP: nat := 0xFFFF + 1 - MAX_EP

  function Min(a: int, b: int): int {
    if a < b then a else b
  }

  function Max(a: int, b: int): int {
    if a < b then b else a
  }

  /** Go's division of durations, which truncates toward zero. */
  function Div(a: int, b: nat): int
    requires b > 0
  {
    if a >= 0 then a / b else -(-a / b)
  }

  function Wrap16(n: nat): (m: nat)
    ensures m < 0x1_0000
  {
    n % 0x1_0000
  }

  // ---------------------------------------------------------------- medkit

  datatype Heal = Heal(active: bool, start: int, applied: nat)

  const NO_HEAL: Heal := Heal(false, 0, 0)

  /** One tick of stepHeal on the heal record and the player's HP. */
  function HealTick(h: Heal, hp: nat, alive: bool, maxHP: nat, now: int): (Heal, nat) {
    if !h.active then (h, hp)
    else if !alive then (h.(active := false), hp)
    else
      var want := Min(Div(now - h.start, MEDKIT_INTERVAL), MEDKIT_STEPS);
      var applied := if want > h.applied then want else h.applied;
      var hp' := if want > h.applied then Min(Wrap16(hp + (want - h.applied)), maxHP) else hp;
      (Heal(applied < MEDKIT_STEPS && hp' < maxHP, h.start, applied), hp')
  }

  /** HP after the given number of heal steps without any other change. */
  function HealedBy(hp0: nat, maxHP: nat, steps: int): int {
    if steps <= 0 then hp0 else Min(maxHP, hp0 + Min(steps, MEDKIT_STEPS))
  }

  function HealTicks(h: Heal, hp: nat, maxHP: nat, ticks: seq<int>): (Heal, nat) {
    if |ticks| == 0 then (h, hp)
    else
      var s := HealTicks(h, hp, maxHP, ticks[..|ticks| - 1]);
      HealTick(s.0, s.1, true, maxHP, ticks[|ticks| - 1])
  }

  ghost predicate Ordered(ticks: seq<int>) {
    forall i, j :: 0 <= i < j < |ticks| ==> ticks[i] <= ticks[j]
  }

  lemma DivMonotone(a: int, b: int, n: nat)
    requires a <= b && n > 0
    ensures Div(a, n) <= Div(b, n)
  {
    if a >= 0 {
      QuotientMonotone(a, b, n);
    } else if b < 0 {
      QuotientMonotone(-b, -a, n);
    } else {
      QuotientMonotone(0, -a, n);
      QuotientMonotone(0, b, n);
    }
  }

  lemma QuotientMonotone(a: int, b: int, n: nat)
    requires 0 <= a <= b && n > 0
    ensures 0 <= a / n <= b / n
  {
    var q, r := a / n, b / n;
    assert a == n * q + a % n && b == n * r + b % n;
    if r < q {
      Product(n, r + 1, q);
    }
    if q < 0 {
      Product(n, q, -1);
    }
  }

  lemma Product(n: nat, x: int, y: int)
    requires x <= y
    ensures n * x <= n * y
  {}

  /** The heal record and the HP when the clock stands at the given step. */
  ghost predicate HealState(h: Heal, hp: nat, hp0: nat, maxHP: nat, start: int, steps: int) {
    && hp == HealedBy(hp0, maxHP, steps)
    && if h.active then hp < maxHP && h.start == start && h.applied == (if steps <= 0 then 0 else steps)
       else hp == maxHP || hp == hp0 + MEDKIT_STEPS
  }

  lemma HealTickKeepsState(h: Heal, hp: nat, hp0: nat, maxHP: nat, start: int, steps: int, now: int)
    requires 0 < hp0 <= maxHP && maxHP + MEDKIT_STEPS <= 0xFFFF
    requires HealState(h, hp, hp0, maxHP, start, steps) || (h == Heal(true, start, 0) && hp == hp0 && steps <= 0)
    requires steps <= Div(now - start, MEDKIT_INTERVAL)
    ensures var s := HealTick(h, hp, true, maxHP, now);
            HealState(s.0, s.1, hp0, maxHP, start, Div(now - start, MEDKIT_INTERVAL))
  {
    hide Div, Wrap16;
    var want := Min(Div(now - start, MEDKIT_INTERVAL), MEDKIT_STEPS);
    if h.active && want > h.applied {
      SmallWrap(hp + (want - h.applied));
    }
  }

  lemma SmallWrap(n: nat)
    requires n <= 0xFFFF
    ensures Wrap16(n) == n
  {}

  /** Ticking late, early or often makes no difference: the HP depends only on the time of the last tick. */
  lemma {:induction false} HealIsScheduleFree(hp0: nat, maxHP: nat, start: int, ticks: seq<int>)
    requires 0 < hp0 <= maxHP && maxHP + MEDKIT_STEPS <= 0xFFFF
    requires Ordered(ticks) && |ticks| > 0
    ensures var s := HealTicks(Heal(true, start, 0), hp0, maxHP, ticks);
            var steps := Div(ticks[|ticks| - 1] - start, MEDKIT_INTERVAL);
            s.1 == HealedBy(hp0, maxHP, steps) && HealState(s.0, s.1, hp0, maxHP, start, steps)
  {
    hide Div, HealTick, HealedBy, HealState;
    var init, last := ticks[..|ticks| - 1], ticks[|ticks| - 1];
    var h, hp, before := Heal(true, start, 0), hp0, Min(0, Div(last - start, MEDKIT_INTERVAL));
    if |init| > 0 {
      HealIsScheduleFree(hp0, maxHP, start, init);
      var s := HealTicks(h, hp0, maxHP, init);
      h, hp, before := s.0, s.1, Div(init[|init| - 1] - start, MEDKIT_INTERVAL);
      DivMonotone(init[|init| - 1] - start, last - start, MEDKIT_INTERVAL);
    }
    HealTickKeepsState(h, hp, hp0, maxHP, start, before, last);
    HealStateHP(HealTick(h, hp, true, maxHP, last).0, HealTick(h, hp, true, maxHP, last).1, hp0, maxHP, start,
                Div(last - start, MEDKIT_INTERVAL));
  }

  lemma HealStateHP(h: Heal, hp: nat, hp0: nat, maxHP: nat, start: int, steps: int)
    requires HealState(h, hp, hp0, maxHP, start, steps)
    ensures hp == HealedBy(hp0, maxHP, steps)
  {}

  // ---------------------------------------------------------------- mushrooms

  datatype Energy = Energy(ep: nat, last: int, mushrooms: nat)

  const NO_ENERGY: Energy := Energy(0, 0, 0)

  function Mushroom(e: Energy, now: int): Energy {
    Energy(Min(e.ep + EP_PER_MUSHROOM, MAX_EP), now, e.mushrooms + 1)
  }

  /** One tick of stepEP on the energy record and the player's HP. */
  function EnergyTick(e: Energy, hp: nat, alive: bool, maxHP: nat, now: int): (Energy, nat) {
    if e.ep == 0 then (e, hp)
    else if !alive || hp == 0 || hp >= maxHP then (e.(last := now), hp)
    else
      var steps := Div(now - e.last, EP_INTERVAL);
      if steps <= 0 then (e, hp)
      else
        var wanted := Min(Wrap16(steps), e.ep);
        var gain := if Wrap16(hp + wanted) > maxHP then maxHP - hp else wanted;
        (Energy(e.ep - gain, e.last + steps * EP_INTERVAL, e.mushrooms), Wrap16(hp + gain))
  }

  /** What the energy has turned into HP after the given number of steps without any other change. */
  function EnergyGain(ep0: nat, hp0: nat, maxHP: nat, steps: int): int {
    if steps <= 0 then 0 else Min(Min(ep0, maxHP - hp0), steps)
  }

  function EnergyTicks(e: Energy, hp: nat, maxHP: nat, ticks: seq<int>): (Energy, nat) {
    if |ticks| == 0 then (e, hp)
    else
      var s := EnergyTicks(e, hp, maxHP, ticks[..|ticks| - 1]);
      EnergyTick(s.0, s.1, true, maxHP, ticks[|ticks| - 1])
  }

  /** Steps already taken do not change how many the rest of the time gives. */
  lemma DivSplit(elapsed: int, taken: nat, n: nat)
    requires n > 0 && taken * n <= elapsed
    ensures Div(elapsed - taken * n, n) == Div(elapsed, n) - taken
  {
    var rest := elapsed - taken * n;
    assert rest == n * (rest / n) + rest % n;
    assert elapsed == n * (rest / n + taken) + rest % n;
    QuotientUnique(elapsed, n, rest / n + taken, rest % n);
  }

  lemma QuotientUnique(a: int, n: nat, q: int, r: int)
    requires n > 0 && a == n * q + r && 0 <= r < n
    ensures a / n == q
  {
    var q', r' := a / n, a % n;
    assert a == n * q' + r';
    if q < q' {
      Product(n, q + 1, q');
    } else if q' < q {
      Product(n, q' + 1, q);
    }
  }

  lemma DivFits(elapsed: int, n: nat, steps: nat)
    requires n > 0 && steps <= Div(elapsed, n)
    ensures steps > 0 ==> steps * n <= elapsed
  {
    if steps > 0 {
      assert elapsed >= 0;
      Product(n, steps, elapsed / n);
      assert elapsed == n * (elapsed / n) + elapsed % n;
    }
  }

  /** The energy record and the HP when the clock stands at the given step. */
  ghost predicate EnergyState(e: Energy, hp: nat, e0: Energy, hp0: nat, maxHP: nat, steps: int) {
    var gain := EnergyGain(e0.ep, hp0, maxHP, steps);
    && hp == hp0 + gain && e.ep == e0.ep - gain
    && (e.ep > 0 && hp < maxHP ==>
          e.last == e0.last + gain * EP_INTERVAL && gain == (if steps <= 0 then 0 else steps))
  }

  lemma EnergyTickKeepsState(e: Energy, hp: nat, e0: Energy, hp0: nat, maxHP: nat, steps: int, now: int)
    requires 0 < hp0 <= maxHP <= MAX_SAFE_HP && e0.ep <= MAX_EP
    requires EnergyState(e, hp, e0, hp0, maxHP, steps)
    requires steps <= Div(now - e0.last, EP_INTERVAL) && Div(now - e0.last, EP_INTERVAL) - Max(steps, 0) < 0x1_0000
    ensures var s := EnergyTick(e, hp, true, maxHP, now);
            EnergyState(s.0, s.1, e0, hp0, maxHP, Div(now - e0.last, EP_INTERVAL))
  {
    hide Div, Wrap16;
    var elapsed := now - e0.last;
    var steps' := Div(elapsed, EP_INTERVAL);
    if e.ep > 0 && hp < maxHP {
      var gain := EnergyGain(e0.ep, hp0, maxHP, steps);
      if gain > 0 {
        DivFits(elapsed, EP_INTERVAL, gain);
        DivSplit(elapsed, gain, EP_INTERVAL);
      }
      assert Div(now - e.last, EP_INTERVAL) == steps' - gain;
      if steps' - gain > 0 {
        SmallWrap(steps' - gain);
        var wanted := Min(steps' - gain, e.ep);
        SmallWrap(hp + wanted);
        SmallWrap(hp + (if hp + wanted > maxHP then maxHP - hp else wanted));
      }
    }
  }

  /** The 250 ms steps that have passed since the clock was armed. */
  function StepsAt(e: Energy, t: int): nat {
    Max(Div(t - e.last, EP_INTERVAL), 0)
  }

  /** The steps of a tick that no earlier tick has seen. */
  function NewSteps(e: Energy, ticks: seq<int>, i: nat): int
    requires i < |ticks|
  {
    StepsAt(e, ticks[i]) - if i == 0 then 0 else StepsAt(e, ticks[i - 1])
  }

  /** No two ticks in a row, and no first tick, are 65536 steps apart. */
  ghost predicate ShortGaps(e: Energy, ticks: seq<int>) {
    forall i :: 0 <= i < |ticks| ==> NewSteps(e, ticks, i) < 0x1_0000
  }

  lemma ShortGapsBefore(e: Energy, ticks: seq<int>)
    requires ShortGaps(e, ticks) && |ticks| > 0
    ensures ShortGaps(e, ticks[..|ticks| - 1]) && NewSteps(e, ticks, |ticks| - 1) < 0x1_0000
  {
    hide StepsAt;
    var init := ticks[..|ticks| - 1];
    forall i | 0 <= i < |init| ensures NewSteps(e, init, i) < 0x1_0000 {
      assert NewSteps(e, init, i) == NewSteps(e, ticks, i);
    }
  }

  /** EP becomes HP one for one, by an amount that depends only on the time of the last tick. */
  lemma {:induction false} EnergyIsScheduleFree(e0: Energy, hp0: nat, maxHP: nat, ticks: seq<int>)
    requires 0 < hp0 <= maxHP <= MAX_SAFE_HP && e0.ep <= MAX_EP
    requires Ordered(ticks) && |ticks| > 0 && ShortGaps(e0, ticks)
    ensures var s := EnergyTicks(e0, hp0, maxHP, ticks);
            var steps := Div(ticks[|ticks| - 1] - e0.last, EP_INTERVAL);
            && s.1 == hp0 + EnergyGain(e0.ep, hp0, maxHP, steps) && s.0.ep + s.1 == e0.ep + hp0
            && EnergyState(s.0, s.1, e0, hp0, maxHP, steps)
  {
    hide Div, EnergyTick, EnergyGain, EnergyState;
    var init, last := ticks[..|ticks| - 1], ticks[|ticks| - 1];
    var e, hp, before := e0, hp0, Min(0, Div(last - e0.last, EP_INTERVAL));
    ShortGapsBefore(e0, ticks);
    if |init| > 0 {
      DivMonotone(init[|init| - 1] - e0.last, last - e0.last, EP_INTERVAL);
      EnergyIsScheduleFree(e0, hp0, maxHP, init);
      var s := EnergyTicks(e0, hp0, maxHP, init);
      e, hp, before := s.0, s.1, Div(init[|init| - 1] - e0.last, EP_INTERVAL);
    } else {
      EnergyStateAtStart(e0, hp0, maxHP, before);
    }
    EnergyTickKeepsState(e, hp, e0, hp0, maxHP, before, last);
    var t := EnergyTick(e, hp, true, maxHP, last);
    EnergyStateSum(t.0, t.1, e0, hp0, maxHP, Div(last - e0.last, EP_INTERVAL));
  }

  /** One tick gives all the HP that is due exactly when its steps, in 16 bits, still cover that: a gap of
      65536 steps is wrapped to none, and its steps are lost. */
  lemma TickGivesAll(e: Energy, hp: nat, maxHP: nat, now: int)
    requires 0 < hp <= maxHP <= MAX_SAFE_HP && e.ep <= MAX_EP
    ensures var steps := Div(now - e.last, EP_INTERVAL);
            var due := EnergyGain(e.ep, hp, maxHP, steps);
            EnergyTick(e, hp, true, maxHP, now).1 == hp + due <==> steps <= 0 || Wrap16(steps) >= due
  {
    hide Div, Wrap16;
    var steps := Div(now - e.last, EP_INTERVAL);
    if e.ep > 0 && hp < maxHP && steps > 0 {
      var wanted := Min(Wrap16(steps), e.ep);
      SmallWrap(hp + wanted);
      SmallWrap(hp + (if hp + wanted > maxHP then maxHP - hp else wanted));
      WrapShrinks(steps);
    }
  }

  lemma WrapShrinks(n: nat)
    ensures Wrap16(n) <= n
  {}

  lemma EnergyStateAtStart(e0: Energy, hp0: nat, maxHP: nat, steps: int)
    requires steps <= 0
    ensures EnergyState(e0, hp0, e0, hp0, maxHP, steps)
  {}

  lemma EnergyStateSum(e: Energy, hp: nat, e0: Energy, hp0: nat, maxHP: nat, steps: int)
    requires EnergyState(e, hp, e0, hp0, maxHP, steps)
    ensures hp == hp0 + EnergyGain(e0.ep, hp0, maxHP, steps) && e.ep + hp == e0.ep + hp0
  {}

  // ---------------------------------------------------------------- in numbers

  /** A medkit gives one HP every 66666666 nanoseconds, 75 in all, and has given them in five seconds. */
  lemma MedkitGives(hp0: nat, maxHP: nat, start: int, ticks: seq<int>)
    requires 0 < hp0 <= maxHP && maxHP + MEDKIT_STEPS <= 0xFFFF
    requires Ordered(ticks) && |ticks| > 0 && start <= ticks[|ticks| - 1]
    ensures var hp, passed := HealTicks(Heal(true, start, 0), hp0, maxHP, ticks).1, ticks[|ticks| - 1] - start;
            && hp == Min(maxHP, hp0 + Min(75, passed / 66_666_666))
            && (passed >= 5_000_000_000 ==> hp == Min(maxHP, hp0 + 75))
  {
    hide HealTicks;
    HealIsScheduleFree(hp0, maxHP, start, ticks);
    var passed := ticks[|ticks| - 1] - start;
    QuotientMonotone(0, passed, 66_666_666);
    if passed >= 5_000_000_000 {
      QuotientMonotone(5_000_000_000, passed, 66_666_666);
    }
  }

  /** A mushroom fills up the energy by a hundred, to two hundred at most, and the energy becomes one HP every
      quarter of a second until it is used up or the HP are full. */
  lemma MushroomGives(e: Energy, now: int, hp0: nat, maxHP: nat, ticks: seq<int>)
    requires 0 < hp0 <= maxHP <= MAX_SAFE_HP && e.ep <= MAX_EP
    requires Ordered(ticks) && |ticks| > 0 && ShortGaps(Mushroom(e, now), ticks) && now <= ticks[|ticks| - 1]
    ensures var ep, s := Mushroom(e, now).ep, EnergyTicks(Mushroom(e, now), hp0, maxHP, ticks);
            var gain := Min(Min(ep, maxHP - hp0), (ticks[|ticks| - 1] - now) / 250_000_000);
            && ep == (if e.ep <= 100 then e.ep + 100 else 200)
            && s.1 == hp0 + gain && s.0.ep == ep - gain
  {
    hide EnergyTicks, ShortGaps;
    EnergyIsScheduleFree(Mushroom(e, now), hp0, maxHP, ticks);
    QuotientMonotone(0, ticks[|ticks| - 1] - now, 250_000_000);
  }

  /** At full HP, or off the feet, energy is neither used nor saved up: the next HP comes a quarter of a second
      after the last such tick, and not before. */
  lemma EnergyRests(e: Energy, hp: nat, alive: bool, maxHP: nat, now: int, hp': nat, later: int)
    requires 0 < hp' < maxHP <= MAX_SAFE_HP && 0 < e.ep <= MAX_EP && (!alive || hp == 0 || hp >= maxHP)
    requires now <= later < now + 0x1_0000 * EP_INTERVAL
    ensures var rest := EnergyTick(e, hp, alive, maxHP, now);
            var next := EnergyTick(rest.0, hp', true, maxHP, later);
            && rest.1 == hp && rest.0.ep == e.ep && rest.0.mushrooms == e.mushrooms
            && next.1 == hp' + Min(Min(e.ep, maxHP - hp'), (later - now) / 250_000_000)
            && next.0.ep == e.ep - (next.1 - hp')
  {
    var rest := EnergyTick(e, hp, alive, maxHP, now);
    var steps := Div(later - now, EP_INTERVAL);
    hide Div, Wrap16;
    QuotientMonotone(0, later - now, EP_INTERVAL);
    StepsBelow(later - now);
    if steps > 0 {
      SmallWrap(steps);
      SmallWrap(hp' + Min(steps, e.ep));
      SmallWrap(hp' + (if hp' + Min(steps, e.ep) > maxHP then maxHP - hp' else Min(steps, e.ep)));
    }
  }

  lemma StepsBelow(d: int)
    requires 0 <= d < 0x1_0000 * EP_INTERVAL
    ensures Div(d, EP_INTERVAL) == d / 250_000_000 && d / 250_000_000 <= 0xFFFF
  {}

  /** Whoever goes down loses the rest of a medkit, also when it is up again. */
  lemma HealIsLost(h: Heal, hp: nat, maxHP: nat, now: int, hp': nat, later: int)
    ensures HealTick(HealTick(h, hp, false, maxHP, now).0, hp', true, maxHP, later).1 == hp'
    ensures HealTick(h, hp, false, maxHP, now).1 == hp
  {
    hide Div;
  }
}
