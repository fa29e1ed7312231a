/** src/protocol/replayGuard.js: the bounded, insertion-ordered cache of recent request signatures,
    against the plain history of admitted requests. A signature is the request itself. */
module ReplayGuard {

  datatype Request = Request(endpoint: string, body: string)
  datatype Admission = Admission(request: Request, time: int)
  datatype Entry = Entry(request: Request, expiry: int)

  // ---------------------------------------------------------------- history

  ghost predicate Ordered(log: seq<Admission>) {
    forall i, j :: 0 <= i < j < |log| ==> log[i].time <= log[j].time
  }

  predicate Live(a: Admission, window: nat, now: int) {
    now < a.time + window
  }

  /** A repeat of one of the last max admissions, less than a window old. */
  ghost predicate Repeats(log: seq<Admission>, window: nat, max: nat, request: Request, now: int) {
    exists i :: 0 <= i < |log| && |log| - max <= i && log[i].request == request && Live(log[i], window, now)
  }

  /** The same without the bound. */
  ghost predicate RepeatsEver(log: seq<Admission>, window: nat, request: Request, now: int) {
    exists i :: 0 <= i < |log| && log[i].request == request && Live(log[i], window, now)
  }

  /** First admission that is still live. */
  ghost function FirstLive(log: seq<Admission>, window: nat, now: int): (m: nat)
    ensures m <= |log|
    ensures forall i :: 0 <= i < m ==> !Live(log[i], window, now)
    ensures m < |log| ==> Live(log[m], window, now)
  {
    if |log| == 0 then 0
    else
      var m := FirstLive(log[..|log| - 1], window, now);
      if m < |log| - 1 then m
      else if Live(log[|log| - 1], window, now) then |log| - 1 else |log|
  }

  /** The admissions the cache has to remember at a given time: the live ones among the last max. */
  ghost function Remembered(log: seq<Admission>, window: nat, max: nat, now: int): (s: nat)
    ensures s <= |log|
  {
    var m := FirstLive(log, window, now);
    if |log| - max > m then |log| - max else m
  }

  lemma RepeatsIsRemembered(log: seq<Admission>, window: nat, max: nat, request: Request, now: int)
    requires Ordered(log)
    ensures var s := Remembered(log, window, max, now);
            && (forall i :: s <= i < |log| ==> Live(log[i], window, now))
            && (Repeats(log, window, max, request, now) <==> exists i :: s <= i < |log| && log[i].request == request)
  {}

  /** Without an overflow the bound is invisible: the cache answers as an unbounded one would. */
  lemma BoundIsInvisible(log: seq<Admission>, window: nat, max: nat, request: Request, now: int)
    requires Ordered(log) && |log| - FirstLive(log, window, now) <= max
    ensures Repeats(log, window, max, request, now) <==> RepeatsEver(log, window, request, now)
  {
    if RepeatsEver(log, window, request, now) {
      var i :| 0 <= i < |log| && log[i].request == request && Live(log[i], window, now);
      assert i >= FirstLive(log, window, now);
    }
  }

  // ---------------------------------------------------------------- whole runs

  ghost function BoundedLog(run: seq<Admission>, window: nat, max: nat): (log: seq<Admission>) {
    if |run| == 0 then []
    else
      var log, last := BoundedLog(run[..|run| - 1], window, max), run[|run| - 1];
      if Repeats(log, window, max, last.request, last.time) then log else log + [last]
  }

  ghost function PlainLog(run: seq<Admission>, window: nat): (log: seq<Admission>) {
    if |run| == 0 then []
    else
      var log, last := PlainLog(run[..|run| - 1], window), run[|run| - 1];
      if RepeatsEver(log, window, last.request, last.time) then log else log + [last]
  }

  lemma {:induction false} PlainLogOrdered(run: seq<Admission>, window: nat)
    requires Ordered(run)
    ensures Ordered(PlainLog(run, window))
    ensures forall a :: a in PlainLog(run, window) ==> a.time <= if |run| == 0 then a.time else run[|run| - 1].time
  {
    if |run| > 0 {
      var init := run[..|run| - 1];
      PlainLogOrdered(init, window);
      forall a | a in PlainLog(init, window) ensures a.time <= run[|run| - 1].time {
        if |init| > 0 {
          assert a.time <= init[|init| - 1].time;
        }
      }
    }
  }

  /** Whenever a request arrives, at most max admitted requests are less than a window old. */
  ghost predicate NeverOverflows(run: seq<Admission>, window: nat, max: nat) {
    forall n :: 0 <= n < |run| ==>
      var log := PlainLog(run[..n], window);
      |log| - FirstLive(log, window, run[n].time) <= max
  }

  /** Over a run that never overflows, the bounded guard admits exactly what an unbounded one admits. */
  lemma {:induction false} SameDecisions(run: seq<Admission>, window: nat, max: nat)
    requires Ordered(run) && NeverOverflows(run, window, max)
    ensures BoundedLog(run, window, max) == PlainLog(run, window)
  {
    if |run| > 0 {
      var init, last := run[..|run| - 1], run[|run| - 1];
      assert NeverOverflows(init, window, max) by {
        forall n | 0 <= n < |init|
          ensures var log := PlainLog(init[..n], window); |log| - FirstLive(log, window, init[n].time) <= max
        {
          assert init[..n] == run[..n];
        }
      }
      SameDecisions(init, window, max);
      PlainLogOrdered(init, window);
      assert run[..|run| - 1] == init;
      BoundIsInvisible(PlainLog(init, window), window, max, last.request, last.time);
    }
  }

  // ---------------------------------------------------------------- the cache

  function Entries(log: seq<Admission>, window: nat): (e: seq<Entry>)
    ensures |e| == |log|
  {
    seq(|log|, i requires 0 <= i < |log| => Entry(log[i].request, log[i].time + window))
  }

  /** Behind expired leftovers the map holds exactly the admissions to be remembered, in order. */
  ghost predicate Holds(seen: seq<Entry>, log: seq<Admission>, window: nat, max: nat, now: int) {
    var keep := Entries(log[Remembered(log, window, max, now)..], window);
    && |keep| <= |seen|
    && seen[|seen| - |keep|..] == keep
    && forall i :: 0 <= i < |seen| - |keep| ==> seen[i].expiry <= now
  }

  predicate Sorted(seen: seq<Entry>) {
    forall i, j :: 0 <= i < j < |seen| ==> seen[i].expiry <= seen[j].expiry
  }

  predicate Distinct(seen: seq<Entry>) {
    forall i, j :: 0 <= i < j < |seen| ==> seen[i].request != seen[j].request
  }

  /** What a sweep does: it drops a prefix, up to the first live entry and down to the bound. */
  ghost predicate Swept(seen: seq<Entry>, seen': seq<Entry>, max: nat, now: int) {
    exists k :: 0 <= k <= |seen| && seen' == seen[k..] && |seen'| <= max
             && (forall i :: 0 <= i < k ==> seen[i].expiry <= now || |seen| - i > max)
             && (k < |seen| ==> seen[k].expiry > now)
  }

  /** A sweep below the bound removes exactly the expired entries, which are a prefix. */
  lemma SweepKeepsLive(seen: seq<Entry>, seen': seq<Entry>, max: nat, now: int)
    requires Sorted(seen) && |seen| <= max && Swept(seen, seen', max, now)
    ensures exists k :: 0 <= k <= |seen| && seen' == seen[k..]
                     && forall i :: 0 <= i < |seen| ==> (i < k <==> seen[i].expiry <= now)
  {
    var k :| 0 <= k <= |seen| && seen' == seen[k..] && |seen'| <= max
          && (forall i :: 0 <= i < k ==> seen[i].expiry <= now || |seen| - i > max)
          && (k < |seen| ==> seen[k].expiry > now);
    ExpiredIsPrefix(seen, k, now);
  }

  lemma ExpiredIsPrefix(seen: seq<Entry>, k: nat, now: int)
    requires Sorted(seen) && k <= |seen| && (k < |seen| ==> seen[k].expiry > now)
    requires forall i :: 0 <= i < k ==> seen[i].expiry <= now
    ensures forall i :: 0 <= i < |seen| ==> (i < k <==> seen[i].expiry <= now)
  {
    forall i | 0 <= i < |seen| ensures i < k <==> seen[i].expiry <= now {
      if k < i {
        assert seen[k].expiry <= seen[i].expiry;
      }
    }
  }

  lemma HoldsLater(seen: seq<Entry>, log: seq<Admission>, window: nat, max: nat, t: int, now: int)
    requires Ordered(log) && t <= now && Holds(seen, log, window, max, t)
    ensures Holds(seen, log, window, max, now)
  {
    var s, s' := Remembered(log, window, max, t), Remembered(log, window, max, now);
    assert s <= s';
    var keep, keep' := Entries(log[s..], window), Entries(log[s'..], window);
    assert keep' == keep[s' - s..];
    forall i | 0 <= i < |seen| - |keep'| ensures seen[i].expiry <= now {
      if i >= |seen| - |keep| {
        var j := i - (|seen| - |keep|);
        assert seen[i] == seen[|seen| - |keep|..][j] == keep[j];
        assert !Live(log[s + j], window, now);
      }
    }
  }

  lemma HoldsSwept(seen: seq<Entry>, seen': seq<Entry>, log: seq<Admission>, window: nat, max: nat, now: int)
    requires Ordered(log) && Holds(seen, log, window, max, now) && |seen| <= max && Swept(seen, seen', max, now)
    ensures Holds(seen', log, window, max, now)
  {
    hide Remembered, Ordered, Entries, Holds;
    var k :| 0 <= k <= |seen| && seen' == seen[k..] && |seen'| <= max
          && (forall i :: 0 <= i < k ==> seen[i].expiry <= now || |seen| - i > max)
          && (k < |seen| ==> seen[k].expiry > now);
    HoldsBehind(seen, k, log, window, max, now);
  }

  /** A dropped prefix that has expired was not remembered. */
  lemma HoldsBehind(seen: seq<Entry>, k: nat, log: seq<Admission>, window: nat, max: nat, now: int)
    requires Ordered(log) && Holds(seen, log, window, max, now) && k <= |seen|
    requires forall i :: 0 <= i < k ==> seen[i].expiry <= now
    ensures Holds(seen[k..], log, window, max, now)
  {
    hide Remembered, Ordered;
    var keep := Entries(log[Remembered(log, window, max, now)..], window);
    KeptAreLive(seen, log, window, max, now);
    hide Entries;
    var p := |seen| - |keep|;
    assert p < |seen| ==> seen[p].expiry > now;
    assert k <= p;
    assert seen[k..][p - k..] == seen[p..];
  }

  lemma SweptKeepsOrder(seen: seq<Entry>, seen': seq<Entry>, max: nat, now: int)
    requires Sorted(seen) && Distinct(seen) && Swept(seen, seen', max, now)
    ensures Sorted(seen') && Distinct(seen') && |seen'| <= max && (forall e :: e in seen' ==> e in seen)
  {}

  lemma KeptAreLive(seen: seq<Entry>, log: seq<Admission>, window: nat, max: nat, now: int)
    requires Ordered(log) && Holds(seen, log, window, max, now)
    ensures var n := |log| - Remembered(log, window, max, now);
            forall i :: |seen| - n <= i < |seen| ==>
              seen[i] == Entry(log[i - |seen| + |log|].request, log[i - |seen| + |log|].time + window)
              && seen[i].expiry > now
  {
    var s := Remembered(log, window, max, now);
    var keep := Entries(log[s..], window);
    forall i | |seen| - |keep| <= i < |seen|
      ensures seen[i] == Entry(log[i - |seen| + |log|].request, log[i - |seen| + |log|].time + window)
      ensures seen[i].expiry > now
    {
      assert seen[i] == seen[|seen| - |keep|..][i - (|seen| - |keep|)];
      assert Live(log[i - |seen| + |log|], window, now);
    }
  }

  /** An unexpired entry for a request is found exactly when the request repeats a recent admission. */
  lemma FoundIffRepeats(seen: seq<Entry>, log: seq<Admission>, window: nat, max: nat, request: Request, now: int)
    requires Ordered(log) && Holds(seen, log, window, max, now)
    ensures Repeats(log, window, max, request, now)
       <==> exists i :: 0 <= i < |seen| && seen[i].request == request && seen[i].expiry > now
  {
    RepeatsIsRemembered(log, window, max, request, now);
    KeptAreLive(seen, log, window, max, now);
    var s := Remembered(log, window, max, now);
    if Repeats(log, window, max, request, now) {
      var i :| s <= i < |log| && log[i].request == request;
      assert seen[i - |log| + |seen|].request == request;
    }
  }

  /** Dropping an expired entry. */
  lemma HoldsDropped(seen: seq<Entry>, k: nat, log: seq<Admission>, window: nat, max: nat, now: int)
    requires Ordered(log) && Holds(seen, log, window, max, now) && k < |seen| && seen[k].expiry <= now
    ensures Holds(seen[..k] + seen[k + 1..], log, window, max, now)
  {
    KeptAreLive(seen, log, window, max, now);
    var keep := Entries(log[Remembered(log, window, max, now)..], window);
    var seen' := seen[..k] + seen[k + 1..];
    assert k < |seen| - |keep|;
    assert seen'[|seen'| - |keep|..] == seen[|seen| - |keep|..];
  }

  /** Recording a new admission while there is room. */
  lemma HoldsAdmitted(seen: seq<Entry>, log: seq<Admission>, window: nat, max: nat, a: Admission)
    requires window > 0 && Ordered(log) && |seen| < max && Holds(seen, log, window, max, a.time)
    ensures Holds(seen + [Entry(a.request, a.time + window)], log + [a], window, max, a.time)
  {
    var log', now, e := log + [a], a.time, Entry(a.request, a.time + window);
    FirstLiveOneMore(log, window, a);
    var s := Remembered(log, window, max, now);
    var keep, keep' := Entries(log[s..], window), Entries(log'[s..], window);
    assert Remembered(log', window, max, now) == s;
    assert keep' == keep + [e];
    var seen' := seen + [e];
    assert seen'[|seen'| - |keep'|..] == seen[|seen| - |keep|..] + [e];
  }

  /** Recording a new admission when the map is full, then sweeping. */
  lemma HoldsAdmittedFull(seen: seq<Entry>, seen': seq<Entry>, log: seq<Admission>, window: nat, max: nat, a: Admission)
    requires window > 0 && Ordered(log) && |seen| == max > 0 && Holds(seen, log, window, max, a.time)
    requires Swept(seen + [Entry(a.request, a.time + window)], seen', max, a.time)
    ensures Holds(seen', log + [a], window, max, a.time)
  {
    hide Swept, FirstLive, Ordered;
    var log', now, e := log + [a], a.time, Entry(a.request, a.time + window);
    FirstLiveOneMore(log, window, a);
    var s := Remembered(log, window, max, now);
    var s' := if |log'| - max > s then s + 1 else s;
    assert Remembered(log', window, max, now) == s';
    var n := |log| - s;
    var full, p := seen + [e], |seen| - n + (s' - s);
    KeptAreLive(seen, log, window, max, now);
    forall i | p <= i < |full| ensures full[i] == Entries(log'[s'..], window)[i - p] && full[i].expiry > now {
      assert log'[s'..][i - p] == log'[s' + i - p];
    }
    assert full[p..] == Entries(log'[s'..], window);
    forall i | 0 <= i < |seen| - n ensures full[i].expiry <= now {
      assert seen[i].expiry <= now;
    }
    FullSweep(full, seen', max, now, p);
  }

  /** If the entries from p on are live and within the bound, a sweep that has to shrink stops at p. */
  lemma FullSweep(full: seq<Entry>, seen': seq<Entry>, max: nat, now: int, p: nat)
    requires Swept(full, seen', max, now) && |full| == max + 1 && 0 < p <= |full|
    requires forall i :: p <= i < |full| ==> full[i].expiry > now
    requires p > 1 ==> forall i :: 0 <= i < p ==> full[i].expiry <= now
    ensures seen' == full[p..]
  {
    var k :| 0 <= k <= |full| && seen' == full[k..] && |seen'| <= max
          && (forall i :: 0 <= i < k ==> full[i].expiry <= now || |full| - i > max)
          && (k < |full| ==> full[k].expiry > now);
    assert p < |full| ==> full[p].expiry > now;
    assert k <= p;
  }

  lemma FirstLiveOneMore(log: seq<Admission>, window: nat, a: Admission)
    requires window > 0
    ensures FirstLive(log + [a], window, a.time) == FirstLive(log, window, a.time)
  {
    assert (log + [a])[..|log|] == log;
  }

  class Guard {
    const enabled: bool
    const window: nat
    const max: nat
    const exclude: set<string>
    /** An insertion-ordered map, oldest entry first. */
    var seen: seq<Entry>
    var lastSweep: int
    /** Every request admitted so far, and the latest clock reading. */
    ghost var log: seq<Admission>
    ghost var clock: int

    ghost predicate Valid()
      reads this
    {
      && max > 0 && window > 0
      && Ordered(log) && (forall a :: a in log ==> a.time <= clock)
      && |seen| <= max && Sorted(seen) && Distinct(seen)
      && (forall e :: e in seen ==> e.expiry <= clock + window)
      && Holds(seen, log, window, max, clock)
    }

    constructor (enabled: bool, window: nat, max: nat, exclude: set<string>, now: int)
      requires max > 0 && window > 0
      ensures Valid() && log == [] && clock == now
      ensures this.enabled == enabled && this.window == window && this.max == max && this.exclude == exclude
    {
      this.enabled, this.window, this.max, this.exclude := enabled, window, max, exclude;
      seen, lastSweep, log, clock := [], 0, [], now;
    }

    /** Removes expired entries from the front, stopping at the first live one, then the oldest ones
        beyond the bound. */
    method Sweep(now: int)
      requires Sorted(seen)
      modifies `seen
      ensures Swept(old(seen), seen, max, now)
    {
      ghost var k := 0;
      while |seen| > 0 && seen[0].expiry <= now
        invariant 0 <= k <= |old(seen)| && seen == old(seen)[k..]
        invariant forall i :: 0 <= i < k ==> old(seen)[i].expiry <= now
        decreases |seen|
      {
        seen := seen[1..];
        k := k + 1;
      }
      while |seen| > max
        invariant 0 <= k <= |old(seen)| && seen == old(seen)[k..]
        invariant forall i :: 0 <= i < k ==> old(seen)[i].expiry <= now || |old(seen)| - i > max
        invariant k < |old(seen)| ==> old(seen)[k].expiry > now
        decreases |seen|
      {
        seen := seen[1..];
        k := k + 1;
      }
    }

    /** Map lookup. */
    method Find(request: Request) returns (k: int)
      ensures -1 <= k < |seen|
      ensures k >= 0 ==> seen[k].request == request
      ensures k < 0 ==> forall i :: 0 <= i < |seen| ==> seen[i].request != request
    {
      k := 0;
      while k < |seen|
        invariant 0 <= k <= |seen| && forall i :: 0 <= i < k ==> seen[i].request != request
      {
        if seen[k].request == request {
          return;
        }
        k := k + 1;
      }
      k := -1;
    }

    /** Reports a replay exactly when the request repeats one of the last max admissions within the
        window; otherwise the request is admitted. */
    method IsReplay(request: Request, now: int) returns (replay: bool)
      requires Valid() && clock <= now
      modifies this
      ensures Valid() && clock == now
      ensures var checked := enabled && request.body != "" && request.endpoint !in exclude;
              && replay == (checked && Repeats(old(log), window, max, request, now))
              && log == if checked && !replay then old(log) + [Admission(request, now)] else old(log)
    {
      hide Holds, Repeats, Swept, Ordered, Sorted, Distinct;
      HoldsLater(seen, log, window, max, clock, now);
      clock := now;
      if !enabled || request.body == "" || request.endpoint in exclude {
        return false;
      }
      if now - lastSweep > 1000 {
        ghost var before := seen;
        Sweep(now);
        HoldsSwept(before, seen, log, window, max, now);
        SweptKeepsOrder(before, seen, max, now);
        lastSweep := now;
      }
      FoundIffRepeats(seen, log, window, max, request, now);
      var k := Find(request);
      if k >= 0 {
        OnlyOne(seen, k);
        if seen[k].expiry > now {
          return true;
        }
        HoldsDropped(seen, k, log, window, max, now);
        DropKeepsOrder(seen, k);
        seen := seen[..k] + seen[k + 1..];
      }
      Admit(request, now);
      replay := false;
    }

    /** The insertion at the end of isReplay. */
    method Admit(request: Request, now: int)
      requires Valid() && clock == now
      requires forall i :: 0 <= i < |seen| ==> seen[i].request != request
      modifies `seen, `log
      ensures Valid() && log == old(log) + [Admission(request, now)]
    {
      hide Holds, Swept, Ordered, Sorted, Distinct;
      ghost var a, before := Admission(request, now), seen;
      if |seen| < max {
        HoldsAdmitted(seen, log, window, max, a);
      }
      AppendKeepsOrder(seen, Entry(request, now + window));
      seen := seen + [Entry(request, now + window)];
      if |seen| > max {
        ghost var full := seen;
        Sweep(now);
        HoldsAdmittedFull(before, seen, log, window, max, a);
        SweptKeepsOrder(full, seen, max, now);
      }
      OrderedOneMore(log, a);
      log := log + [a];
    }
  }

  lemma OnlyOne(seen: seq<Entry>, k: nat)
    requires Distinct(seen) && k < |seen|
    ensures forall i :: 0 <= i < |seen| && i != k ==> seen[i].request != seen[k].request
  {}

  lemma DropKeepsOrder(seen: seq<Entry>, k: nat)
    requires Sorted(seen) && Distinct(seen) && k < |seen|
    ensures var seen' := seen[..k] + seen[k + 1..];
            && Sorted(seen') && Distinct(seen') && (forall e :: e in seen' ==> e in seen)
            && forall i :: 0 <= i < |seen'| ==> seen'[i].request != seen[k].request
  {}

  lemma AppendKeepsOrder(seen: seq<Entry>, e: Entry)
    requires Sorted(seen) && Distinct(seen)
    requires forall f :: f in seen ==> f.expiry <= e.expiry
    requires forall i :: 0 <= i < |seen| ==> seen[i].request != e.request
    ensures Sorted(seen + [e]) && Distinct(seen + [e])
  {}

  lemma OrderedOneMore(log: seq<Admission>, a: Admission)
    requires Ordered(log) && forall b :: b in log ==> b.time <= a.time
    ensures Ordered(log + [a])
  {}
}
