/** What the daemon's counters and states mean over any run of cycles. Every history a
    daemon can have is well published (Daemon.Valid), so these hold of every run. */
module DaemonRuns {
  import opened Prelude
  import opened Daemons

  ghost predicate NoFreshAfter(h: seq<Cycle>, i: int) {
    forall j :: 0 <= j && i < j < |h| ==> !Fresh(h[j])
  }

  /** Cycle i is the last that brought metrics. */
  ghost predicate LastFreshAt(h: seq<Cycle>, i: int) {
    0 <= i < |h| && Fresh(h[i]) && NoFreshAfter(h, i)
  }

  predicate Completed(c: Cycle) { !c.Cancelled? }

  /** The n cycles' cost state and streak, if i is the last cycle that brought metrics. */
  ghost predicate TracesTo(h: seq<Cycle>, i: int) {
    LastFreshAt(h, i) && LatestFresh(h) == Some(h[i].state) && StaleStreak(h) == |Select(h[i + 1..], Completed)|
  }

  /** The cost state is the state of the last metrics-bearing publish, and the failure
      streak counts the completed cycles after it; before any, it counts them all. */
  lemma {:induction false} CostStateIsLastFresh(h: seq<Cycle>)
    ensures if LatestFresh(h).Some? then exists i :: TracesTo(h, i)
            else NoFreshAfter(h, -1) && StaleStreak(h) == |Select(h, Completed)|
  {
    if h != [] {
      var n := |h| - 1;
      var front := h[..n];
      CostStateIsLastFresh(front);
      if Fresh(h[n]) {
        assert h[n + 1..] == [];
        assert TracesTo(h, n);
      } else if LatestFresh(front).Some? {
        var i :| TracesTo(front, i);
        StillTracesTo(h, i);
      }
    }
  }

  lemma StillTracesTo(h: seq<Cycle>, i: int)
    requires h != [] && !Fresh(h[|h| - 1]) && TracesTo(h[..|h| - 1], i)
    ensures TracesTo(h, i)
  {
    var n := |h| - 1;
    assert h[i + 1..][..n - i - 1] == h[..n][i + 1..];
  }

  /** No streak means no gap: the live window is the cost-bearing one. */
  lemma {:induction false} NoStreakMeansCaughtUp(h: seq<Cycle>)
    requires StaleStreak(h) == 0
    ensures Latest(h) == LatestFresh(h)
  {
    if h != [] && !Fresh(h[|h| - 1]) {
      NoStreakMeansCaughtUp(h[..|h| - 1]);
    }
  }

  /** Published windows are numbered upwards from 1: no two share a number, and the
      live one has the highest. */
  lemma RefreshesStrictlyIncrease(h: seq<Cycle>, i: nat, j: nat)
    requires WellPublished(h) && i < j < |h| && h[i].Published? && h[j].Published?
    ensures 1 <= h[i].state.refreshes < h[j].state.refreshes <= Publishes(h)
  {
    assert PublishedWell(h, i) && PublishedWell(h, j);
    NumbersIncrease(h, i, j);
  }

  lemma NumbersIncrease(h: seq<Cycle>, i: nat, j: nat)
    requires i < j < |h| && h[i].Published? && h[j].Published?
    ensures 1 <= Publishes(h[..i + 1]) < Publishes(h[..j + 1]) <= Publishes(h)
  {
    assert h[..j + 1] == h[..i + 1] + h[i + 1..j + 1] && h == h[..j + 1] + h[j + 1..];
    PublishesAdd(h[..i + 1], h[i + 1..j + 1]);
    PublishesAdd(h[..j + 1], h[j + 1..]);
    PublishesLast(h[..i + 1]);
    PublishesLast(h[i + 1..j + 1]);
  }

  lemma PublishesAdd(a: seq<Cycle>, b: seq<Cycle>)
    ensures Publishes(a + b) == Publishes(a) + Publishes(b)
  {
    SelectConcat(a, b, IsPublish);
  }

  lemma PublishesLast(a: seq<Cycle>)
    requires a != [] && a[|a| - 1].Published?
    ensures Publishes(a) >= 1
  {
  }

  // ---- freshness

  /** Collection times never decrease and none lies after the clock. */
  ghost predicate ClockMonotone(h: seq<Cycle>, now: int) {
    && (forall i :: 0 <= i < |h| && h[i].Published? ==> h[i].state.refreshAt <= now)
    && (forall i, j :: 0 <= i < j < |h| && h[i].Published? && h[j].Published?
                       ==> h[i].state.refreshAt <= h[j].state.refreshAt)
  }

  /** Some metrics-bearing publish is at most threshold old. */
  ghost predicate FreshWithin(h: seq<Cycle>, now: int, threshold: int) {
    exists i :: 0 <= i < |h| && Fresh(h[i]) && now - h[i].state.refreshAt <= threshold
  }

  /** How long ago t was, never negative. */
  function Since(t: int, now: int): int { if now < t then 0 else now - t }

  /** The verdict is exact: not stale iff metrics were published within the threshold, never
      collected iff none ever were; the collection time is that of the last publish with
      metrics, and the age counts from it, or from the start if there was none. */
  ghost predicate ExactVerdict(h: seq<Cycle>, f: Freshness, now: int, startedAt: int, threshold: int) {
    && (!f.stale <==> FreshWithin(h, now, threshold))
    && (f.neverCollected <==> NoFreshAfter(h, -1)) && (f.hasData <==> !f.neverCollected)
    && (f.hasData ==> CollectedAt(h, f.collectedAt) && f.age == Since(f.collectedAt, now))
    && (f.neverCollected ==> f.stale && f.age == Since(startedAt, now))
  }

  /** t is the time of the last publish with metrics. */
  ghost predicate CollectedAt(h: seq<Cycle>, t: int) {
    exists i :: LastFreshAt(h, i) && h[i].state.refreshAt == t
  }

  lemma FreshnessIsExact(h: seq<Cycle>, streak: nat, reason: Reason, now: int, startedAt: int, threshold: int)
    requires ClockMonotone(h, now)
    ensures ExactVerdict(h, FreshnessOf(LatestFresh(h), streak, reason, now, startedAt, threshold), now, startedAt, threshold)
  {
    CostStateIsLastFresh(h);
    if LatestFresh(h).Some? {
      var i :| TracesTo(h, i);
      assert Fresh(h[i]) && h[i].Published?;
      if FreshWithin(h, now, threshold) {
        var k :| 0 <= k < |h| && Fresh(h[k]) && now - h[k].state.refreshAt <= threshold;
        assert k <= i && h[k].Published?;
      }
    }
  }

  // ---- runs of the collection loop

  /** What one cycle is given: the clock reading, the collectors' answers, and before which
      collector the context is found cancelled. */
  datatype Input = Input(now: int, answers: seq<Answer>, cancelledAt: nat)

  /** The history a daemon goes through. */
  ghost function HistoryOf(agentId: string, window: int, host: Host, ins: seq<Input>): seq<Cycle> {
    if ins == [] then []
    else
      var h, i := HistoryOf(agentId, window, host, ins[..|ins| - 1]), ins[|ins| - 1];
      h + [CycleOf(agentId, window, host, i.now, i.answers, i.cancelledAt, Publishes(h))]
  }

  /** The clock does not go back from cycle to cycle, nor below the last of them. */
  ghost predicate ClockForward(ins: seq<Input>, now: int) {
    && (forall i, j :: 0 <= i < j < |ins| ==> ins[i].now <= ins[j].now)
    && (ins != [] ==> ins[|ins| - 1].now <= now)
  }

  /** A cycle that publishes stamps its own clock reading. */
  lemma PublishedNow(agentId: string, window: int, host: Host, i: Input, published: nat)
    ensures var c := CycleOf(agentId, window, host, i.now, i.answers, i.cancelledAt, published);
            c.Published? ==> c.state.refreshAt == i.now
  {
  }

  /** Every publish of h is stamped with the reading of its cycle. */
  ghost predicate Stamps(h: seq<Cycle>, ins: seq<Input>) {
    |h| == |ins| && forall k :: 0 <= k < |h| && h[k].Published? ==> h[k].state.refreshAt == ins[k].now
  }

  lemma LastCycle(agentId: string, window: int, host: Host, ins: seq<Input>) returns (h: seq<Cycle>, c: Cycle)
    requires ins != []
    ensures h == HistoryOf(agentId, window, host, ins[..|ins| - 1]) && HistoryOf(agentId, window, host, ins) == h + [c]
    ensures c.Published? ==> c.state.refreshAt == ins[|ins| - 1].now
  {
    var i := ins[|ins| - 1];
    h := HistoryOf(agentId, window, host, ins[..|ins| - 1]);
    c := CycleOf(agentId, window, host, i.now, i.answers, i.cancelledAt, Publishes(h));
    PublishedNow(agentId, window, host, i, Publishes(h));
  }

  lemma StampsStep(h: seq<Cycle>, c: Cycle, ins: seq<Input>)
    requires ins != [] && Stamps(h, ins[..|ins| - 1]) && (c.Published? ==> c.state.refreshAt == ins[|ins| - 1].now)
    ensures Stamps(h + [c], ins)
  {
  }

  lemma {:induction false} HistoryStampsItsClock(agentId: string, window: int, host: Host, ins: seq<Input>)
    ensures Stamps(HistoryOf(agentId, window, host, ins), ins)
  {
    if ins != [] {
      HistoryStampsItsClock(agentId, window, host, ins[..|ins| - 1]);
      var h, c := LastCycle(agentId, window, host, ins);
      StampsStep(h, c, ins);
    }
  }

  /** With a clock that does not go back, neither do the collection times. */
  lemma RunsAreMonotone(agentId: string, window: int, host: Host, ins: seq<Input>, now: int)
    requires ClockForward(ins, now)
    ensures ClockMonotone(HistoryOf(agentId, window, host, ins), now)
  {
    HistoryStampsItsClock(agentId, window, host, ins);
  }

  /** The collection loop of a new daemon. */
  method RunCycles(d: Daemon, ins: seq<Input>)
    requires d.Valid() && d.hist == []
    modifies d
    ensures d.Valid() && d.hist == HistoryOf(d.agentId, d.window, d.host, ins)
  {
    for k := 0 to |ins|
      invariant d.Valid() && d.hist == HistoryOf(d.agentId, d.window, d.host, ins[..k])
    {
      assert ins[..k + 1][..k] == ins[..k];
      var err := d.Refresh(ins[k].now, ins[k].answers, ins[k].cancelledAt);
    }
    assert ins[..|ins|] == ins;
  }

  /** After any run, the verdict is exact. */
  method VerdictAfterRun(d: Daemon, ins: seq<Input>, now: int) returns (f: Freshness)
    requires d.Valid() && d.hist == [] && ClockForward(ins, now)
    modifies d
    ensures d.hist == HistoryOf(d.agentId, d.window, d.host, ins) && ExactVerdict(d.hist, f, now, d.startedAt, d.stalenessAfter)
    ensures f.stale <==> f.reason != NoReason
  {
    RunCycles(d, ins);
    f := d.Freshness(now);
    RunsAreMonotone(d.agentId, d.window, d.host, ins, now);
    FreshnessIsExact(d.hist, f.consecFails, f.reason, now, d.startedAt, d.stalenessAfter);
  }
}
