/** The /cost and /window handlers (api.go) as steps interleaved with the writer. Each
    read of daemon state takes the lock on its own, so cycles may fall between them. */
module Readers {
  import opened Prelude
  import opened Cost
  import opened Daemons
  import opened DaemonRuns

  /** The cost block of a response. */
  datatype CostResponse = CostResponse(devices: seq<Wedge>, jobs: seq<JobImpact>, collectedAt: Option<int>,
                                       age: int, stale: bool, neverCollected: bool, reason: Reason)

  function Unstamped(report: CostReport): CostResponse {
    CostResponse(report.devices, report.jobs, None, 0, false, false, NoReason)
  }

  function StampFreshness(resp: CostResponse, fr: Freshness): CostResponse {
    resp.(stale := fr.stale, neverCollected := fr.neverCollected, reason := fr.reason,
          collectedAt := if fr.hasData then Some(fr.collectedAt) else resp.collectedAt,
          age := if fr.hasData || fr.neverCollected then fr.age else resp.age)
  }

  datatype Endpoint = CostEndpoint | WindowEndpoint

  /** A request in flight: what it has read, how long the history was at each read, and the
      clock reading of the verdict.
      The live window is read by /window only. */
  datatype Request =
    | Arrived
    | HasWindow(live: Option<State>, w: nat)
    | HasCost(live: Option<State>, w: nat, cost: Option<State>, c: nat)
    | HasFields(live: Option<State>, w: nat, cost: Option<State>, c: nat, recent: Option<State>, streak: nat, f: nat)
    | Unavailable
    | Replied(live: Option<State>, w: nat, cost: Option<State>, c: nat, f: nat, at: int, resp: CostResponse)

  datatype System = System(hist: seq<Cycle>, clock: int, request: Request)

  /** The report a reply is built from: the cost state's, else for /window the live
      window's, else an empty one. */
  function Served(e: Endpoint, live: Option<State>, cost: Option<State>): CostReport {
    if cost.Some? then cost.value.cost
    else if e.WindowEndpoint? && live.Some? then live.value.cost
    else CostReport([], [])
  }

  /** The writer completes a cycle that began at some earlier clock reading. */
  ghost predicate WriterStep(s: System, t: System) {
    && t.clock == s.clock && t.request == s.request
    && |t.hist| == |s.hist| + 1 && t.hist[..|s.hist|] == s.hist
    && WellPublished(t.hist) && ClockMonotone(t.hist, t.clock)
  }

  ghost predicate ClockStep(s: System, t: System) {
    t.hist == s.hist && t.request == s.request && s.clock <= t.clock
  }

  /** One read of the request; the daemon itself is untouched. */
  ghost predicate ReadStep(e: Endpoint, startedAt: int, threshold: int, s: System, t: System) {
    && t.hist == s.hist && t.clock == s.clock
    && match s.request
       case Arrived =>
         if e.CostEndpoint? then t.request == HasCost(None, |s.hist|, LatestFresh(s.hist), |s.hist|)
         else if Latest(s.hist).None? then t.request == Unavailable
         else t.request == HasWindow(Latest(s.hist), |s.hist|)
       case HasWindow(live, w) =>
         t.request == HasCost(live, w, LatestFresh(s.hist), |s.hist|)
       case HasCost(live, w, cost, c) =>
         t.request == HasFields(live, w, cost, c, LatestFresh(s.hist), StaleStreak(s.hist), |s.hist|)
       case HasFields(live, w, cost, c, recent, streak, f) =>
         exists reason ::
           var fr := FreshnessOf(recent, streak, reason, s.clock, startedAt, threshold);
           && (fr.stale <==> reason != NoReason)
           && t.request == Replied(live, w, cost, c, f, s.clock, StampFreshness(Unstamped(Served(e, live, cost)), fr))
       case _ => t.request == s.request
  }

  ghost predicate Next(e: Endpoint, startedAt: int, threshold: int, s: System, t: System) {
    WriterStep(s, t) || ClockStep(s, t) || ReadStep(e, startedAt, threshold, s, t)
  }

  ghost predicate Init(s: System) {
    WellPublished(s.hist) && ClockMonotone(s.hist, s.clock) && s.request == Arrived
  }

  // ---- what every step keeps

  predicate NoFreshBetween(h: seq<Cycle>, c: nat, f: nat) {
    forall i :: c <= i < f && i < |h| ==> !Fresh(h[i])
  }

  /** What was read is what the history held at that length. */
  ghost predicate ReadOf(h: seq<Cycle>, live: Option<State>, w: nat, cost: Option<State>, c: nat) {
    && w <= c <= |h|
    && (live.Some? ==> live == Latest(h[..w]))
    && cost == LatestFresh(h[..c])
  }

  /** The flags of a reply are the verdict on history h at clock reading at: stale iff no
      metrics were published within the threshold, with a reason iff stale, and an age that
      counts from the collection, or from the start if there was none. */
  ghost predicate Flagged(h: seq<Cycle>, at: int, startedAt: int, threshold: int, resp: CostResponse) {
    && (!resp.stale <==> FreshWithin(h, at, threshold))
    && (resp.reason != NoReason <==> resp.stale)
    && (resp.neverCollected <==> NoFreshAfter(h, -1))
    && (resp.neverCollected <==> resp.collectedAt.None?)
    && match resp.collectedAt
       case Some(t) => CollectedAt(h, t) && resp.age == Since(t, at)
       case None => resp.age == Since(startedAt, at)
  }

  /** The promise of a reply. */
  ghost predicate Honest(h: seq<Cycle>, cost: Option<State>, c: nat, f: nat, at: int, startedAt: int, threshold: int,
                         resp: CostResponse)
    requires f <= |h|
  {
    // what is served is the cost state; without one nothing is priced
    && (cost.Some? ==> resp.devices == cost.value.cost.devices && resp.jobs == cost.value.cost.jobs)
    && (cost.None? ==> resp.devices == [] && resp.jobs == [])
    // the flags are the verdict on the history at the second read
    && Flagged(h[..f], at, startedAt, threshold, resp)
    // collected_at is never earlier than the served data, and is its time if nothing came between
    && (cost.Some? ==> resp.collectedAt.Some? && cost.value.refreshAt <= resp.collectedAt.value)
    && (cost.Some? && NoFreshBetween(h, c, f) ==> resp.collectedAt == Some(cost.value.refreshAt))
    // the empty answer is flagged as never collected exactly when nothing came between
    && (cost.None? ==> (resp.neverCollected <==> NoFreshBetween(h, c, f)))
  }

  ghost predicate Inv(startedAt: int, threshold: int, s: System) {
    && WellPublished(s.hist) && ClockMonotone(s.hist, s.clock)
    && match s.request
       case HasWindow(live, w) => w <= |s.hist| && live.Some? && live == Latest(s.hist[..w])
       case HasCost(live, w, cost, c) => ReadOf(s.hist, live, w, cost, c)
       case HasFields(live, w, cost, c, recent, _, f) =>
         ReadOf(s.hist, live, w, cost, c) && c <= f <= |s.hist| && recent == LatestFresh(s.hist[..f])
       case Replied(live, w, cost, c, f, at, resp) =>
         ReadOf(s.hist, live, w, cost, c) && c <= f <= |s.hist| && Honest(s.hist, cost, c, f, at, startedAt, threshold, resp)
       case _ => true
  }

  lemma InitEstablishes(startedAt: int, threshold: int, s: System)
    requires Init(s)
    ensures Inv(startedAt, threshold, s)
  {
  }

  lemma PrefixKept(s: System, t: System, k: nat)
    requires WriterStep(s, t) && k <= |s.hist|
    ensures t.hist[..k] == s.hist[..k]
  {
    assert t.hist[..|s.hist|][..k] == t.hist[..k];
  }

  lemma NextKeeps(e: Endpoint, startedAt: int, threshold: int, s: System, t: System)
    requires Inv(startedAt, threshold, s) && Next(e, startedAt, threshold, s, t)
    ensures Inv(startedAt, threshold, t)
  {
    if WriterStep(s, t) {
      WriterKeeps(startedAt, threshold, s, t);
    } else if ClockStep(s, t) {
    } else {
      ReaderKeeps(e, startedAt, threshold, s, t);
    }
  }

  lemma WriterKeeps(startedAt: int, threshold: int, s: System, t: System)
    requires Inv(startedAt, threshold, s) && WriterStep(s, t)
    ensures Inv(startedAt, threshold, t)
  {
    match s.request {
      case HasWindow(_, w) => PrefixKept(s, t, w);
      case HasCost(_, w, _, c) => PrefixKept(s, t, w); PrefixKept(s, t, c);
      case HasFields(_, w, _, c, _, _, f) => PrefixKept(s, t, w); PrefixKept(s, t, c); PrefixKept(s, t, f);
      case Replied(_, w, _, c, f, _, _) =>
        PrefixKept(s, t, w); PrefixKept(s, t, c); PrefixKept(s, t, f);
        assert forall i :: 0 <= i < |s.hist| ==> t.hist[i] == t.hist[..|s.hist|][i];
      case _ =>
    }
  }

  lemma ReaderKeeps(e: Endpoint, startedAt: int, threshold: int, s: System, t: System)
    requires Inv(startedAt, threshold, s) && ReadStep(e, startedAt, threshold, s, t)
    ensures Inv(startedAt, threshold, t)
  {
    var h := s.hist;
    assert h[..|h|] == h;
    if s.request.HasFields? {
      var HasFields(live, w, cost, c, recent, streak, f) := s.request;
      var reason :|
        var fr := FreshnessOf(recent, streak, reason, s.clock, startedAt, threshold);
        && (fr.stale <==> reason != NoReason)
        && t.request == Replied(live, w, cost, c, f, s.clock, StampFreshness(Unstamped(Served(e, live, cost)), fr));
      ReplyIsHonest(e, h, live, w, cost, c, recent, f);
      PrefixMonotone(h, f, s.clock);
      ReplyIsFlagged(e, h[..f], streak, reason, s.clock, startedAt, threshold, live, cost);
    }
  }

  lemma PrefixMonotone(h: seq<Cycle>, f: nat, now: int)
    requires ClockMonotone(h, now) && f <= |h|
    ensures ClockMonotone(h[..f], now)
  {
  }

  /** The handler's stamp is the verdict. */
  lemma ReplyIsFlagged(e: Endpoint, h: seq<Cycle>, streak: nat, reason: Reason, at: int, startedAt: int, threshold: int,
                       live: Option<State>, cost: Option<State>)
    requires ClockMonotone(h, at)
    requires FreshnessOf(LatestFresh(h), streak, reason, at, startedAt, threshold).stale <==> reason != NoReason
    ensures Flagged(h, at, startedAt, threshold,
                    StampFreshness(Unstamped(Served(e, live, cost)),
                                   FreshnessOf(LatestFresh(h), streak, reason, at, startedAt, threshold)))
  {
    FreshnessIsExact(h, streak, reason, at, startedAt, threshold);
  }

  lemma ReplyIsHonest(e: Endpoint, h: seq<Cycle>, live: Option<State>, w: nat, cost: Option<State>, c: nat,
                      recent: Option<State>, f: nat)
    requires WellPublished(h) && exists now :: ClockMonotone(h, now)
    requires ReadOf(h, live, w, cost, c) && c <= f <= |h| && recent == LatestFresh(h[..f])
    ensures cost.None? ==> Served(e, live, cost) == CostReport([], [])
    ensures cost.Some? ==> recent.Some? && cost.value.refreshAt <= recent.value.refreshAt
    ensures NoFreshBetween(h, c, f) ==> recent == cost
    ensures cost.None? && !NoFreshBetween(h, c, f) ==> recent.Some?
  {
    LatestFreshGrows(h, c, f);
    if cost.None? && live.Some? {
      LiveWithoutMetricsIsUnpriced(h, w, c);
    }
  }

  /** The cost state only moves forward in time. */
  lemma LatestFreshGrows(h: seq<Cycle>, c: nat, f: nat)
    requires c <= f <= |h| && exists now :: ClockMonotone(h, now)
    ensures var a, b := LatestFresh(h[..c]), LatestFresh(h[..f]);
            && (NoFreshBetween(h, c, f) ==> a == b)
            && (!NoFreshBetween(h, c, f) ==> b.Some?)
            && (a.Some? ==> b.Some? && a.value.refreshAt <= b.value.refreshAt)
    decreases f - c
  {
    if c < f {
      LatestFreshGrows(h, c, f - 1);
      assert h[..f][..f - 1] == h[..f - 1];
      if Fresh(h[f - 1]) && LatestFresh(h[..c]).Some? {
        CostStateIsLastFresh(h[..c]);
        var i :| TracesTo(h[..c], i);
        assert h[i] == h[..c][i] && h[i].Published? && h[f - 1].Published?;
      }
    }
  }

  /** It stays the same exactly when no metrics-bearing publish falls between. */
  lemma CostStateStaysIff(h: seq<Cycle>, c: nat, f: nat)
    requires WellPublished(h) && c <= f <= |h|
    ensures LatestFresh(h[..c]) == LatestFresh(h[..f]) <==> NoFreshBetween(h, c, f)
    decreases f - c
  {
    if c < f {
      CostStateStaysIff(h, c, f - 1);
      assert h[..f][..f - 1] == h[..f - 1];
      if Fresh(h[f - 1]) {
        NotYetTheCostState(h, c, f - 1);
      } else if !NoFreshBetween(h, c, f - 1) {
        var i :| c <= i < f - 1 && i < |h| && Fresh(h[i]);
        assert c <= i < f;
      }
    }
  }

  lemma NotYetTheCostState(h: seq<Cycle>, c: nat, i: nat)
    requires WellPublished(h) && c <= i < |h| && Fresh(h[i])
    ensures LatestFresh(h[..c]) != Some(h[i].state)
  {
    if LatestFresh(h[..c]).Some? {
      CostStateIsLastFresh(h[..c]);
      var j :| TracesTo(h[..c], j);
      assert h[..c][j] == h[j] && h[j].Published?;
      RefreshesStrictlyIncrease(h, j, i);
    }
  }

  /** While nothing was ever collected, every published window is unpriced. */
  lemma {:induction false} LiveWithoutMetricsIsUnpriced(h: seq<Cycle>, w: nat, c: nat)
    requires WellPublished(h) && w <= c <= |h|
    requires LatestFresh(h[..c]).None? && Latest(h[..w]).Some?
    ensures Latest(h[..w]).value.cost == CostReport([], [])
  {
    if w > 0 {
      assert h[..w][..w - 1] == h[..w - 1];
      if h[w - 1].Published? {
        CostStateIsLastFresh(h[..c]);
        assert h[..c][w - 1] == h[w - 1];
        assert PublishedWell(h, w - 1);
      } else {
        LiveWithoutMetricsIsUnpriced(h, w - 1, c);
      }
    }
  }

  // ---- whole runs

  ghost predicate IsRun(e: Endpoint, startedAt: int, threshold: int, run: seq<System>) {
    && run != [] && Init(run[0])
    && forall i :: 0 <= i < |run| - 1 ==> NextAt(e, startedAt, threshold, run, i)
  }

  ghost predicate NextAt(e: Endpoint, startedAt: int, threshold: int, run: seq<System>, i: nat)
    requires i + 1 < |run|
  {
    Next(e, startedAt, threshold, run[i], run[i + 1])
  }

  lemma {:induction false} RunsKeepInv(e: Endpoint, startedAt: int, threshold: int, run: seq<System>, i: nat)
    requires IsRun(e, startedAt, threshold, run) && i < |run|
    ensures Inv(startedAt, threshold, run[i])
  {
    if i == 0 {
      InitEstablishes(startedAt, threshold, run[0]);
    } else {
      RunsKeepInv(e, startedAt, threshold, run, i - 1);
      assert NextAt(e, startedAt, threshold, run, i - 1);
      NextKeeps(e, startedAt, threshold, run[i - 1], run[i]);
    }
  }

  /** In every interleaving every reply is honest about the data it serves. */
  lemma RepliesAreHonest(e: Endpoint, startedAt: int, threshold: int, run: seq<System>, i: nat)
    requires IsRun(e, startedAt, threshold, run) && i < |run| && run[i].request.Replied?
    ensures var h, r := run[i].hist, run[i].request;
            && r.c <= r.f <= |h| && r.cost == LatestFresh(h[..r.c])
            && Honest(h, r.cost, r.c, r.f, r.at, startedAt, threshold, r.resp)
  {
    RunsKeepInv(e, startedAt, threshold, run, i);
  }

  predicate NothingPublished(h: seq<Cycle>) {
    forall i :: 0 <= i < |h| ==> !h[i].Published?
  }

  lemma {:induction false} LatestNoneIff(h: seq<Cycle>)
    ensures Latest(h).None? <==> NothingPublished(h)
  {
    if h != [] {
      LatestNoneIff(h[..|h| - 1]);
      assert forall i :: 0 <= i < |h| - 1 ==> h[..|h| - 1][i] == h[i];
    }
  }

  /** Only /window is ever refused, and only if nothing had been published when it asked. */
  lemma {:induction false} RefusedMeans(e: Endpoint, startedAt: int, threshold: int, run: seq<System>, i: nat)
    requires IsRun(e, startedAt, threshold, run) && i < |run| && run[i].request.Unavailable?
    ensures e == WindowEndpoint && exists j :: 0 <= j < i && run[j].request.Arrived? && NothingPublished(run[j].hist)
  {
    assert i > 0 && NextAt(e, startedAt, threshold, run, i - 1);
    if run[i - 1].request.Unavailable? {
      RefusedMeans(e, startedAt, threshold, run, i - 1);
    } else {
      LatestNoneIff(run[i - 1].hist);
    }
  }

  lemma FirstPublish(st: State, request: Request)
    requires st.refreshes == 1 && st.refreshAt == 0
    ensures var h := [Published(0, true, st)];
            && WriterStep(System([], 0, request), System(h, 0, request))
            && LatestFresh(h) == Some(st) && StaleStreak(h) == 0
  {
    var h := [Published(0, true, st)];
    HistoryStep([], h[0]);
    assert [] + h == h;
  }

  /** The documented empty answer (stale and never collected) can be missed: if the first
      metrics arrive between the two reads, /cost answers with no devices, fresh. */
  lemma EmptyReplyCanLookFresh(st: State, startedAt: int, threshold: nat) returns (run: seq<System>)
    requires st.refreshes == 1 && st.refreshAt == 0
    ensures IsRun(CostEndpoint, startedAt, threshold, run) && |run| == 5
    ensures var r := run[4].request;
            && r.Replied? && r.resp.devices == [] && !r.resp.stale && !r.resp.neverCollected
            && r.resp.collectedAt == Some(0) && !NoFreshBetween(run[4].hist, r.c, r.f)
  {
    var h := [Published(0, true, st)];
    FirstPublish(st, HasCost(None, 0, None, 0));
    var resp := StampFreshness(Unstamped(CostReport([], [])),
                               FreshnessOf(Some(st), 0, NoReason, 0, startedAt, threshold));
    run := [System([], 0, Arrived),
            System([], 0, HasCost(None, 0, None, 0)),
            System(h, 0, HasCost(None, 0, None, 0)),
            System(h, 0, HasFields(None, 0, None, 0, Some(st), 0, 1)),
            System(h, 0, Replied(None, 0, None, 0, 1, 0, resp))];
    assert ReadStep(CostEndpoint, startedAt, threshold, run[0], run[1]);
    assert WriterStep(run[1], run[2]);
    assert ReadStep(CostEndpoint, startedAt, threshold, run[2], run[3]);
    assert ReadStep(CostEndpoint, startedAt, threshold, run[3], run[4]);
    assert Fresh(h[0]);
  }
}
