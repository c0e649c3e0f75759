/** The collection daemon (daemon.go): one writer publishing immutable states, with a
    separate cost-bearing state and the counters behind the staleness verdict. */
module Daemons {
  import opened Prelude
  import opened Evidence
  import opened Legs
  import opened Gather
  import opened Normalize
  import opened Provenance
  import opened Cost

  // Times are in milliseconds.
  const SECOND: int := 1000

  datatype State = State(window: SignalWindow, cost: CostReport, refreshAt: int, refreshes: nat, verdict: Option<Verdict>)

  /** Why metrics are stale; every case but NoReason renders as a non-empty text. */
  datatype Reason =
    | NoReason
    | Streak(count: nat, cause: string)
    | NeverCollected(last: Reason)
    | AgeExceeds(age: int, threshold: int)

  /** Everything outside the daemon that a cycle consults. */
  datatype Host = Host(lib: Library, pricing: Pricing, gate: EvidencePack -> Option<Verdict>)

  type Answer = Result<Observation, Error>

  function Answered(a: Answer): seq<Observation> { if a.Ok? then [a.value] else [] }
  function Refused(a: Answer): seq<Error> { if a.Err? then [a.error] else [] }
  predicate SoftError(e: Error) { e.capped }
  predicate HasMetrics(o: Observation) { o.deviceWindows != [] }

  // ---- the ghost history of completed and cancelled cycles

  datatype Cycle =
    | Cancelled(refused: nat)
    | Failed(refused: nat)
    | Published(refused: nat, metrics: bool, state: State)

  predicate IsPublish(c: Cycle) { c.Published? }

  /** How many cycles published. */
  function Publishes(h: seq<Cycle>): nat { |Select(h, IsPublish)| }

  /** The latest published state. */
  ghost function Latest(h: seq<Cycle>): Option<State> {
    if h == [] then None
    else if h[|h| - 1].Published? then Some(h[|h| - 1].state)
    else Latest(h[..|h| - 1])
  }

  predicate Fresh(c: Cycle) { c.Published? && c.metrics }

  /** The latest published state that carried metrics. */
  ghost function LatestFresh(h: seq<Cycle>): Option<State> {
    if h == [] then None
    else if Fresh(h[|h| - 1]) then Some(h[|h| - 1].state)
    else LatestFresh(h[..|h| - 1])
  }

  /** How many cycles completed without metrics since the last that brought some. */
  ghost function StaleStreak(h: seq<Cycle>): nat {
    if h == [] then 0
    else if Fresh(h[|h| - 1]) then 0
    else StaleStreak(h[..|h| - 1]) + if h[|h| - 1].Cancelled? then 0 else 1
  }

  /** Collector errors, plus one per cycle that failed as a whole. */
  ghost function Errors(h: seq<Cycle>): nat {
    if h == [] then 0 else Errors(h[..|h| - 1]) + h[|h| - 1].refused + if h[|h| - 1].Failed? then 1 else 0
  }

  /** A published state carries its place in the order of publishes, and a cost report
      without devices unless metrics were collected. */
  ghost predicate PublishedWell(h: seq<Cycle>, i: nat)
    requires i < |h|
  {
    h[i].Published? ==>
      && h[i].state.refreshes == Publishes(h[..i + 1])
      && (!h[i].metrics ==> h[i].state.cost == CostReport([], []))
  }

  ghost predicate WellPublished(h: seq<Cycle>) {
    forall i: nat {:trigger PublishedWell(h, i)} :: i < |h| ==> PublishedWell(h, i)
  }

  ghost predicate AnyMetrics(obs: seq<Observation>) {
    exists o :: o in obs && HasMetrics(o)
  }

  /** The state that the answers of one cycle amount to, not yet numbered. */
  ghost function Digested(agentId: string, window: int, host: Host, now: int,
                          obs: seq<Observation>, refused: seq<Error>): Result<State, Error>
  {
    match Normalized(agentId, now, window, obs, host.lib)
    case Err(e) => Err(e)
    case Ok(raw) =>
      var win := Annotated(raw, |obs| + |refused|, |obs|, |Select(refused, SoftError)|);
      match CostReportOf(win, host.pricing)
      case Err(e) => Err(e)
      case Ok(cost) => Ok(State(win, cost, now, 0, host.gate(win.pack)))
  }

  /** What becomes of the answers once every collector was asked. */
  ghost function Concluded(agentId: string, window: int, host: Host, now: int, obs: seq<Observation>,
                           refused: seq<Error>, published: nat): Cycle
  {
    if obs == [] && refused != [] then Failed(|refused|)
    else Booked(Digested(agentId, window, host, now, obs, refused), AnyMetrics(obs), |refused|, published)
  }

  ghost function Booked(digest: Result<State, Error>, metrics: bool, refused: nat, published: nat): Cycle {
    match digest
    case Err(_) => Failed(refused)
    case Ok(st) => Published(refused, metrics, st.(refreshes := published + 1))
  }

  /** The cycle a daemon goes through, given the collectors' answers and before which
      collector (if any) the context was found cancelled. */
  ghost function CycleOf(agentId: string, window: int, host: Host, now: int, answers: seq<Answer>, cancelledAt: nat,
                         published: nat): Cycle
  {
    if cancelledAt < |answers| then Cancelled(|FlatMap(answers[..cancelledAt], Refused)|)
    else Concluded(agentId, window, host, now, FlatMap(answers, Answered), FlatMap(answers, Refused), published)
  }

  /** Non-adjudicating provenance of a partial collection. */
  function Annotated(win: SignalWindow, collectors: nat, answered: nat, capped: nat): SignalWindow {
    if answered >= collectors then win
    else win.(pack := win.pack.(provenance := win.pack.provenance[
      "agent.partial_collection" := "true"][
      "agent.failed_sources" := Decimal(collectors - answered)][
      "agent.soft_capped_sources" := Decimal(capped)]))
  }

  class Daemon {
    const agentId: string
    const window: int
    const stalenessAfter: int
    const startedAt: int
    const host: Host

    var state: Option<State>
    var costState: Option<State>
    var errs: nat
    var consecFails: nat
    var lastReason: Reason

    ghost var hist: seq<Cycle>

    /** The fields are the history, summed up. */
    ghost predicate Valid()
      reads this
    {
      Underway(0)
    }

    constructor (agentId: string, window: int, stalenessAfter: int, now: int, host: Host)
      ensures Valid() && hist == []
      ensures this.agentId == (if agentId == "" then "gpufleet-agent" else agentId)
      ensures this.window == (if window <= 0 then 60 * SECOND else window)
      ensures this.stalenessAfter == if stalenessAfter <= 0 then DefaultStalenessAfter(this.window) else stalenessAfter
      ensures startedAt == now && this.host == host
    {
      var w := if window <= 0 then 60 * SECOND else window;
      this.agentId := if agentId == "" then "gpufleet-agent" else agentId;
      this.window := w;
      this.stalenessAfter := if stalenessAfter <= 0 then DefaultStalenessAfter(w) else stalenessAfter;
      startedAt, this.host := now, host;
      state, costState, errs, consecFails, lastReason := None, None, 0, 0, NoReason;
      hist := [];
    }

    /** The fields match the history, but for errors of the cycle under way. */
    ghost predicate Underway(refused: nat)
      reads this
    {
      && state == Latest(hist) && costState == LatestFresh(hist)
      && errs == Errors(hist) + refused && consecFails == StaleStreak(hist)
      && (lastReason == NoReason <==> consecFails == 0) && !lastReason.NeverCollected?
      && WellPublished(hist) && stalenessAfter > 0
    }

    /** One collection cycle; the returned error is None iff a state was published. */
    method Refresh(now: int, answers: seq<Answer>, cancelledAt: nat) returns (err: Option<Error>)
      requires Valid()
      modifies this
      ensures Valid()
      ensures hist == old(hist) + [CycleOf(agentId, window, host, now, answers, cancelledAt, Publishes(old(hist)))]
      ensures err.None? <==> hist[|hist| - 1].Published?
    {
      var obs, refused, metricsFresh, cancelled := Poll(answers, cancelledAt);
      if cancelled {
        RecordCancelled(|refused|);
        return Some(Error("context canceled", false));
      }
      err := Conclude(now, obs, refused, metricsFresh);
    }

    /** Publishes what the collectors answered, or books the failure to do so. */
    method Conclude(now: int, obs: seq<Observation>, refused: seq<Error>, metricsFresh: bool)
      returns (err: Option<Error>)
      requires Underway(|refused|) && (metricsFresh <==> AnyMetrics(obs))
      modifies this
      ensures Valid()
      ensures hist == old(hist) + [Concluded(agentId, window, host, now, obs, refused, Publishes(old(hist)))]
      ensures err.None? <==> hist[|hist| - 1].Published?
    {
      if obs == [] && refused != [] {
        RecordMetricsFailure(refused[0].msg, |refused|);
        return Some(refused[0]);
      }
      err := Settle(now, obs, refused, metricsFresh);
    }

    /** The cycle of the sources that answered. */
    method Settle(now: int, obs: seq<Observation>, refused: seq<Error>, metricsFresh: bool) returns (err: Option<Error>)
      requires Underway(|refused|) && (metricsFresh <==> AnyMetrics(obs))
      modifies this
      ensures Valid()
      ensures hist == old(hist) + [Booked(Digested(agentId, window, host, now, obs, refused), metricsFresh,
                                               |refused|, Publishes(old(hist)))]
      ensures err.None? <==> hist[|hist| - 1].Published?
    {
      var digest := Digest(now, obs, refused);
      if !metricsFresh {
        NoMetricsNoCost(agentId, window, host, now, obs, refused);
      }
      err := Book(digest, metricsFresh, refused);
    }

    method Book(digest: Result<State, Error>, metricsFresh: bool, refused: seq<Error>) returns (err: Option<Error>)
      requires Underway(|refused|)
      requires !metricsFresh && digest.Ok? ==> digest.value.cost == CostReport([], [])
      modifies this
      ensures Valid()
      ensures hist == old(hist) + [Booked(digest, metricsFresh, |refused|, Publishes(old(hist)))]
      ensures err.None? <==> hist[|hist| - 1].Published?
    {
      if digest.Err? {
        RecordMetricsFailure(digest.error.msg, |refused|);
        return Some(digest.error);
      }
      Publish(digest.value, metricsFresh, refused);
      err := None;
    }

    /** Normalizes, prices and judges what the collectors answered. */
    method Digest(now: int, obs: seq<Observation>, refused: seq<Error>) returns (r: Result<State, Error>)
      ensures r == Digested(agentId, window, host, now, obs, refused)
    {
      var normalized := Normalize.Normalize(agentId, now, window, obs, host.lib);
      if normalized.Err? {
        return Err(normalized.error);
      }
      var win := Annotated(normalized.value, |obs| + |refused|, |obs|, |Select(refused, SoftError)|);
      var cost := CostWedge(win, host.pricing);
      if cost.Err? {
        return Err(cost.error);
      }
      r := Ok(State(win, cost.value, now, 0, host.gate(win.pack)));
    }

    /** Asks every collector, isolating each error, until the context is cancelled. */
    method Poll(answers: seq<Answer>, cancelledAt: nat)
      returns (obs: seq<Observation>, refused: seq<Error>, metricsFresh: bool, cancelled: bool)
      modifies `errs
      ensures errs == old(errs) + |refused|
      ensures cancelled <==> cancelledAt < |answers|
      ensures cancelled ==> refused == FlatMap(answers[..cancelledAt], Refused)
      ensures !cancelled ==> obs == FlatMap(answers, Answered) && refused == FlatMap(answers, Refused)
                             && |obs| + |refused| == |answers|
      ensures !cancelled ==> (metricsFresh <==> AnyMetrics(obs))
    {
      obs, refused, metricsFresh, cancelled := [], [], false, false;
      for i := 0 to |answers|
        invariant i <= cancelledAt
        invariant errs == old(errs) + |refused|
        invariant obs == FlatMap(answers[..i], Answered) && refused == FlatMap(answers[..i], Refused)
        invariant |obs| + |refused| == i
        invariant metricsFresh <==> AnyMetrics(obs)
      {
        if i == cancelledAt {
          cancelled := true;
          return;
        }
        FlatMapStep(answers, Answered, i);
        FlatMapStep(answers, Refused, i);
        match answers[i] {
          case Err(e) =>
            errs := errs + 1;
            refused := refused + [e];
          case Ok(o) =>
            if |o.deviceWindows| > 0 {
              metricsFresh := true;
            }
            AnyMetricsStep(obs, o);
            obs := obs + [o];
        }
      }
      FlatMapWhole(answers, Answered);
      FlatMapWhole(answers, Refused);
    }

    /** A cancelled cycle leaves no trace but the errors already counted. */
    ghost method RecordCancelled(refused: nat)
      requires Underway(refused)
      modifies `hist
      ensures Valid() && hist == old(hist) + [Cancelled(refused)]
    {
      HistoryStep(hist, Cancelled(refused));
      hist := hist + [Cancelled(refused)];
    }

    /** Books a cycle that produced nothing to publish; the states stay in place. */
    method RecordMetricsFailure(cause: string, ghost refused: nat)
      requires Underway(refused)
      modifies this
      ensures Valid() && hist == old(hist) + [Failed(refused)]
    {
      errs, consecFails := errs + 1, consecFails + 1;
      lastReason := Streak(consecFails, cause);
      HistoryStep(hist, Failed(refused));
      hist := hist + [Failed(refused)];
    }

    /** Swaps in a new state; only a cycle with metrics advances the cost state. */
    method Publish(st: State, metricsFresh: bool, refused: seq<Error>)
      requires Underway(|refused|)
      requires !metricsFresh ==> st.cost == CostReport([], [])
      modifies this
      ensures Valid()
      ensures hist == old(hist) + [Published(|refused|, metricsFresh, st.(refreshes := Publishes(old(hist)) + 1))]
    {
      LatestCountsPublishes(hist);
      var prev := if state.Some? then state.value.refreshes else 0;
      var newState := st.(refreshes := prev + 1);
      state := Some(newState);
      if metricsFresh {
        costState, consecFails, lastReason := Some(newState), 0, NoReason;
      } else {
        consecFails := consecFails + 1;
        lastReason := Streak(consecFails, if refused != [] then refused[0].msg else "no metrics scraped this cycle");
      }
      HistoryStep(hist, Published(|refused|, metricsFresh, newState));
      hist := hist + [Published(|refused|, metricsFresh, newState)];
    }

    method Snapshot() returns (st: Option<State>)
      requires Valid()
      ensures st == Latest(hist)
    {
      st := state;
    }

    method CostSnapshot() returns (st: Option<State>)
      requires Valid()
      ensures st == LatestFresh(hist)
    {
      st := costState;
    }

    /** The freshness verdict at clock reading now. */
    method Freshness(now: int) returns (f: Freshness)
      requires Valid()
      ensures f.consecFails == StaleStreak(hist)
      ensures f.stale <==> f.reason != NoReason
      ensures f == FreshnessOf(LatestFresh(hist), StaleStreak(hist), f.reason, now, startedAt, stalenessAfter)
    {
      var age;
      if costState.None? {
        age := now - startedAt;
        if age < 0 {
          age := 0;
        }
        return FreshnessReport(false, true, 0, age, true, NeverCollected(lastReason), consecFails);
      }
      age := now - costState.value.refreshAt;
      if age < 0 {
        age := 0;
      }
      var reason := NoReason;
      var stale := age > stalenessAfter;
      if stale {
        reason := if lastReason == NoReason then AgeExceeds(age, stalenessAfter) else lastReason;
      }
      f := FreshnessReport(true, false, costState.value.refreshAt, age, stale, reason, consecFails);
    }
  }

  /** collectedAt is meaningful only when hasData. */
  datatype Freshness = FreshnessReport(hasData: bool, neverCollected: bool, collectedAt: int, age: int, stale: bool,
                                 reason: Reason, consecFails: nat)

  /** The verdict on a cost state; the wording of the reason is given. */
  function FreshnessOf(cost: Option<State>, streak: nat, reason: Reason, now: int, startedAt: int,
                       threshold: int): Freshness {
    if cost.None? then FreshnessReport(false, true, 0, AtLeastZero(now - startedAt), true, reason, streak)
    else
      var age := AtLeastZero(now - cost.value.refreshAt);
      FreshnessReport(true, false, cost.value.refreshAt, age, age > threshold, reason, streak)
  }

  function AtLeastZero(d: int): int { if d < 0 then 0 else d }

  /** Three windows, but no less than five seconds. */
  function DefaultStalenessAfter(d: int): (v: int)
    ensures v >= 3 * d && v >= 5000 && (v == 3 * d || v == 5000)
  {
    if 3 * d > 5 * SECOND then 3 * d else 5 * SECOND
  }

  // ---- the history functions

  lemma HistoryStep(h: seq<Cycle>, c: Cycle)
    ensures var g := h + [c];
            && Publishes(g) == Publishes(h) + (if c.Published? then 1 else 0)
            && Latest(g) == (if c.Published? then Some(c.state) else Latest(h))
            && LatestFresh(g) == (if Fresh(c) then Some(c.state) else LatestFresh(h))
            && StaleStreak(g) == (if Fresh(c) then 0 else StaleStreak(h) + if c.Cancelled? then 0 else 1)
            && Errors(g) == Errors(h) + c.refused + (if c.Failed? then 1 else 0)
            && (WellPublished(h)
                && (c.Published? ==> c.state.refreshes == Publishes(h) + 1
                                     && (!c.metrics ==> c.state.cost == CostReport([], [])))
                ==> WellPublished(g))
  {
    var g := h + [c];
    assert g[..|h|] == h;
    assert g[..|h| + 1] == g;
    if WellPublished(h) {
      forall i: nat | i < |h| ensures PublishedWell(g, i) {
        assert PublishedWell(h, i) && g[i] == h[i] && g[..i + 1] == h[..i + 1];
      }
    }
  }

  /** The published counter of the live state is the number of publishes. */
  lemma {:induction false} LatestCountsPublishes(h: seq<Cycle>)
    requires WellPublished(h)
    ensures if Latest(h).Some? then Latest(h).value.refreshes == Publishes(h) else Publishes(h) == 0
  {
    if h != [] {
      var n := |h| - 1;
      assert PublishedWell(h, n) && h[..n + 1] == h;
      if !h[n].Published? {
        forall i: nat | i < n ensures PublishedWell(h[..n], i) {
          assert PublishedWell(h, i) && h[..n][i] == h[i] && h[..n][..i + 1] == h[..i + 1];
        }
        LatestCountsPublishes(h[..n]);
      }
    }
  }

  lemma AnyMetricsStep(obs: seq<Observation>, o: Observation)
    ensures AnyMetrics(obs + [o]) <==> AnyMetrics(obs) || HasMetrics(o)
  {
    if AnyMetrics(obs) {
      var p :| p in obs && HasMetrics(p);
      assert p in obs + [o];
    }
    assert o in obs + [o];
  }

  /** Without a device window nothing is priced. */
  lemma NoMetricsNoCost(agentId: string, window: int, host: Host, now: int, obs: seq<Observation>, refused: seq<Error>)
    requires !AnyMetrics(obs)
    ensures var r := Digested(agentId, window, host, now, obs, refused);
            r.Ok? ==> r.value.cost == CostReport([], [])
  {
    var r := Normalized(agentId, now, window, obs, host.lib);
    if r.Ok? {
      NoMetricsNoSamples(agentId, now, window, obs, host.lib, r.value);
      NoSamplesNoCost(Annotated(r.value, |obs| + |refused|, |obs|, |Select(refused, SoftError)|), host.pricing);
    }
  }

  lemma NoMetricsNoSamples(agentId: string, now: int, window: int, obs: seq<Observation>, lib: Library,
                           win: SignalWindow)
    requires Normalized(agentId, now, window, obs, lib) == Ok(win)
    requires !AnyMetrics(obs)
    ensures win.samples == map[]
  {
    NothingGathered(obs, GatherAll(obs));
    NoSamplesOf(agentId, now, window, GatherAll(obs), lib, win);
  }

  lemma NothingGathered(obs: seq<Observation>, g: Gathered)
    requires g == GatherAll(obs) && !AnyMetrics(obs)
    ensures g.windows.Keys == {}
  {
    NoWindows(obs);
    forall u ensures u !in g.windows {
      MergeIsPerDevice(obs, u);
    }
  }

  lemma NoSamplesOf(agentId: string, now: int, window: int, g: Gathered, lib: Library, win: SignalWindow)
    requires win == WindowFor(agentId, now, window, g, win.jobs, lib) && g.windows.Keys == {}
    ensures win.samples == map[]
  {
  }

  lemma {:induction false} NoWindows(obs: seq<Observation>)
    requires !AnyMetrics(obs)
    ensures FlatMap(obs, AllWindows) == []
  {
    if obs != [] {
      assert obs[|obs| - 1] in obs;
      NoWindows(obs[..|obs| - 1]);
    }
  }
}
