/** What becomes of a collection cycle (daemon.go), over the collectors' answers alone: when
    it is cancelled, fails or publishes, and what it publishes. */
module CycleFacts {
  import opened Prelude
  import opened Ordering
  import opened Evidence
  import opened Legs
  import opened Normalize
  import opened Cost
  import opened Daemons

  /** The observations among the answers, in order. */
  function OkAnswers(answers: seq<Answer>): seq<Observation> {
    if answers == [] then []
    else
      var a := answers[|answers| - 1];
      match a
      case Ok(o) => OkAnswers(answers[..|answers| - 1]) + [o]
      case Err(_) => OkAnswers(answers[..|answers| - 1])
  }

  /** How many collectors refused, and how many of them for the profiling rate cap. */
  function Refusals(answers: seq<Answer>): nat {
    if answers == [] then 0 else Refusals(answers[..|answers| - 1]) + if answers[|answers| - 1].Err? then 1 else 0
  }

  function Cappings(answers: seq<Answer>): nat {
    if answers == [] then 0
    else
      var a := answers[|answers| - 1];
      Cappings(answers[..|answers| - 1]) + if a.Err? && a.error.capped then 1 else 0
  }

  lemma {:induction false} AnswersAre(answers: seq<Answer>)
    ensures FlatMap(answers, Answered) == OkAnswers(answers)
    ensures |FlatMap(answers, Refused)| == Refusals(answers)
    ensures |Select(FlatMap(answers, Refused), SoftError)| == Cappings(answers)
    ensures |OkAnswers(answers)| + Refusals(answers) == |answers|
  {
    if answers != [] {
      AnswersAre(answers[..|answers| - 1]);
      var front, a := FlatMap(answers[..|answers| - 1], Refused), answers[|answers| - 1];
      SelectConcat(front, Refused(a), SoftError);
      if a.Err? {
        assert Refused(a)[..0] == [];
      }
    }
  }

  /** Every collector refused, and there were some. */
  ghost predicate AllRefused(answers: seq<Answer>) {
    answers != [] && forall a :: a in answers ==> a.Err?
  }

  /** Some collector answered with device data. */
  ghost predicate BroughtMetrics(answers: seq<Answer>) {
    exists o :: Ok(o) in answers && o.deviceWindows != []
  }

  lemma {:induction false} OkMember(answers: seq<Answer>, o: Observation)
    ensures o in OkAnswers(answers) <==> Ok(o) in answers
  {
    if answers != [] {
      OkMember(answers[..|answers| - 1], o);
      assert answers == answers[..|answers| - 1] + [answers[|answers| - 1]];
    }
  }

  lemma AllRefusedIff(answers: seq<Answer>)
    ensures AllRefused(answers) <==> answers != [] && OkAnswers(answers) == []
  {
    forall o { OkMember(answers, o); }
    forall a | a in answers && a.Ok? ensures a.value in OkAnswers(answers) {
      assert a == Ok(a.value);
    }
    if OkAnswers(answers) != [] {
      assert Ok(OkAnswers(answers)[0]) in answers;
    }
  }

  lemma BroughtMetricsIff(answers: seq<Answer>)
    ensures BroughtMetrics(answers) <==> AnyMetrics(OkAnswers(answers))
  {
    forall o { OkMember(answers, o); }
    if BroughtMetrics(answers) {
      var o :| Ok(o) in answers && o.deviceWindows != [];
      assert HasMetrics(o);
    }
    if AnyMetrics(OkAnswers(answers)) {
      var o :| o in OkAnswers(answers) && HasMetrics(o);
      assert Ok(o) in answers;
    }
  }

  // ---- the price of a window does not depend on its pack

  ghost predicate SamePrices(a: SignalWindow, b: SignalWindow) {
    a.samples == b.samples && a.specs == b.specs && a.jobs == b.jobs
  }

  lemma {:induction false} SameWedges(a: SignalWindow, b: SignalWindow, p: Pricing, us: seq<string>)
    requires SamePrices(a, b) && forall u :: u in us ==> u in a.samples
    ensures Wedges(a, p, us) == Wedges(b, p, us)
  {
    if us != [] {
      SameWedges(a, b, p, us[..|us| - 1]);
    }
  }

  lemma SameCost(a: SignalWindow, b: SignalWindow, p: Pricing)
    requires SamePrices(a, b)
    ensures CostReportOf(a, p) == CostReportOf(b, p)
  {
    var us := SampledUuids(a);
    SameUuids(a, b);
    SameWedges(a, b, p, us);
    var r := Wedges(a, p, us);
    if r.Ok? {
      SameImpacts(a, b, p, r.value);
    }
  }

  lemma SameUuids(a: SignalWindow, b: SignalWindow)
    requires SamePrices(a, b)
    ensures SampledUuids(a) == SampledUuids(b)
  {
    StrLeqIsTotal();
  }

  lemma SameImpacts(a: SignalWindow, b: SignalWindow, p: Pricing, ws: map<string, Wedge>)
    requires SamePrices(a, b)
    ensures FlatMap(a.jobs, JobImpacts(a, p, ws)) == FlatMap(b.jobs, JobImpacts(b, p, ws))
  {
    forall i | 0 <= i < |a.jobs| ensures JobImpacts(a, p, ws)(a.jobs[i]) == JobImpacts(b, p, ws)(a.jobs[i]) {
      assert JobSpecs(a, ws, a.jobs[i].devices) == JobSpecs(b, ws, a.jobs[i].devices);
    }
    FlatMapCongruence(a.jobs, JobImpacts(a, p, ws), JobImpacts(b, p, ws));
  }

  // ---- the cycle

  /** w is the window n with, if a collector refused, three more words of provenance. */
  ghost predicate IsAnnotated(n: SignalWindow, answers: seq<Answer>, w: SignalWindow) {
    && w == n.(pack := n.pack.(provenance := w.pack.provenance))
    && var p := w.pack.provenance;
       if Refusals(answers) == 0 then p == n.pack.provenance
       else Says(n.pack.provenance, p, Decimal(Refusals(answers)), Decimal(Cappings(answers)))
  }

  /** p says what q does, and that the collection was partial: how many sources failed, and
      how many of them were capped. */
  ghost predicate Says(q: map<string, string>, p: map<string, string>, failed: string, capped: string) {
    && p.Keys == q.Keys + {PARTIAL, FAILED, CAPPED}
    && p[PARTIAL] == "true" && p[FAILED] == failed && p[CAPPED] == capped
    && forall k :: k in q && k !in {PARTIAL, FAILED, CAPPED} ==> p[k] == q[k]
  }

  lemma ThreeMore(q: map<string, string>, failed: string, capped: string)
    ensures Says(q, q[PARTIAL := "true"][FAILED := failed][CAPPED := capped], failed, capped)
  {
    KeysDiffer();
  }

  const PARTIAL := "agent.partial_collection"
  const FAILED := "agent.failed_sources"
  const CAPPED := "agent.soft_capped_sources"

  lemma KeysDiffer()
    ensures PARTIAL != FAILED && PARTIAL != CAPPED && FAILED != CAPPED
  {
    assert PARTIAL[6] == 'p' && FAILED[6] == 'f' && CAPPED[6] == 's';
  }

  lemma AnnotatedIs(n: SignalWindow, answers: seq<Answer>, w: SignalWindow)
    requires w == Annotated(n, |answers|, |OkAnswers(answers)|, Cappings(answers))
    ensures IsAnnotated(n, answers, w)
  {
    AnswersAre(answers);
    ThreeMore(n.pack.provenance, Decimal(Refusals(answers)), Decimal(Cappings(answers)));
  }

  /** What a publish holds: the window of the answers, its own cost report, and the gate's
      verdict on its pack. */
  ghost predicate IsPublishOf(host: Host, now: int, answers: seq<Answer>, published: nat, n: SignalWindow, c: Cycle) {
    && c.Published?
    && (c.metrics <==> BroughtMetrics(answers))
    && IsAnnotated(n, answers, c.state.window)
    && CostReportOf(c.state.window, host.pricing) == Ok(c.state.cost)
    && c.state.verdict == host.gate(c.state.window.pack)
    && c.state.refreshAt == now && c.state.refreshes == published + 1
  }

  /** No window comes of the answers: the job mapping does not resolve, or a device of the
      window cannot be priced. */
  ghost predicate NoWindow(agentId: string, window: int, host: Host, now: int, answers: seq<Answer>) {
    var n := Normalized(agentId, now, window, OkAnswers(answers), host.lib);
    n.Err? || CostReportOf(n.value, host.pricing).Err?
  }

  lemma DigestIs(agentId: string, window: int, host: Host, now: int, answers: seq<Answer>, obs: seq<Observation>,
                 refused: seq<Error>)
    returns (w: SignalWindow)
    requires obs == OkAnswers(answers) && |refused| == Refusals(answers) && |Select(refused, SoftError)| == Cappings(answers)
    ensures var n, d := Normalized(agentId, now, window, obs, host.lib), Digested(agentId, window, host, now, obs, refused);
            if n.Err? then d.Err?
            else
              && IsAnnotated(n.value, answers, w) && SamePrices(n.value, w)
              && match CostReportOf(w, host.pricing)
                 case Err(_) => d.Err?
                 case Ok(cost) => d == Ok(State(w, cost, now, 0, host.gate(w.pack)))
  {
    AnswersAre(answers);
    var n := Normalized(agentId, now, window, obs, host.lib);
    if n.Ok? {
      w := Annotated(n.value, |answers|, |obs|, Cappings(answers));
      AnnotatedIs(n.value, answers, w);
    } else {
      w := *;
    }
  }

  /** Exactly when a cycle is cancelled, fails or publishes, and what it publishes. */
  lemma CycleIsExact(agentId: string, window: int, host: Host, now: int, answers: seq<Answer>, cancelledAt: nat, published: nat)
    ensures var c := CycleOf(agentId, window, host, now, answers, cancelledAt, published);
            && (c.Cancelled? <==> cancelledAt < |answers|)
            && c.refused == Refusals(if cancelledAt < |answers| then answers[..cancelledAt] else answers)
            && (!c.Cancelled? ==> (c.Failed? <==> AllRefused(answers) || NoWindow(agentId, window, host, now, answers)))
            && (c.Published? ==>
                  var n := Normalized(agentId, now, window, OkAnswers(answers), host.lib);
                  n.Ok? && IsPublishOf(host, now, answers, published, n.value, c))
  {
    if cancelledAt < |answers| {
      AnswersAre(answers[..cancelledAt]);
    } else {
      AnswersAre(answers);
      AllRefusedIff(answers);
      BroughtMetricsIff(answers);
      var obs, refused := OkAnswers(answers), FlatMap(answers, Refused);
      var w := DigestIs(agentId, window, host, now, answers, obs, refused);
      var n := Normalized(agentId, now, window, obs, host.lib);
      if n.Ok? {
        SameCost(n.value, w, host.pricing);
      }
    }
  }
}
