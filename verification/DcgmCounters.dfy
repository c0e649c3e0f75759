/** The stateful half of the DCGM-exporter collector (collectors_dcgm.go): the burst
    rate gate and the conversion of lifetime counters into per-scrape deltas. */
module DcgmCounters {
  import opened Prelude
  import opened Evidence

  // ---- one counter of one device, as read by a scrape

  datatype Sample = Sample(uuid: string, known: bool, value: nat)

  /** The baselines after a reading. */
  function Baseline(prev: map<string, nat>, r: Sample): map<string, nat> {
    if r.known then prev[r.uuid := r.value] else prev
  }

  /** What is reported for a reading: nothing new on the first one or after a reset. */
  function Delta(prev: map<string, nat>, r: Sample): Sample {
    if !r.known then r
    else if r.uuid !in prev || r.value < prev[r.uuid] then r.(value := 0)
    else r.(value := r.value - prev[r.uuid])
  }

  function Baselines(prev: map<string, nat>, rs: seq<Sample>): map<string, nat> {
    FoldLeft(Baseline, prev, rs)
  }

  function Deltas(prev: map<string, nat>, rs: seq<Sample>): (ds: seq<Sample>)
    ensures |ds| == |rs|
  {
    if rs == [] then []
    else
      var n := |rs| - 1;
      Deltas(prev, rs[..n]) + [Delta(Baselines(prev, rs[..n]), rs[n])]
  }

  lemma {:induction false} DeltasAt(prev: map<string, nat>, rs: seq<Sample>, i: nat)
    requires i < |rs|
    ensures Deltas(prev, rs)[i] == Delta(Baselines(prev, rs[..i]), rs[i])
  {
    var n := |rs| - 1;
    if i < n {
      DeltasAt(prev, rs[..n], i);
      assert rs[..n][..i] == rs[..i];
    }
  }

  /** ps[k] are the baselines before reading k, and ds[k] is its delta. */
  ghost predicate UnrolledAt(ps: seq<map<string, nat>>, rs: seq<Sample>, ds: seq<Sample>, k: nat)
    requires k < |rs| == |ds| && |ps| == |rs| + 1
  {
    && ps[k + 1] == Baseline(ps[k], rs[k]) && ds[k] == Delta(ps[k], rs[k])
    && ds[k] == rs[k].(value := ds[k].value)
  }

  ghost predicate Unrolls(ps: seq<map<string, nat>>, rs: seq<Sample>, ds: seq<Sample>) {
    && |ds| == |rs| && |ps| == |rs| + 1
    && forall k :: 0 <= k < |rs| ==> UnrolledAt(ps, rs, ds, k)
  }

  /** The baselines before each reading, and the delta of each. */
  lemma Unrolled(prev: map<string, nat>, rs: seq<Sample>) returns (ps: seq<map<string, nat>>, ds: seq<Sample>)
    ensures Unrolls(ps, rs, ds) && ps[0] == prev && ps[|rs|] == Baselines(prev, rs) && ds == Deltas(prev, rs)
  {
    ps, ds := seq(|rs| + 1, k requires 0 <= k <= |rs| => Baselines(prev, rs[..k])), Deltas(prev, rs);
    forall k | 0 <= k < |rs| ensures UnrolledAt(ps, rs, ds, k) {
      FoldLeftStep(Baseline, prev, rs, k);
      DeltasAt(prev, rs, k);
    }
    assert rs[..|rs|] == rs;
  }

  function DbeSample(w: DeviceWindow): Sample { Sample(w.uuid, w.eccKnown, w.eccErrs) }
  function LinkSample(w: DeviceWindow): Sample { Sample(w.uuid, w.linkKnown, w.linkErrs) }

  function Samples(ws: seq<DeviceWindow>, read: DeviceWindow -> Sample): seq<Sample> {
    seq(|ws|, i requires 0 <= i < |ws| => read(ws[i]))
  }

  lemma DbeSamplesRewritten(was: seq<DeviceWindow>, now: seq<DeviceWindow>, ds: seq<Sample>)
    requires |was| == |now| == |ds|
    requires forall k :: 0 <= k < |was| ==> now[k] == was[k].(eccErrs := ds[k].value)
    requires forall k :: 0 <= k < |was| ==> ds[k] == Samples(was, DbeSample)[k].(value := ds[k].value)
    ensures Samples(now, DbeSample) == ds
  {
    forall k | 0 <= k < |was| ensures Samples(now, DbeSample)[k] == ds[k] {
      assert Samples(was, DbeSample)[k] == DbeSample(was[k]);
    }
  }

  lemma LinkSamplesRewritten(was: seq<DeviceWindow>, now: seq<DeviceWindow>, ds: seq<Sample>)
    requires |was| == |now| == |ds|
    requires forall k :: 0 <= k < |was| ==> now[k] == was[k].(linkErrs := ds[k].value)
    requires forall k :: 0 <= k < |was| ==> ds[k] == Samples(was, LinkSample)[k].(value := ds[k].value)
    ensures Samples(now, LinkSample) == ds
  {
    forall k | 0 <= k < |was| ensures Samples(now, LinkSample)[k] == ds[k] {
      assert Samples(was, LinkSample)[k] == LinkSample(was[k]);
    }
  }

  lemma LinkSamplesKept(was: seq<DeviceWindow>, now: seq<DeviceWindow>)
    requires |was| == |now| && forall k :: 0 <= k < |was| ==> now[k] == was[k].(eccErrs := now[k].eccErrs)
    ensures Samples(now, LinkSample) == Samples(was, LinkSample)
  {
    forall k | 0 <= k < |was| ensures LinkSample(now[k]) == LinkSample(was[k]) {}
  }

  lemma DbeSamplesKept(was: seq<DeviceWindow>, now: seq<DeviceWindow>)
    requires |was| == |now| && forall k :: 0 <= k < |was| ==> now[k] == was[k].(linkErrs := now[k].linkErrs)
    ensures Samples(now, DbeSample) == Samples(was, DbeSample)
  {
    forall k | 0 <= k < |was| ensures DbeSample(now[k]) == DbeSample(was[k]) {}
  }

  const DEFAULT_BURST_INTERVAL: int := 1000
  const ZERO_TIME: int := 0

  class DcgmExporterCollector {
    const profilingBurst: bool
    const burstCap: int

    var lastScrape: int
    var prevDbe: map<string, nat>
    var prevLinkErr: map<string, nat>

    /** The times at which the burst gate let a scrape through. */
    ghost var accepted: seq<int>

    /** The gate remembers its last acceptance, and accepted times keep the cap. */
    ghost predicate Valid()
      reads this
    {
      && Cap() > 0
      && lastScrape == (if accepted == [] then ZERO_TIME else accepted[|accepted| - 1])
      && Spaced(accepted, Cap())
    }

    function Cap(): int {
      if burstCap > 0 then burstCap else DEFAULT_BURST_INTERVAL
    }

    constructor (profilingBurst: bool, burstCap: int)
      ensures Valid() && accepted == [] && prevDbe == map[] && prevLinkErr == map[]
      ensures this.profilingBurst == profilingBurst && this.burstCap == burstCap
    {
      this.profilingBurst, this.burstCap := profilingBurst, burstCap;
      lastScrape, prevDbe, prevLinkErr, accepted := ZERO_TIME, map[], map[], [];
    }

    /** Whether a scrape may go ahead at clock reading now. */
    method ScrapeAllowed(now: int) returns (ok: bool)
      requires Valid()
      modifies `lastScrape, `accepted
      ensures Valid()
      ensures ok <==> !profilingBurst || old(accepted) == [] || old(accepted)[|old(accepted)| - 1] == ZERO_TIME
                      || now - old(accepted)[|old(accepted)| - 1] >= if burstCap > 0 then burstCap else 1000
      ensures accepted == if ok && profilingBurst then old(accepted) + [now] else old(accepted)
    {
      if !profilingBurst {
        return true;
      }
      if lastScrape != ZERO_TIME && now - lastScrape < Cap() {
        return false;
      }
      ghost var before := accepted;
      lastScrape := now;
      accepted := accepted + [now];
      forall i | 0 <= i < |accepted| - 1 ensures SpacedAt(accepted, Cap(), i) {
        assert i < |before| - 1 ==> SpacedAt(before, Cap(), i);
      }
      return true;
    }

    /** Rewrites each known double-bit ECC total in place as its delta. */
    method ApplyDbeDelta(dws: array<DeviceWindow>)
      modifies `prevDbe, dws
      ensures prevDbe == Baselines(old(prevDbe), Samples(old(dws[..]), DbeSample))
      ensures Samples(dws[..], DbeSample) == Deltas(old(prevDbe), Samples(old(dws[..]), DbeSample))
      ensures forall i :: 0 <= i < dws.Length ==> dws[i] == old(dws[i]).(eccErrs := dws[i].eccErrs)
    {
      ghost var was := dws[..];
      ghost var rs := Samples(was, DbeSample);
      ghost var ps, ds := Unrolled(prevDbe, rs);
      RebaseEachDbe(dws, ps, rs, ds);
      forall k | 0 <= k < |was| ensures ds[k] == rs[k].(value := ds[k].value) {
        assert UnrolledAt(ps, rs, ds, k);
      }
      DbeSamplesRewritten(was, dws[..], ds);
    }

    method RebaseEachDbe(dws: array<DeviceWindow>, ghost ps: seq<map<string, nat>>, ghost rs: seq<Sample>,
                         ghost ds: seq<Sample>)
      requires rs == Samples(dws[..], DbeSample) && Unrolls(ps, rs, ds) && ps[0] == prevDbe
      modifies `prevDbe, dws
      ensures prevDbe == ps[dws.Length]
      ensures forall k :: 0 <= k < dws.Length ==> dws[k] == old(dws[k]).(eccErrs := ds[k].value)
    {
      for i := 0 to dws.Length
        invariant prevDbe == ps[i]
        invariant forall k :: i <= k < dws.Length ==> dws[k] == old(dws[k])
        invariant forall k :: 0 <= k < i ==> dws[k] == old(dws[k]).(eccErrs := ds[k].value)
      {
        assert UnrolledAt(ps, rs, ds, i) && rs[i] == DbeSample(dws[i]);
        var dw := RebaseDbe(dws[i]);
        dws[i] := dw;
      }
    }

    method RebaseDbe(dw: DeviceWindow) returns (out: DeviceWindow)
      modifies `prevDbe
      ensures prevDbe == Baseline(old(prevDbe), DbeSample(dw))
      ensures out == dw.(eccErrs := Delta(old(prevDbe), DbeSample(dw)).value)
    {
      if !dw.eccKnown {
        return dw;
      }
      var seen := dw.uuid in prevDbe;
      var prev := if seen then prevDbe[dw.uuid] else 0;
      prevDbe := prevDbe[dw.uuid := dw.eccErrs];
      out := dw.(eccErrs := if !seen || dw.eccErrs < prev then 0 else dw.eccErrs - prev);
    }

    /** The same for the summed link-error totals. */
    method ApplyLinkErrDelta(dws: array<DeviceWindow>)
      modifies `prevLinkErr, dws
      ensures prevLinkErr == Baselines(old(prevLinkErr), Samples(old(dws[..]), LinkSample))
      ensures Samples(dws[..], LinkSample) == Deltas(old(prevLinkErr), Samples(old(dws[..]), LinkSample))
      ensures forall i :: 0 <= i < dws.Length ==> dws[i] == old(dws[i]).(linkErrs := dws[i].linkErrs)
    {
      ghost var was := dws[..];
      ghost var rs := Samples(was, LinkSample);
      ghost var ps, ds := Unrolled(prevLinkErr, rs);
      RebaseEachLinkErr(dws, ps, rs, ds);
      forall k | 0 <= k < |was| ensures ds[k] == rs[k].(value := ds[k].value) {
        assert UnrolledAt(ps, rs, ds, k);
      }
      LinkSamplesRewritten(was, dws[..], ds);
    }

    method RebaseEachLinkErr(dws: array<DeviceWindow>, ghost ps: seq<map<string, nat>>, ghost rs: seq<Sample>,
                         ghost ds: seq<Sample>)
      requires rs == Samples(dws[..], LinkSample) && Unrolls(ps, rs, ds) && ps[0] == prevLinkErr
      modifies `prevLinkErr, dws
      ensures prevLinkErr == ps[dws.Length]
      ensures forall k :: 0 <= k < dws.Length ==> dws[k] == old(dws[k]).(linkErrs := ds[k].value)
    {
      for i := 0 to dws.Length
        invariant prevLinkErr == ps[i]
        invariant forall k :: i <= k < dws.Length ==> dws[k] == old(dws[k])
        invariant forall k :: 0 <= k < i ==> dws[k] == old(dws[k]).(linkErrs := ds[k].value)
      {
        assert UnrolledAt(ps, rs, ds, i) && rs[i] == LinkSample(dws[i]);
        var dw := RebaseLinkErr(dws[i]);
        dws[i] := dw;
      }
    }

    method RebaseLinkErr(dw: DeviceWindow) returns (out: DeviceWindow)
      modifies `prevLinkErr
      ensures prevLinkErr == Baseline(old(prevLinkErr), LinkSample(dw))
      ensures out == dw.(linkErrs := Delta(old(prevLinkErr), LinkSample(dw)).value)
    {
      if !dw.linkKnown {
        return dw;
      }
      var seen := dw.uuid in prevLinkErr;
      var prev := if seen then prevLinkErr[dw.uuid] else 0;
      prevLinkErr := prevLinkErr[dw.uuid := dw.linkErrs];
      out := dw.(linkErrs := if !seen || dw.linkErrs < prev then 0 else dw.linkErrs - prev);
    }

    /** Both conversions of one scrape; neither disturbs the other's counter. */
    method ApplyDeltas(dws: array<DeviceWindow>)
      modifies `prevDbe, `prevLinkErr, dws
      ensures Samples(dws[..], DbeSample) == Deltas(old(prevDbe), Samples(old(dws[..]), DbeSample))
      ensures Samples(dws[..], LinkSample) == Deltas(old(prevLinkErr), Samples(old(dws[..]), LinkSample))
      ensures prevDbe == Baselines(old(prevDbe), Samples(old(dws[..]), DbeSample))
      ensures prevLinkErr == Baselines(old(prevLinkErr), Samples(old(dws[..]), LinkSample))
    {
      ghost var before := dws[..];
      ApplyDbeDelta(dws);
      ghost var mid := dws[..];
      assert forall k :: 0 <= k < |mid| ==> mid[k] == before[k].(eccErrs := mid[k].eccErrs);
      LinkSamplesKept(before, mid);
      ApplyLinkErrDelta(dws);
      ghost var after := dws[..];
      assert forall k :: 0 <= k < |after| ==> after[k] == mid[k].(linkErrs := after[k].linkErrs);
      DbeSamplesKept(mid, after);
    }
  }

  // ---- conservation

  /** The known values of one device, in reading order. */
  function ValueOf(u: string): Sample -> seq<nat> {
    (r: Sample) => if r.known && r.uuid == u then [r.value] else []
  }

  function Values(rs: seq<Sample>, u: string): seq<nat> { FlatMap(rs, ValueOf(u)) }

  function Sum(vs: seq<nat>): nat {
    if vs == [] then 0 else Sum(vs[..|vs| - 1]) + vs[|vs| - 1]
  }

  /** How much a counter fell in total, over its resets. */
  function Drops(vs: seq<nat>): nat {
    if |vs| < 2 then 0
    else
      var n := |vs| - 1;
      Drops(vs[..n]) + if vs[n] < vs[n - 1] then vs[n - 1] - vs[n] else 0
  }

  lemma SumsStep(vs: seq<nat>, v: nat)
    ensures Sum(vs + [v]) == Sum(vs) + v
    ensures Drops(vs + [v]) == Drops(vs) + if vs != [] && v < vs[|vs| - 1] then vs[|vs| - 1] - v else 0
  {
    assert (vs + [v])[..|vs|] == vs;
  }

  lemma ValuesStep(rs: seq<Sample>, r: Sample, u: string)
    ensures Values(rs + [r], u) == if r.known && r.uuid == u then Values(rs, u) + [r.value] else Values(rs, u)
  {
    assert (rs + [r])[..|rs|] == rs;
  }

  lemma {:induction false} BaselineIsLast(rs: seq<Sample>, u: string)
    ensures var vs, p := Values(rs, u), Baselines(map[], rs);
            (u in p <==> vs != []) && (vs != [] ==> p[u] == vs[|vs| - 1])
  {
    if rs != [] {
      BaselineIsLast(rs[..|rs| - 1], u);
    }
  }

  /** What was reported adds up to the last reading minus the first, plus all drops. */
  predicate Conserved(vs: seq<nat>, ds: seq<nat>) {
    if vs == [] then Sum(ds) == 0 else Sum(ds) + vs[0] == vs[|vs| - 1] + Drops(vs)
  }

  /** Conservation: over any run of scrapes the deltas reported for a device add up to
      its last reading minus its first, plus everything lost in resets. */
  lemma {:induction false} DeltasConserve(rs: seq<Sample>, u: string)
    ensures Conserved(Values(rs, u), Values(Deltas(map[], rs), u))
  {
    if rs != [] {
      var n := |rs| - 1;
      var front, r := rs[..n], rs[n];
      DeltasConserve(front, u);
      BaselineIsLast(front, u);
      assert rs == front + [r];
      ConservedStep(front, r, Deltas(map[], front), Delta(Baselines(map[], front), r), u);
    }
  }

  /** One more reading r, of any device, reported as d. */
  lemma ConservedStep(front: seq<Sample>, r: Sample, ds: seq<Sample>, d: Sample, u: string)
    requires Conserved(Values(front, u), Values(ds, u))
    requires d.known == r.known && d.uuid == r.uuid
    requires r.known && r.uuid == u ==>
               var vs := Values(front, u);
               d.value == if vs == [] || r.value < vs[|vs| - 1] then 0 else r.value - vs[|vs| - 1]
    ensures Conserved(Values(front + [r], u), Values(ds + [d], u))
  {
    ValuesStep(front, r, u);
    ValuesStep(ds, d, u);
    if r.known && r.uuid == u {
      OneMoreReading(Values(front, u), Values(ds, u), r.value, d.value);
    }
  }

  /** The bookkeeping of one more reading v of a device, reported as d. */
  lemma OneMoreReading(vs: seq<nat>, ds: seq<nat>, v: nat, d: nat)
    requires Conserved(vs, ds)
    requires d == if vs == [] || v < vs[|vs| - 1] then 0 else v - vs[|vs| - 1]
    ensures Conserved(vs + [v], ds + [d])
  {
    SumsStep(vs, v);
    SumsStep(ds, d);
  }

  /** There are earlier values, and v is above the latest of them. */
  predicate Above(v: nat, earlier: seq<nat>) {
    earlier != [] && v > earlier[|earlier| - 1]
  }

  lemma PositiveDelta(prev: map<string, nat>, r: Sample, earlier: seq<nat>)
    requires r.known && (r.uuid in prev <==> earlier != []) && (earlier != [] ==> prev[r.uuid] == earlier[|earlier| - 1])
    ensures Delta(prev, r).value > 0 <==> Above(r.value, earlier)
  {
  }

  /** A positive delta is evidence: an earlier reading exists and the counter rose above
      the latest of them. */
  lemma PositiveDeltaIsARise(rs: seq<Sample>, i: nat, earlier: seq<nat>)
    requires i < |rs| && rs[i].known && earlier == Values(rs[..i], rs[i].uuid)
    ensures Deltas(map[], rs)[i].value > 0 <==> Above(rs[i].value, earlier)
  {
    DeltasAt(map[], rs, i);
    BaselineIsLast(rs[..i], rs[i].uuid);
    PositiveDelta(Baselines(map[], rs[..i]), rs[i], earlier);
  }

  function OfDevice(u: string): Sample -> bool {
    (r: Sample) => r.uuid == u
  }

  lemma {:induction false} BaselineOfDevice(prev: map<string, nat>, rs: seq<Sample>, u: string)
    ensures var a, b := Baselines(prev, rs), Baselines(prev, Select(rs, OfDevice(u)));
            (u in a <==> u in b) && (u in a ==> a[u] == b[u])
  {
    if rs != [] {
      var n := |rs| - 1;
      BaselineOfDevice(prev, rs[..n], u);
      var own := Select(rs[..n], OfDevice(u));
      if rs[n].uuid == u {
        assert (own + [rs[n]])[..|own|] == own;
      } else {
        assert own + [] == own;
      }
    }
  }

  /** Devices never interfere: a device's deltas are those its own readings give alone. */
  lemma {:induction false} DevicesAreIndependent(prev: map<string, nat>, rs: seq<Sample>, u: string)
    ensures Select(Deltas(prev, rs), OfDevice(u)) == Deltas(prev, Select(rs, OfDevice(u)))
  {
    if rs != [] {
      var n := |rs| - 1;
      DevicesAreIndependent(prev, rs[..n], u);
      var ds, own := Deltas(prev, rs[..n]), Select(rs[..n], OfDevice(u));
      var d := Delta(Baselines(prev, rs[..n]), rs[n]);
      assert (ds + [d])[..n] == ds;
      if rs[n].uuid == u {
        BaselineOfDevice(prev, rs[..n], u);
        assert (own + [rs[n]])[..|own|] == own;
      } else {
        assert own + [] == own;
      }
    }
  }

  /** Scrapes compose: converting them one by one is converting their concatenation. */
  lemma {:induction false} DeltasOfTwoScrapes(prev: map<string, nat>, a: seq<Sample>, b: seq<Sample>)
    ensures Deltas(prev, a + b) == Deltas(prev, a) + Deltas(Baselines(prev, a), b)
  {
    if b == [] {
      assert a + b == a;
    } else {
      var n := |b| - 1;
      DeltasOfTwoScrapes(prev, a, b[..n]);
      FoldLeftConcat(Baseline, prev, a, b[..n]);
      assert (a + b)[..|a| + n] == a + b[..n];
    }
  }

  // ---- the rate gate

  /** Successive acceptances are at least the cap apart (after a non-zero reading). */
  ghost predicate Spaced(xs: seq<int>, cap: int) {
    forall i :: 0 <= i < |xs| - 1 ==> SpacedAt(xs, cap, i)
  }

  predicate SpacedAt(xs: seq<int>, cap: int, i: nat)
    requires i + 1 < |xs|
  {
    xs[i] == ZERO_TIME || xs[i + 1] - xs[i] >= cap
  }

  predicate Within(lo: int, hi: int, x: int) { lo <= x <= hi }

  function InSpan(lo: int, hi: int): int -> bool { x => Within(lo, hi, x) }

  /** The cap holds over every span of every run, however the clock jumps: k accepted
      scrapes within a span of length T satisfy (k - 1) * cap <= T. */
  lemma RateIsCapped(xs: seq<int>, cap: int, lo: int, hi: int)
    requires Spaced(xs, cap) && ZERO_TIME !in xs && cap > 0
    ensures var k := |Select(xs, InSpan(lo, hi))|; k > 0 ==> (k - 1) * cap <= hi - lo
  {
    var j := LastInSpan(xs, cap, lo, hi);
  }

  lemma {:induction false} LastInSpan(xs: seq<int>, cap: int, lo: int, hi: int) returns (j: int)
    requires Spaced(xs, cap) && ZERO_TIME !in xs && cap > 0
    ensures var k := |Select(xs, InSpan(lo, hi))|;
            k > 0 ==> 0 <= j < |xs| && Within(lo, hi, xs[j]) && xs[j] - lo >= (k - 1) * cap
  {
    j := -1;
    if xs != [] {
      var n := |xs| - 1;
      FrontIsSpaced(xs, cap);
      j := LastInSpan(xs[..n], cap, lo, hi);
      if Within(lo, hi, xs[n]) {
        var k := |Select(xs[..n], InSpan(lo, hi))|;
        if k > 0 {
          LaterByCap(xs, cap, j, n);
          OneMore(k, cap);
        }
        j := n;
      }
    }
  }

  lemma FrontIsSpaced(xs: seq<int>, cap: int)
    requires xs != [] && Spaced(xs, cap) && ZERO_TIME !in xs
    ensures Spaced(xs[..|xs| - 1], cap) && ZERO_TIME !in xs[..|xs| - 1]
  {
    var front := xs[..|xs| - 1];
    forall i | 0 <= i < |front| - 1 ensures SpacedAt(front, cap, i) {
      assert SpacedAt(xs, cap, i);
    }
  }

  lemma OneMore(k: int, cap: int)
    ensures k * cap == (k - 1) * cap + cap
  {
  }

  lemma {:induction false} LaterByCap(xs: seq<int>, cap: int, i: nat, j: nat)
    requires Spaced(xs, cap) && ZERO_TIME !in xs && cap > 0 && i < j < |xs|
    ensures xs[j] - xs[i] >= cap
    decreases j
  {
    assert xs[j - 1] in xs && SpacedAt(xs, cap, j - 1);
    if i < j - 1 {
      LaterByCap(xs, cap, i, j - 1);
    }
  }
}
