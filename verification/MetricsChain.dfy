/** The metrics degradation chain (collectors_chain.go): a preferred source, a fallback,
    and the shared cell that remembers which of them answered last. */
module Chain {
  import opened Prelude
  import opened Evidence
  import opened Merge

  /** A collector answers every collection in its own way; collect(n) is its answer
      during the n-th collection of the chain. */
  datatype Collector = Collector(source: SignalSource, collect: nat -> Result<Observation, Error>)

  /** A collector that tags what it returns with its own source. */
  ghost predicate Tags(c: Collector) {
    forall n :: TagsAt(c, n)
  }

  predicate TagsAt(c: Collector, n: nat) {
    c.collect(n).Ok? ==> c.collect(n).value.source == c.source
  }

  /** The cell, shared by pointer between copies of a chain. */
  class SelectedSource {
    var src: SignalSource
    var set_: bool

    constructor ()
      ensures Picked() == None
    {
      src, set_ := UNSPECIFIED, false;
    }

    function Picked(): Option<SignalSource>
      reads this
    {
      if set_ then Some(src) else None
    }
  }

  datatype Choice = ByPrimary | PrimaryEmpty | ByFallback
  datatype Why = NoReason | NoDeviceData | PrimaryError(error: Error)
  datatype FieldFill = NotAsked | Unavailable(error: Error) | MergedIn

  /** The chain's stamp on an observation: who answered, under which source, and why it
      was not the preferred one. */
  datatype Mark = Mark(choice: Choice, source: SignalSource, why: Why, fill: FieldFill)

  datatype Collected = Failed(error: Error) | Answered(obs: Observation, mark: Mark)

  // ---- merging the fallback's windows into the primary's

  ghost function Uuids(ws: seq<DeviceWindow>): set<string> {
    set w | w in ws :: w.uuid
  }

  function IsOf(u: string): DeviceWindow -> bool { (w: DeviceWindow) => w.uuid == u }

  ghost function IsNotIn(us: set<string>): DeviceWindow -> bool { (w: DeviceWindow) => w.uuid !in us }

  /** The windows of one device, in order. */
  function Readings(ws: seq<DeviceWindow>, u: string): seq<DeviceWindow> {
    Select(ws, IsOf(u))
  }

  lemma ReadingsStep(ws: seq<DeviceWindow>, w: DeviceWindow, u: string)
    ensures Readings(ws + [w], u) == if w.uuid == u then Readings(ws, u) + [w] else Readings(ws, u)
  {
    assert (ws + [w])[..|ws|] == ws;
  }

  /** The windows of devices that are not in us, in order. */
  ghost function Unlisted(ws: seq<DeviceWindow>, us: set<string>): seq<DeviceWindow> {
    Select(ws, IsNotIn(us))
  }

  /** Position i is the last one of its device. */
  predicate LastOfDevice(ws: seq<DeviceWindow>, i: nat)
    requires i < |ws|
  {
    forall k :: i < k < |ws| ==> ws[k].uuid != ws[i].uuid
  }

  /** The primary's i-th window after the fallback's windows are merged in: readings of its
      device are folded into the last window of that device. */
  function FilledAt(pws: seq<DeviceWindow>, fws: seq<DeviceWindow>, i: nat): DeviceWindow
    requires i < |pws|
  {
    if LastOfDevice(pws, i) then Fold(pws[i], Readings(fws, pws[i].uuid)) else pws[i]
  }

  /** r is the primary's windows, filled in, followed by the devices only the fallback saw. */
  ghost predicate IsFill(pws: seq<DeviceWindow>, fws: seq<DeviceWindow>, r: seq<DeviceWindow>) {
    && |r| >= |pws|
    && (forall i :: 0 <= i < |pws| ==> r[i] == FilledAt(pws, fws, i))
    && r[|pws|..] == Unlisted(fws, Uuids(pws))
  }

  lemma FillStarts(pws: seq<DeviceWindow>)
    ensures IsFill(pws, [], pws)
  {
  }

  /** Merging one more fallback window. */
  lemma FillKnown(pws: seq<DeviceWindow>, fws: seq<DeviceWindow>, r: seq<DeviceWindow>, f: DeviceWindow, idx: nat)
    requires IsFill(pws, fws, r)
    requires idx < |pws| && pws[idx].uuid == f.uuid && LastOfDevice(pws, idx)
    ensures IsFill(pws, fws + [f], r[idx := Merged(r[idx], f)])
  {
    var r' := r[idx := Merged(r[idx], f)];
    FoldStep(pws[idx], Readings(fws, f.uuid), f);
    assert (fws + [f])[..|fws|] == fws;
    assert f.uuid in Uuids(pws);
    assert r'[|pws|..] == r[|pws|..];
    forall i | 0 <= i < |pws| ensures r'[i] == FilledAt(pws, fws + [f], i) {
      ReadingsStep(fws, f, pws[i].uuid);
      assert pws[i].uuid == f.uuid && LastOfDevice(pws, i) ==> i == idx;
    }
  }

  lemma FillUnknown(pws: seq<DeviceWindow>, fws: seq<DeviceWindow>, r: seq<DeviceWindow>, f: DeviceWindow)
    requires IsFill(pws, fws, r) && f.uuid !in Uuids(pws)
    ensures IsFill(pws, fws + [f], r + [f])
  {
    assert (fws + [f])[..|fws|] == fws;
    assert (r + [f])[|pws|..] == r[|pws|..] + [f];
    forall i | 0 <= i < |pws| ensures (r + [f])[i] == FilledAt(pws, fws + [f], i) {
      assert pws[i].uuid in Uuids(pws);
      ReadingsStep(fws, f, pws[i].uuid);
    }
  }

  /** The position of each device's last window. */
  ghost predicate Indexes(m: map<string, nat>, ws: seq<DeviceWindow>) {
    && m.Keys == Uuids(ws)
    && forall u :: u in m ==> m[u] < |ws| && ws[m[u]].uuid == u && LastOfDevice(ws, m[u])
  }

  lemma IndexOneMore(m: map<string, nat>, ws: seq<DeviceWindow>, w: DeviceWindow)
    requires Indexes(m, ws)
    ensures Indexes(m[w.uuid := |ws|], ws + [w])
  {
    var m', all := m[w.uuid := |ws|], ws + [w];
    assert Uuids(all) == Uuids(ws) + {w.uuid};
    forall u | u in m' ensures m'[u] < |all| && all[m'[u]].uuid == u && LastOfDevice(all, m'[u]) {
    }
  }

  method MergeWindows(pws: seq<DeviceWindow>, fws: seq<DeviceWindow>) returns (r: seq<DeviceWindow>)
    ensures IsFill(pws, fws, r)
  {
    var byUuid: map<string, nat> := map[];
    for i := 0 to |pws|
      invariant Indexes(byUuid, pws[..i])
    {
      IndexOneMore(byUuid, pws[..i], pws[i]);
      assert pws[..i + 1] == pws[..i] + [pws[i]];
      byUuid := byUuid[pws[i].uuid := i];
    }
    assert pws[..|pws|] == pws;
    r := pws;
    FillStarts(pws);
    for j := 0 to |fws|
      invariant IsFill(pws, fws[..j], r)
    {
      var f := fws[j];
      assert fws[..j + 1] == fws[..j] + [f];
      if f.uuid in byUuid {
        var idx := byUuid[f.uuid];
        FillKnown(pws, fws[..j], r, f, idx);
        r := r[idx := Merged(r[idx], f)];
      } else {
        FillUnknown(pws, fws[..j], r, f);
        r := r + [f];
      }
    }
    assert fws[..|fws|] == fws;
  }

  // ---- what the merge keeps and adds

  /** b knows all that a knows, with a's values. */
  predicate Keeps(a: DeviceWindow, b: DeviceWindow) {
    && b.uuid == a.uuid
    && (a.achievedKnown ==> b.achievedKnown && b.achievedFlops == a.achievedFlops)
    && (a.tensorKnown ==> b.tensorKnown && b.tensorSecs == a.tensorSecs)
    && (a.peakKnown ==> b.peakKnown && b.peakFlops == a.peakFlops)
    && (a.costKnown ==> b.costKnown && b.costPerHour == a.costPerHour)
    && (a.eccKnown ==> b.eccKnown && b.eccErrs == a.eccErrs)
    && (a.linkKnown ==> b.linkKnown && b.linkErrs == a.linkErrs)
  }

  lemma {:induction false} FoldKeeps(a: DeviceWindow, ws: seq<DeviceWindow>)
    ensures Keeps(a, Fold(a, ws))
  {
    if ws != [] {
      FoldKeeps(a, ws[..|ws| - 1]);
    }
  }

  ghost predicate DistinctUuids(ws: seq<DeviceWindow>) {
    forall i, j :: 0 <= i < j < |ws| ==> ws[i].uuid != ws[j].uuid
  }

  lemma {:induction false} UnlistedAre(ws: seq<DeviceWindow>, us: set<string>)
    ensures forall w :: w in Unlisted(ws, us) <==> w in ws && w.uuid !in us
    ensures DistinctUuids(ws) ==> DistinctUuids(Unlisted(ws, us))
  {
    if ws != [] {
      var n := |ws| - 1;
      UnlistedAre(ws[..n], us);
      assert ws == ws[..n] + [ws[n]];
      var u := Unlisted(ws[..n], us);
      assert DistinctUuids(ws) ==> forall i :: 0 <= i < |u| ==> u[i] in ws[..n] && u[i].uuid != ws[n].uuid;
    }
  }

  /** No known reading of the primary is overwritten, its windows keep their places, and
      exactly the devices that only the fallback saw are added, as the fallback read them. */
  lemma FillKeepsAndAdds(pws: seq<DeviceWindow>, fws: seq<DeviceWindow>, r: seq<DeviceWindow>)
    requires IsFill(pws, fws, r)
    ensures forall i :: 0 <= i < |pws| ==> Keeps(pws[i], r[i])
    ensures forall w :: w in r[|pws|..] <==> w in fws && w.uuid !in Uuids(pws)
    ensures DistinctUuids(pws) && DistinctUuids(fws) ==> DistinctUuids(r)
  {
    forall i | 0 <= i < |pws| ensures Keeps(pws[i], r[i]) {
      FoldKeeps(pws[i], Readings(fws, pws[i].uuid));
    }
    UnlistedAre(fws, Uuids(pws));
    forall i, j | DistinctUuids(pws) && DistinctUuids(fws) && 0 <= i < j < |r| ensures r[i].uuid != r[j].uuid {
      assert j >= |pws| ==> r[j] == r[|pws|..][j - |pws|] && r[j].uuid !in Uuids(pws);
      assert i >= |pws| ==> r[i] == r[|pws|..][i - |pws|];
      assert i < |pws| ==> r[i].uuid == pws[i].uuid && pws[i].uuid in Uuids(pws);
    }
  }

  /** With distinct devices, every flagged field of a shared device is the primary's
      reading if it has one, else the fallback's; node, model and window length are the
      fallback's wherever it has them. */
  lemma FillReadsBoth(pws: seq<DeviceWindow>, fws: seq<DeviceWindow>, r: seq<DeviceWindow>, i: nat, j: nat)
    requires IsFill(pws, fws, r) && DistinctUuids(pws) && DistinctUuids(fws)
    requires i < |pws| && j < |fws| && pws[i].uuid == fws[j].uuid
    ensures r[i] == Merged(pws[i], fws[j])
    ensures EccOf(r[i]) == if pws[i].eccKnown then EccOf(pws[i]) else EccOf(fws[j])
    ensures NodeOf(r[i]) == if NodeOf(fws[j]).Some? then NodeOf(fws[j]) else NodeOf(pws[i])
  {
    OneReading(fws, j);
    FoldStep(pws[i], [], fws[j]);
    assert [] + [fws[j]] == [fws[j]];
    assert LastOfDevice(pws, i);
    assert r[i] == FilledAt(pws, fws, i);
  }

  lemma {:induction false} OneReading(ws: seq<DeviceWindow>, j: nat)
    requires DistinctUuids(ws) && j < |ws|
    ensures Readings(ws, ws[j].uuid) == [ws[j]]
  {
    var n := |ws| - 1;
    if j < n {
      OneReading(ws[..n], j);
    } else {
      NoReading(ws[..n], ws[j].uuid);
    }
  }

  lemma {:induction false} NoReading(ws: seq<DeviceWindow>, u: string)
    requires forall w :: w in ws ==> w.uuid != u
    ensures Readings(ws, u) == []
  {
    if ws != [] {
      NoReading(ws[..|ws| - 1], u);
    }
  }

  /** The merge as a function: IsFill leaves no choice. */
  ghost function Filled(pws: seq<DeviceWindow>, fws: seq<DeviceWindow>): (r: seq<DeviceWindow>)
    ensures IsFill(pws, fws, r)
  {
    FillExists(pws, fws);
    var r :| IsFill(pws, fws, r);
    r
  }

  lemma {:induction false} FillExists(pws: seq<DeviceWindow>, fws: seq<DeviceWindow>)
    ensures exists r :: IsFill(pws, fws, r)
  {
    var r := seq(|pws|, i requires 0 <= i < |pws| => FilledAt(pws, fws, i)) + Unlisted(fws, Uuids(pws));
    assert IsFill(pws, fws, r);
  }

  lemma FillIsUnique(pws: seq<DeviceWindow>, fws: seq<DeviceWindow>, r: seq<DeviceWindow>)
    requires IsFill(pws, fws, r)
    ensures r == Filled(pws, fws)
  {
    var q := Filled(pws, fws);
    assert r == r[..|pws|] + r[|pws|..] && q == q[..|pws|] + q[|pws|..];
    assert r[..|pws|] == q[..|pws|];
  }

  // ---- one collection of the chain

  predicate MissingPeak(ws: seq<DeviceWindow>) {
    exists i :: 0 <= i < |ws| && !ws[i].peakKnown
  }

  function EmptyFrom(source: SignalSource): Observation {
    Observation(source, [], [], [], [], [], [], map[])
  }

  /** A collector answered with device data. */
  predicate HasData(r: Result<Observation, Error>) {
    r.Ok? && r.value.deviceWindows != []
  }

  datatype MetricsChain = MetricsChain(
    primary: Option<Collector>, fallback: Option<Collector>, fieldFallback: bool, selected: SelectedSource?)
  {
    function Declared(): SignalSource {
      if primary.Some? then primary.value.source
      else if fallback.Some? then fallback.value.source
      else PROMETHEUS
    }

    function Source(): SignalSource
      reads selected
    {
      if selected != null && selected.set_ then selected.src else Declared()
    }

    method RecordSelected(src: SignalSource)
      modifies selected
      ensures selected != null ==> selected.Picked() == Some(src)
    {
      if selected != null {
        selected.src, selected.set_ := src, true;
      }
    }

    /** The preferred collector answers with data in the n-th collection. */
    predicate PrimaryAnswers(n: nat) {
      primary.Some? && HasData(primary.value.collect(n))
    }

    /** The fallback is asked to complete what the preferred collector left out. */
    predicate AsksFill(n: nat) {
      && PrimaryAnswers(n) && fieldFallback && fallback.Some?
      && MissingPeak(primary.value.collect(n).value.deviceWindows)
    }

    method Collect(n: nat) returns (r: Collected)
      modifies selected
      ensures r == Outcome(this, n)
      ensures selected != null ==> selected.Picked() == if r.Answered? then Some(r.mark.source) else old(selected.Picked())
    {
      var why := NoDeviceData;
      if primary.Some? {
        var answer := primary.value.collect(n);
        if answer.Ok? && |answer.value.deviceWindows| > 0 {
          var obs, fill := answer.value, NotAsked;
          if fieldFallback && fallback.Some? && MissingPeak(obs.deviceWindows) {
            obs, fill := MergeFallback(obs, n);
          }
          RecordSelected(primary.value.source);
          return Answered(obs, Mark(ByPrimary, primary.value.source, NoReason, fill));
        }
        if answer.Err? {
          why := PrimaryError(answer.error);
        }
      }
      if fallback.None? {
        if why.PrimaryError? {
          return Failed(why.error);
        }
        RecordSelected(Declared());
        return Answered(EmptyFrom(Declared()), Mark(PrimaryEmpty, Declared(), why, NotAsked));
      }
      var other := fallback.value.collect(n);
      if other.Err? {
        return Failed(if why.PrimaryError? then why.error else other.error);
      }
      RecordSelected(fallback.value.source);
      return Answered(other.value, Mark(ByFallback, fallback.value.source, why, NotAsked));
    }

    /** Completes an observation of the preferred collector from the fallback. */
    method MergeFallback(obs: Observation, n: nat) returns (merged: Observation, fill: FieldFill)
      requires fallback.Some?
      ensures (merged, fill) == FillFrom(obs, fallback.value.collect(n))
    {
      var other := fallback.value.collect(n);
      if other.Err? {
        return obs, Unavailable(other.error);
      }
      var ws := MergeWindows(obs.deviceWindows, other.value.deviceWindows);
      FillIsUnique(obs.deviceWindows, other.value.deviceWindows, ws);
      merged := obs.(deviceWindows := ws, dcgmSeries := obs.dcgmSeries + other.value.dcgmSeries);
      fill := MergedIn;
    }
  }

  /** A chain as it is wired: with a cell of its own, and no field fallback. */
  method NewMetricsChain(primary: Option<Collector>, fallback: Option<Collector>) returns (c: MetricsChain)
    ensures c.primary == primary && c.fallback == fallback && !c.fieldFallback
    ensures c.selected != null && fresh(c.selected) && c.Source() == c.Declared()
  {
    var cell := new SelectedSource();
    c := MetricsChain(primary, fallback, false, cell);
  }

  ghost function FillFrom(obs: Observation, other: Result<Observation, Error>): (Observation, FieldFill) {
    if other.Err? then (obs, Unavailable(other.error))
    else
      (obs.(deviceWindows := Filled(obs.deviceWindows, other.value.deviceWindows),
            dcgmSeries := obs.dcgmSeries + other.value.dcgmSeries), MergedIn)
  }

  ghost function Outcome(c: MetricsChain, n: nat): Collected {
    if c.PrimaryAnswers(n) then
      var obs := c.primary.value.collect(n).value;
      var (filled, fill) := if c.AsksFill(n) then FillFrom(obs, c.fallback.value.collect(n)) else (obs, NotAsked);
      Answered(filled, Mark(ByPrimary, c.primary.value.source, NoReason, fill))
    else
      var failed := c.primary.Some? && c.primary.value.collect(n).Err?;
      var why := if failed then PrimaryError(c.primary.value.collect(n).error) else NoDeviceData;
      if c.fallback.Some? && c.fallback.value.collect(n).Ok? then
        Answered(c.fallback.value.collect(n).value, Mark(ByFallback, c.fallback.value.source, why, NotAsked))
      else if failed then Failed(why.error)
      else if c.fallback.Some? then Failed(c.fallback.value.collect(n).error)
      else Answered(EmptyFrom(c.Declared()), Mark(PrimaryEmpty, c.Declared(), why, NotAsked))
  }

  /** Who answers, under which mark: the preferred source if it brings a device window; else
      the fallback, if it answers; else, without a fallback, nobody, which is an empty
      observation unless the preferred source failed. The mark says why. */
  lemma WhoAnswers(c: MetricsChain, n: nat)
    ensures var r := Outcome(c, n);
            var declared := if c.primary.Some? then c.primary.value.source
                            else if c.fallback.Some? then c.fallback.value.source else PROMETHEUS;
            var failed := c.primary.Some? && c.primary.value.collect(n).Err?;
            var brings := c.primary.Some? && !failed && |c.primary.value.collect(n).value.deviceWindows| > 0;
            var gap := brings && exists w :: w in c.primary.value.collect(n).value.deviceWindows && !w.peakKnown;
            && (brings ==> r.Answered? && r.mark.choice == ByPrimary && r.mark.source == c.primary.value.source)
            && (brings ==> r.mark.why == NoReason
                           && (r.mark.fill != NotAsked <==> c.fieldFallback && c.fallback.Some? && gap))
            && (brings && r.mark.fill == NotAsked ==> Ok(r.obs) == c.primary.value.collect(n))
            && (!brings && c.fallback.Some? && c.fallback.value.collect(n).Ok?
                ==> r.Answered? && Ok(r.obs) == c.fallback.value.collect(n)
                    && r.mark.choice == ByFallback && r.mark.source == c.fallback.value.source)
            && (!brings && c.fallback.None? && !failed
                ==> r == Answered(Observation(declared, [], [], [], [], [], [], map[]),
                                  Mark(PrimaryEmpty, declared, NoDeviceData, NotAsked)))
            && (!brings && r.Answered?
                ==> r.mark.fill == NotAsked
                    && r.mark.why == if failed then PrimaryError(c.primary.value.collect(n).error) else NoDeviceData)
            && (r.Failed? <==> !brings && if c.fallback.Some? then c.fallback.value.collect(n).Err? else failed)
  {
    if c.PrimaryAnswers(n) {
      var ws := c.primary.value.collect(n).value.deviceWindows;
      assert MissingPeak(ws) <==> exists w :: w in ws && !w.peakKnown;
    }
  }

  /** Asked to fill in, the fallback either fails, which is noted and changes nothing, or
      has its windows merged in and its series appended; nothing else of it is used. */
  lemma FillIsExact(c: MetricsChain, n: nat)
    requires c.AsksFill(n)
    ensures var r, p := Outcome(c, n), c.primary.value.collect(n).value;
            match c.fallback.value.collect(n)
            case Err(e) => r.obs == p && r.mark.fill == Unavailable(e)
            case Ok(f) =>
              && r.mark.fill == MergedIn
              && IsFill(p.deviceWindows, f.deviceWindows, r.obs.deviceWindows)
              && r.obs.dcgmSeries == p.dcgmSeries + f.dcgmSeries
              && r.obs == p.(deviceWindows := r.obs.deviceWindows, dcgmSeries := r.obs.dcgmSeries)
  {
  }

  /** The collector failed with e. */
  predicate FailedWith(c: Option<Collector>, n: nat, e: Error) {
    c.Some? && c.value.collect(n) == Err(e)
  }

  predicate Answers(c: Option<Collector>, n: nat) {
    c.Some? && c.value.collect(n).Ok?
  }

  /** Which error the chain returns: the preferred source's if it failed and no fallback
      answered, else the fallback's, if the preferred source brought no data. */
  lemma FailsIff(c: MetricsChain, n: nat, e: Error)
    ensures Outcome(c, n) == Failed(e)
       <==> || (FailedWith(c.primary, n, e) && !Answers(c.fallback, n))
            || (FailedWith(c.fallback, n, e) && !c.PrimaryAnswers(n) && (c.primary.None? || Answers(c.primary, n)))
  {
  }

  // ---- the chain's source is honest

  ghost predicate Honest(c: MetricsChain) {
    (c.primary.Some? ==> Tags(c.primary.value)) && (c.fallback.Some? ==> Tags(c.fallback.value))
  }

  /** What the chain returns is tagged with the source it records. */
  lemma AnswersCarryTheirMark(c: MetricsChain, n: nat)
    requires Honest(c)
    ensures var r := Outcome(c, n); r.Answered? ==> r.obs.source == r.mark.source
  {
    assert c.primary.Some? ==> TagsAt(c.primary.value, n);
    assert c.fallback.Some? ==> TagsAt(c.fallback.value, n);
  }

  /** The cell after the first n collections. */
  ghost function CellAfter(c: MetricsChain, n: nat): Option<SignalSource> {
    if n == 0 then None
    else
      var r := Outcome(c, n - 1);
      if r.Answered? then Some(r.mark.source) else CellAfter(c, n - 1)
  }

  /** The m-th collection is the last of the first n that succeeded. */
  ghost predicate LastSuccess(c: MetricsChain, n: nat, m: nat) {
    && m < n && Outcome(c, m).Answered?
    && forall k: nat :: m < k < n ==> Outcome(c, k).Failed?
  }

  /** Over every run: the chain's source is that of the last observation it returned,
      failures notwithstanding, and the declared one while it returned none. */
  lemma {:induction false} SourceIsTheLastAnswers(c: MetricsChain, n: nat)
    requires Honest(c)
    ensures if CellAfter(c, n).None? then forall k: nat :: k < n ==> Outcome(c, k).Failed?
            else exists m :: LastSuccess(c, n, m) && CellAfter(c, n) == Some(Outcome(c, m).obs.source)
  {
    if n > 0 {
      SourceIsTheLastAnswers(c, n - 1);
      AnswersCarryTheirMark(c, n - 1);
      if Outcome(c, n - 1).Answered? {
        assert LastSuccess(c, n, n - 1);
      } else if CellAfter(c, n - 1).Some? {
        var m :| LastSuccess(c, n - 1, m) && CellAfter(c, n - 1) == Some(Outcome(c, m).obs.source);
        assert LastSuccess(c, n, m);
      }
    }
  }

  /** What Source() should say after n collections: the last returned observation's source,
      the declared one while there is none. */
  ghost predicate NamesLastAnswer(c: MetricsChain, n: nat, source: SignalSource) {
    if forall k: nat :: k < n ==> Outcome(c, k).Failed? then source == c.Declared()
    else exists m :: LastSuccess(c, n, m) && source == Outcome(c, m).obs.source
  }

  /** A chain with a cell of its own, collecting n times. */
  method CollectRepeatedly(c: MetricsChain, n: nat)
    requires c.selected != null && !c.selected.set_ && Honest(c)
    modifies c.selected
    ensures NamesLastAnswer(c, n, c.Source())
  {
    for k := 0 to n
      invariant c.selected.Picked() == CellAfter(c, k)
    {
      var r := c.Collect(k);
    }
    SourceIsTheLastAnswers(c, n);
    assert forall m: nat :: LastSuccess(c, n, m) ==> !Outcome(c, m).Failed?;
  }

  /** Without a cell the chain keeps naming its preference, which is wrong exactly when
      a fallback of another source answered for the preferred collector. */
  lemma CellLessSourceErrsIff(c: MetricsChain, n: nat)
    requires Honest(c) && Outcome(c, n).Answered?
    ensures Outcome(c, n).obs.source != c.Declared()
            <==> c.primary.Some? && c.fallback.Some? && c.primary.value.source != c.fallback.value.source && !c.PrimaryAnswers(n)
  {
    AnswersCarryTheirMark(c, n);
  }

  /** Unless the fallback is asked to fill in, an observation is passed on as its collector
      gave it, so its values are its source's own. */
  lemma AnswersAreVerbatim(c: MetricsChain, n: nat)
    requires !c.AsksFill(n)
    ensures var r := Outcome(c, n);
            r.Answered? ==> match r.mark.choice
                            case ByPrimary => Ok(r.obs) == c.primary.value.collect(n)
                            case ByFallback => Ok(r.obs) == c.fallback.value.collect(n)
                            case PrimaryEmpty => r.obs.deviceWindows == []
  {
  }

  /** A counter reading, as merging keeps it: the first known. */
  ghost predicate KeptFirst(read: DeviceWindow -> Option<nat>) {
    forall a, b :: read(Merged(a, b)) == if read(a).Some? then read(a) else read(b)
  }

  lemma {:induction false} FoldReads(start: DeviceWindow, ws: seq<DeviceWindow>, read: DeviceWindow -> Option<nat>)
    requires KeptFirst(read)
    ensures if read(start).Some? then read(Fold(start, ws)) == read(start)
            else read(Fold(start, ws)).Some? <==> exists w :: w in ws && read(w).Some?
  {
    if ws != [] {
      var n := |ws| - 1;
      FoldReads(start, ws[..n], read);
      assert ws == ws[..n] + [ws[n]];
    }
  }

  lemma {:induction false} ReadingsAre(ws: seq<DeviceWindow>, u: string)
    ensures forall w :: w in Readings(ws, u) <==> w in ws && w.uuid == u
  {
    if ws != [] {
      var n := |ws| - 1;
      ReadingsAre(ws[..n], u);
      assert ws == ws[..n] + [ws[n]];
    }
  }

  /** The i-th published window reads something that the preferred source did not there. */
  predicate BorrowedAt(pws: seq<DeviceWindow>, rs: seq<DeviceWindow>, read: DeviceWindow -> Option<nat>, i: nat)
    requires i < |rs|
  {
    if i < |pws| then read(rs[i]) != read(pws[i]) else read(rs[i]).Some?
  }

  /** Some published window does. */
  ghost predicate Borrowed(pws: seq<DeviceWindow>, rs: seq<DeviceWindow>, read: DeviceWindow -> Option<nat>) {
    exists i: nat :: i < |rs| && BorrowedAt(pws, rs, read, i)
  }

  /** The fallback's window f reads something of a device that the preferred source lacks,
      or whose (last) window of it does not. */
  ghost predicate KnowsMore(pws: seq<DeviceWindow>, f: DeviceWindow, read: DeviceWindow -> Option<nat>) {
    && read(f).Some?
    && forall i :: 0 <= i < |pws| && pws[i].uuid == f.uuid && LastOfDevice(pws, i) ==> read(pws[i]).None?
  }

  lemma {:induction false} LastWindowExists(ws: seq<DeviceWindow>, u: string) returns (i: nat)
    requires u in Uuids(ws)
    ensures i < |ws| && ws[i].uuid == u && LastOfDevice(ws, i)
  {
    var n := |ws| - 1;
    if ws[n].uuid == u {
      i := n;
    } else {
      assert ws == ws[..n] + [ws[n]];
      i := LastWindowExists(ws[..n], u);
    }
  }

  lemma BorrowedFromFallback(pws: seq<DeviceWindow>, fws: seq<DeviceWindow>, rs: seq<DeviceWindow>,
                             read: DeviceWindow -> Option<nat>, i: nat)
    requires IsFill(pws, fws, rs) && KeptFirst(read) && i < |rs| && BorrowedAt(pws, rs, read, i)
    ensures exists f :: f in fws && KnowsMore(pws, f, read)
  {
    if i < |pws| {
      var u := pws[i].uuid;
      assert rs[i] == FilledAt(pws, fws, i);
      FoldReads(pws[i], Readings(fws, u), read);
      ReadingsAre(fws, u);
      var f :| f in Readings(fws, u) && read(f).Some?;
      assert KnowsMore(pws, f, read);
    } else {
      FillKeepsAndAdds(pws, fws, rs);
      var f := rs[|pws|..][i - |pws|];
      assert f == rs[i] && f in fws && f.uuid !in Uuids(pws);
      assert forall k :: 0 <= k < |pws| ==> pws[k].uuid in Uuids(pws);
      assert KnowsMore(pws, f, read);
    }
  }

  lemma FallbackIsBorrowed(pws: seq<DeviceWindow>, fws: seq<DeviceWindow>, rs: seq<DeviceWindow>,
                           read: DeviceWindow -> Option<nat>, f: DeviceWindow)
    requires IsFill(pws, fws, rs) && KeptFirst(read) && f in fws && KnowsMore(pws, f, read)
    ensures Borrowed(pws, rs, read)
  {
    if f.uuid in Uuids(pws) {
      var i := LastWindowExists(pws, f.uuid);
      FoldReads(pws[i], Readings(fws, f.uuid), read);
      ReadingsAre(fws, f.uuid);
      assert rs[i] == FilledAt(pws, fws, i);
      assert BorrowedAt(pws, rs, read, i);
    } else {
      FillKeepsAndAdds(pws, fws, rs);
      var k :| 0 <= k < |rs[|pws|..]| && rs[|pws|..][k] == f;
      assert rs[|pws| + k] == f && BorrowedAt(pws, rs, read, |pws| + k);
    }
  }

  lemma BorrowedIff(pws: seq<DeviceWindow>, fws: seq<DeviceWindow>, rs: seq<DeviceWindow>,
                    read: DeviceWindow -> Option<nat>)
    requires IsFill(pws, fws, rs) && KeptFirst(read)
    ensures Borrowed(pws, rs, read) <==> exists f :: f in fws && KnowsMore(pws, f, read)
  {
    if Borrowed(pws, rs, read) {
      var i: nat :| i < |rs| && BorrowedAt(pws, rs, read, i);
      BorrowedFromFallback(pws, fws, rs, read, i);
    }
    if f :| f in fws && KnowsMore(pws, f, read) {
      FallbackIsBorrowed(pws, fws, rs, read, f);
    }
  }

  /** When the fallback is asked and answers, the observation keeps the preferred source's
      tag. It then carries an ECC or link counter that is not that source's reading exactly
      when some fallback window knows that counter of a device that the preferred source
      lacks or does not know it for. */
  lemma FilledCountersAreBorrowedIff(c: MetricsChain, n: nat)
    requires Honest(c) && c.AsksFill(n) && c.fallback.value.collect(n).Ok?
    ensures var p, f, r := c.primary.value.collect(n).value, c.fallback.value.collect(n).value, Outcome(c, n);
            && r.Answered? && r.obs.source == c.primary.value.source
            && (Borrowed(p.deviceWindows, r.obs.deviceWindows, EccOf)
                <==> exists w :: w in f.deviceWindows && KnowsMore(p.deviceWindows, w, EccOf))
            && (Borrowed(p.deviceWindows, r.obs.deviceWindows, LinkOf)
                <==> exists w :: w in f.deviceWindows && KnowsMore(p.deviceWindows, w, LinkOf))
  {
    AnswersCarryTheirMark(c, n);
    var p, f := c.primary.value.collect(n).value.deviceWindows, c.fallback.value.collect(n).value.deviceWindows;
    BorrowedIff(p, f, Filled(p, f), EccOf);
    BorrowedIff(p, f, Filled(p, f), LinkOf);
  }

  /** A chain whose preferred source reads neither the peak nor the counter of a device, and
      whose fallback reads an error. */
  lemma MisattributesIf(c: MetricsChain, o: Observation, f: Observation)
    requires Honest(c) && c.fieldFallback && c.primary.Some? && c.fallback.Some?
    requires c.primary.value.source == PROMETHEUS
    requires c.primary.value.collect(0) == Ok(o) && c.fallback.value.collect(0) == Ok(f)
    requires |o.deviceWindows| == 1 && !o.deviceWindows[0].peakKnown && !o.deviceWindows[0].eccKnown
    requires |f.deviceWindows| == 1 && f.deviceWindows[0].eccKnown && f.deviceWindows[0].eccErrs > 0
    requires o.deviceWindows[0].uuid == f.deviceWindows[0].uuid
    ensures Misattributes(c)
  {
    assert MissingPeak(o.deviceWindows);
    assert c.AsksFill(0);
    AnswersCarryTheirMark(c, 0);
    var r := Filled(o.deviceWindows, f.deviceWindows);
    FillReadsBoth(o.deviceWindows, f.deviceWindows, r, 0, 0);
    assert r[0] in r && r[0].eccKnown && r[0].eccErrs > 0;
  }

  function Always(o: Observation): Collector {
    Collector(o.source, (n: nat) => Ok(o))
  }

  lemma AlwaysTags(o: Observation)
    ensures Tags(Always(o))
  {
  }

  /** Such a chain exists: the error is reported as Prometheus's. */
  lemma FieldFallbackMisattributes(cell: SelectedSource?)
    ensures exists c: MetricsChain :: c.selected == cell && Misattributes(c)
  {
    var w := Blank("g");
    var o := EmptyFrom(PROMETHEUS).(deviceWindows := [w]);
    var f := EmptyFrom(DCGM).(deviceWindows := [w.(eccErrs := 1, eccKnown := true)]);
    var c := MetricsChain(Some(Always(o)), Some(Always(f)), true, cell);
    AlwaysTags(o);
    AlwaysTags(f);
    MisattributesIf(c, o, f);
  }

  /** An honest chain whose first answer holds an ECC error under Prometheus's tag that
      Prometheus never reported. */
  ghost predicate Misattributes(c: MetricsChain) {
    && Honest(c) && c.PrimaryAnswers(0)
    && var r := Outcome(c, 0);
       && r.Answered? && r.obs.source == PROMETHEUS
       && (exists w :: w in r.obs.deviceWindows && w.eccKnown && w.eccErrs > 0)
       && (forall w :: w in c.primary.value.collect(0).value.deviceWindows ==> !w.eccKnown)
  }
}
