/** The counter legs of the timeline, stated directly over the observations: when they
    appear, and how far a source's legs depend on what other sources read. */
module CounterLegs {
  import opened Prelude
  import opened Ordering
  import opened Evidence
  import opened Merge
  import opened Legs
  import opened Gather
  import opened Normalize
  import opened Provenance

  /** The timeline carries device u's ECC leg under source s. */
  ghost predicate EccLeg(obs: seq<Observation>, u: string, s: SignalSource) {
    FirstEccPositive(obs, u) && EccSource(obs, u, s)
  }

  /** The timeline carries device u's link leg, under DCGM. */
  ghost predicate LinkLeg(obs: seq<Observation>, u: string) {
    FirstLinkPositive(obs, u) && Saw(obs, DCGM, LinkHit, u)
  }

  /** The derived counter legs are exactly those of the listed devices, and a device is
      listed iff its first reading from any source is positive and a collector of the
      leg's source saw the counter move. */
  lemma CounterLegsOf(obs: seq<Observation>, now: int) returns (ecc: seq<EccDevice>, link: seq<string>)
    ensures DerivedLegs(GatherAll(obs), now)
         == FlatMap(FlatMap(obs, XidFacts), XidLegs(now)) + FlatMap(FlatMap(obs, NcclFacts), NcclLegs(now))
            + FlatMap(ecc, EccLegs(now)) + FlatMap(link, LinkLegs(now))
    ensures forall u, s :: EccDevice(u, s) in ecc <==> EccLeg(obs, u, s)
    ensures forall u :: u in link <==> LinkLeg(obs, u)
    ensures StrictlySorted(DevicesOf(ecc), StrLeq) && StrictlySorted(link, StrLeq)
  {
    var g := GatherAll(obs);
    StrLeqIsTotal();
    ecc, link := FlatMap(SortedUuids(g), EccDevices(g)), FlatMap(SortedUuids(g), LinkDevices(g));
    EccAscends(g, SortedUuids(g));
    LinkAscends(g, SortedUuids(g));
    SortedUuidsList(g);
    CounterListings(g, SortedUuids(g));
    ListedExactly(g, obs, ecc, link);
  }

  function DevicesOf(ds: seq<EccDevice>): seq<string> {
    seq(|ds|, i requires 0 <= i < |ds| => ds[i].uuid)
  }

  lemma SortedSnoc(q: seq<string>, us: seq<string>, u: string)
    requires StrictlySorted(us + [u], StrLeq) && StrictlySorted(q, StrLeq) && forall x :: x in q ==> x in us
    ensures StrictlySorted(q + [u], StrLeq)
  {
    forall i | 0 <= i < |q| ensures StrLeq(q[i], u) && q[i] != u {
      assert q[i] in us;
      var k :| 0 <= k < |us| && us[k] == q[i];
      assert (us + [u])[k] == q[i] && (us + [u])[|us|] == u;
    }
  }

  /** Each device has at most one ECC leg, and they come in ascending order. */
  lemma {:induction false} EccAscends(g: Gathered, us: seq<string>)
    requires StrictlySorted(us, StrLeq)
    ensures var q := DevicesOf(FlatMap(us, EccDevices(g))); StrictlySorted(q, StrLeq) && forall u :: u in q ==> u in us
  {
    if us != [] {
      var n := |us| - 1;
      EccAscends(g, us[..n]);
      EccSnoc(FlatMap(us[..n], EccDevices(g)), EccDevices(g)(us[n]), us[..n], us[n]);
      assert us == us[..n] + [us[n]];
    }
  }

  lemma EccSnoc(ds: seq<EccDevice>, more: seq<EccDevice>, us: seq<string>, u: string)
    requires StrictlySorted(us + [u], StrLeq) && |more| <= 1 && (more != [] ==> more[0].uuid == u)
    requires StrictlySorted(DevicesOf(ds), StrLeq) && forall x :: x in DevicesOf(ds) ==> x in us
    ensures StrictlySorted(DevicesOf(ds + more), StrLeq) && forall x :: x in DevicesOf(ds + more) ==> x in us + [u]
  {
    if more == [] {
      assert ds + more == ds;
    } else {
      assert DevicesOf(ds + more) == DevicesOf(ds) + [u];
      SortedSnoc(DevicesOf(ds), us, u);
    }
  }

  lemma {:induction false} LinkAscends(g: Gathered, us: seq<string>)
    requires StrictlySorted(us, StrLeq)
    ensures var q := FlatMap(us, LinkDevices(g)); StrictlySorted(q, StrLeq) && forall u :: u in q ==> u in us
  {
    if us != [] {
      var n := |us| - 1;
      LinkAscends(g, us[..n]);
      LinkSnoc(FlatMap(us[..n], LinkDevices(g)), LinkDevices(g)(us[n]), us[..n], us[n]);
      assert us == us[..n] + [us[n]];
    }
  }

  lemma LinkSnoc(q: seq<string>, more: seq<string>, us: seq<string>, u: string)
    requires StrictlySorted(us + [u], StrLeq) && |more| <= 1 && (more != [] ==> more[0] == u)
    requires StrictlySorted(q, StrLeq) && forall x :: x in q ==> x in us
    ensures StrictlySorted(q + more, StrLeq) && forall x :: x in q + more ==> x in us + [u]
  {
    if more == [] {
      assert q + more == q;
    } else {
      assert more == [u];
      SortedSnoc(q, us, u);
    }
  }

  lemma ListedExactly(g: Gathered, obs: seq<Observation>, ecc: seq<EccDevice>, link: seq<string>)
    requires g == GatherAll(obs) && EccListed(ecc, g) && LinkListed(link, g)
    ensures forall u, s :: EccDevice(u, s) in ecc <==> EccLeg(obs, u, s)
    ensures forall u :: u in link <==> LinkLeg(obs, u)
  {
    forall u, s ensures EccDevice(u, s) in ecc <==> EccLeg(obs, u, s) {
      GatherCounts(obs, u);
      EccLegExact(g, obs, ecc, u, s);
    }
    forall u ensures u in link <==> LinkLeg(obs, u) {
      GatherCounts(obs, u);
      LinkLegExact(g, obs, link, u);
    }
  }

  // ---- what a source's own observations decide

  function Own(obs: seq<Observation>, s: SignalSource): seq<Observation> {
    Select(obs, From(s))
  }

  /** A hit is a positive reading. */
  ghost predicate Detects(hit: DeviceWindow -> bool, read: DeviceWindow -> Option<nat>) {
    forall w :: hit(w) <==> read(w).Some? && read(w).value > 0
  }

  lemma CountersDetect()
    ensures Detects(EccHit, EccOf) && Detects(LinkHit, LinkOf)
  {
  }

  lemma SawOwn(obs: seq<Observation>, s: SignalSource, t: SignalSource, hit: DeviceWindow -> bool, u: string)
    ensures Saw(Own(obs, s), t, hit, u) <==> s == t && Saw(obs, s, hit, u)
  {
    forall o ensures o in Own(obs, s) <==> o in obs && o.source == s {
      SelectMember(obs, From(s), o);
    }
  }

  lemma ReadingMember(obs: seq<Observation>, u: string, w: DeviceWindow)
    ensures w in AllReadings(obs, u) <==> w.uuid == u && exists o :: o in obs && w in o.deviceWindows
  {
    var all := FlatMap(obs, AllWindows);
    SelectMember(all, HasUuid(u), w);
    FlatMapMember(obs, AllWindows, w);
    if w in all {
      var i :| 0 <= i < |obs| && w in AllWindows(obs[i]);
      assert obs[i] in obs;
    }
    if o :| o in obs && w in o.deviceWindows {
      var i :| 0 <= i < |obs| && obs[i] == o;
      assert w in AllWindows(obs[i]);
    }
  }

  // ---- the first reading, by position

  /** No observation reads the counter of device u. */
  ghost predicate Silent(obs: seq<Observation>, u: string, read: DeviceWindow -> Option<nat>) {
    forall o :: o in obs ==> SilentIn(o.deviceWindows, u, read)
  }

  ghost predicate SilentIn(ws: seq<DeviceWindow>, u: string, read: DeviceWindow -> Option<nat>) {
    forall w :: w in ws && w.uuid == u ==> read(w).None?
  }

  /** The j-th window of the k-th observation holds the first reading of the counter. */
  ghost predicate FirstAt(obs: seq<Observation>, u: string, read: DeviceWindow -> Option<nat>, k: nat, j: nat) {
    && k < |obs| && j < |obs[k].deviceWindows|
    && obs[k].deviceWindows[j].uuid == u && read(obs[k].deviceWindows[j]).Some?
    && Silent(obs[..k], u, read) && SilentIn(obs[k].deviceWindows[..j], u, read)
  }

  function At(obs: seq<Observation>, k: nat, j: nat): DeviceWindow
    requires k < |obs| && j < |obs[k].deviceWindows|
  {
    obs[k].deviceWindows[j]
  }

  lemma SilentMeansNone(obs: seq<Observation>, u: string, read: DeviceWindow -> Option<nat>)
    requires Silent(obs, u, read)
    ensures forall w :: w in AllReadings(obs, u) ==> read(w).None?
  {
    forall w | w in AllReadings(obs, u) ensures read(w).None? {
      ReadingMember(obs, u, w);
    }
  }

  /** The readings of device u, cut at a window of it. */
  lemma ReadingsAround(obs: seq<Observation>, u: string, k: nat, j: nat) returns (rest: seq<DeviceWindow>)
    requires k < |obs| && j < |obs[k].deviceWindows| && obs[k].deviceWindows[j].uuid == u
    ensures AllReadings(obs, u)
         == AllReadings(obs[..k], u) + Select(obs[k].deviceWindows[..j], HasUuid(u)) + [obs[k].deviceWindows[j]] + rest
  {
    var dws := obs[k].deviceWindows;
    var before, after := FlatMap(obs[..k], AllWindows), FlatMap(obs[k + 1..], AllWindows);
    assert obs == obs[..k] + [obs[k]] + obs[k + 1..];
    FlatMapConcat(obs[..k] + [obs[k]], obs[k + 1..], AllWindows);
    FlatMapConcat(obs[..k], [obs[k]], AllWindows);
    FlatMapOne(obs[k], AllWindows);
    rest := SelectAround(before, dws, after, j, HasUuid(u));
  }

  lemma SelectPieces(a: seq<DeviceWindow>, b: seq<DeviceWindow>, c: seq<DeviceWindow>, p: DeviceWindow -> bool)
    ensures Select(a + b + c, p) == Select(a, p) + Select(b, p) + Select(c, p)
  {
    SelectConcat(a + b, c, p);
    SelectConcat(a, b, p);
  }

  lemma Regroup<T>(x: seq<T>, y: seq<T>, w: seq<T>, z: seq<T>, v: seq<T>)
    ensures x + (y + w + z) + v == x + y + w + (z + v)
  {
  }

  lemma SelectAround(before: seq<DeviceWindow>, dws: seq<DeviceWindow>, after: seq<DeviceWindow>, j: nat, p: DeviceWindow -> bool)
    returns (rest: seq<DeviceWindow>)
    requires j < |dws| && p(dws[j])
    ensures Select(before + dws + after, p) == Select(before, p) + Select(dws[..j], p) + [dws[j]] + rest
  {
    var head, tail := dws[..j], dws[j + 1..];
    assert dws == head + [dws[j]] + tail;
    SelectPieces(before, dws, after, p);
    SelectPieces(head, [dws[j]], tail, p);
    SelectAll([dws[j]], p);
    rest := Select(tail, p) + Select(after, p);
    Regroup(Select(before, p), Select(head, p), [dws[j]], Select(tail, p), Select(after, p));
  }

  lemma FirstInList(a: seq<DeviceWindow>, b: seq<DeviceWindow>, w: DeviceWindow, rest: seq<DeviceWindow>,
                    read: DeviceWindow -> Option<nat>)
    requires read(w).Some? && forall x :: x in a || x in b ==> read(x).None?
    ensures FirstKnown(a + b + [w] + rest, read, read(w))
  {
    var ws, i := a + b + [w] + rest, |a| + |b|;
    forall x | 0 <= x < i ensures read(ws[x]).None? {
      assert ws[x] in a || ws[x] in b;
    }
    assert ws[i] == w && NoneBefore(ws, read, i);
  }

  /** The reading at the first position is the first known one. */
  lemma FirstAtIsFirst(obs: seq<Observation>, u: string, read: DeviceWindow -> Option<nat>, k: nat, j: nat)
    requires FirstAt(obs, u, read, k, j)
    ensures FirstKnown(AllReadings(obs, u), read, read(At(obs, k, j)))
  {
    var rest := ReadingsAround(obs, u, k, j);
    SilentMeansNone(obs[..k], u, read);
    var part := Select(obs[k].deviceWindows[..j], HasUuid(u));
    forall x | x in part ensures read(x).None? {
      SelectMember(obs[k].deviceWindows[..j], HasUuid(u), x);
    }
    FirstInList(AllReadings(obs[..k], u), part, At(obs, k, j), rest, read);
  }

  predicate Positive(r: Option<nat>) { r.Some? && r.value > 0 }

  lemma FirstAtDecides(obs: seq<Observation>, u: string, read: DeviceWindow -> Option<nat>, k: nat, j: nat)
    requires FirstAt(obs, u, read, k, j)
    ensures FirstPositive(obs, u, read) <==> Positive(read(At(obs, k, j)))
  {
    FirstAtIsFirst(obs, u, read, k, j);
    var ws, r := AllReadings(obs, u), read(At(obs, k, j));
    if n: nat :| n > 0 && FirstKnown(ws, read, Some(n)) {
      FirstKnownUnique(ws, read, Some(n), r);
    }
  }

  lemma {:induction false} FirstWindow(ws: seq<DeviceWindow>, u: string, read: DeviceWindow -> Option<nat>) returns (j: nat)
    requires !SilentIn(ws, u, read)
    ensures j < |ws| && ws[j].uuid == u && read(ws[j]).Some? && SilentIn(ws[..j], u, read)
  {
    var n := |ws| - 1;
    assert ws == ws[..n] + [ws[n]];
    if SilentIn(ws[..n], u, read) {
      j := n;
    } else {
      j := FirstWindow(ws[..n], u, read);
      assert ws[..n][..j] == ws[..j];
    }
  }

  lemma {:induction false} FirstPosition(obs: seq<Observation>, u: string, read: DeviceWindow -> Option<nat>)
    returns (k: nat, j: nat)
    requires !Silent(obs, u, read)
    ensures FirstAt(obs, u, read, k, j)
  {
    var n := |obs| - 1;
    assert obs == obs[..n] + [obs[n]];
    if Silent(obs[..n], u, read) {
      k := n;
      j := FirstWindow(obs[n].deviceWindows, u, read);
    } else {
      k, j := FirstPosition(obs[..n], u, read);
      assert obs[..n][..k] == obs[..k] && obs[..n][k] == obs[k];
    }
  }

  lemma SawIsNotSilent(obs: seq<Observation>, s: SignalSource, u: string, read: DeviceWindow -> Option<nat>,
                       hit: DeviceWindow -> bool)
    requires Detects(hit, read) && Saw(obs, s, hit, u)
    ensures !Silent(obs, u, read)
  {
    var o :| o in obs && o.source == s && SawIn(o.deviceWindows, hit, u);
    var w :| w in o.deviceWindows && hit(w) && w.uuid == u;
    assert !SilentIn(o.deviceWindows, u, read);
  }

  /** Where the first reading is the source's, it is the first of its own list too. */
  lemma OwnFirstAt(obs: seq<Observation>, s: SignalSource, u: string, read: DeviceWindow -> Option<nat>, k: nat, j: nat)
    returns (i: nat)
    requires FirstAt(obs, u, read, k, j) && obs[k].source == s
    ensures FirstAt(Own(obs, s), u, read, i, j) && At(Own(obs, s), i, j) == At(obs, k, j)
  {
    var before, after := Own(obs[..k], s), Own(obs[k + 1..], s);
    assert obs == obs[..k] + [obs[k]] + obs[k + 1..];
    SelectConcat(obs[..k] + [obs[k]], obs[k + 1..], From(s));
    SelectConcat(obs[..k], [obs[k]], From(s));
    SelectAll([obs[k]], From(s));
    i := |before|;
    var own := before + [obs[k]] + after;
    assert own == Own(obs, s) && own[i] == obs[k] && own[..i] == before;
    forall o | o in before ensures SilentIn(o.deviceWindows, u, read) {
      SelectMember(obs[..k], From(s), o);
    }
  }

  /** The device's first reading, at (k, j), is another source's, and of the opposite sign to
      the source's own first, at (x, y) of its list. */
  ghost predicate OverruledAt(obs: seq<Observation>, s: SignalSource, u: string, read: DeviceWindow -> Option<nat>,
                              k: nat, j: nat, x: nat, y: nat) {
    && FirstAt(obs, u, read, k, j) && FirstAt(Own(obs, s), u, read, x, y)
    && obs[k].source != s && Positive(read(At(obs, k, j))) != Positive(read(At(Own(obs, s), x, y)))
  }

  ghost predicate Overruled(obs: seq<Observation>, s: SignalSource, u: string, read: DeviceWindow -> Option<nat>) {
    exists k: nat, j: nat, x: nat, y: nat :: OverruledAt(obs, s, u, read, k, j, x, y)
  }

  lemma OverruledDiffers(obs: seq<Observation>, s: SignalSource, u: string, read: DeviceWindow -> Option<nat>)
    requires Overruled(obs, s, u, read)
    ensures FirstPositive(obs, u, read) != FirstPositive(Own(obs, s), u, read)
  {
    var k: nat, j: nat, x: nat, y: nat :| OverruledAt(obs, s, u, read, k, j, x, y);
    FirstAtDecides(obs, u, read, k, j);
    FirstAtDecides(Own(obs, s), u, read, x, y);
  }

  lemma DiffersIsOverruled(obs: seq<Observation>, s: SignalSource, u: string, read: DeviceWindow -> Option<nat>,
                           k: nat, j: nat, x: nat, y: nat)
    requires FirstAt(obs, u, read, k, j) && FirstAt(Own(obs, s), u, read, x, y)
    requires FirstPositive(obs, u, read) != FirstPositive(Own(obs, s), u, read)
    ensures OverruledAt(obs, s, u, read, k, j, x, y)
  {
    FirstAtDecides(obs, u, read, k, j);
    FirstAtDecides(Own(obs, s), u, read, x, y);
    if obs[k].source == s {
      SameFirst(obs, s, u, read, k, j);
    }
  }

  lemma SameFirst(obs: seq<Observation>, s: SignalSource, u: string, read: DeviceWindow -> Option<nat>, k: nat, j: nat)
    requires FirstAt(obs, u, read, k, j) && obs[k].source == s
    ensures FirstPositive(obs, u, read) == FirstPositive(Own(obs, s), u, read)
  {
    var i := OwnFirstAt(obs, s, u, read, k, j);
    FirstAtDecides(obs, u, read, k, j);
    FirstAtDecides(Own(obs, s), u, read, i, j);
  }

  /** A source that saw the counter move agrees with the whole list about the first reading
      unless it is overruled. */
  lemma FirstsAgreeIff(obs: seq<Observation>, s: SignalSource, u: string, read: DeviceWindow -> Option<nat>,
                       hit: DeviceWindow -> bool)
    requires Detects(hit, read) && Saw(obs, s, hit, u)
    ensures (FirstPositive(obs, u, read) <==> FirstPositive(Own(obs, s), u, read)) <==> !Overruled(obs, s, u, read)
  {
    if Overruled(obs, s, u, read) {
      OverruledDiffers(obs, s, u, read);
    } else if FirstPositive(obs, u, read) != FirstPositive(Own(obs, s), u, read) {
      SomeoneOverrules(obs, s, u, read, hit);
    }
  }

  lemma SomeoneOverrules(obs: seq<Observation>, s: SignalSource, u: string, read: DeviceWindow -> Option<nat>,
                         hit: DeviceWindow -> bool)
    requires Detects(hit, read) && Saw(obs, s, hit, u)
    requires FirstPositive(obs, u, read) != FirstPositive(Own(obs, s), u, read)
    ensures Overruled(obs, s, u, read)
  {
    SawOwn(obs, s, s, hit, u);
    SawIsNotSilent(obs, s, u, read, hit);
    SawIsNotSilent(Own(obs, s), s, u, read, hit);
    var k, j := FirstPosition(obs, u, read);
    var x, y := FirstPosition(Own(obs, s), u, read);
    DiffersIsOverruled(obs, s, u, read, k, j, x, y);
  }

  // ---- projection, exactly, for each kind of leg

  /** The DCGM ECC leg depends on other sources exactly when DCGM saw the counter move and
      is overruled: the device's first reading is another source's and of the opposite sign
      to DCGM's first. */
  lemma DcgmEccProjectsIff(obs: seq<Observation>, u: string)
    ensures (EccLeg(obs, u, DCGM) <==> EccLeg(Own(obs, DCGM), u, DCGM))
       <==> !(Saw(obs, DCGM, EccHit, u) && Overruled(obs, DCGM, u, EccOf))
  {
    CountersDetect();
    SawOwn(obs, DCGM, DCGM, EccHit, u);
    if Saw(obs, DCGM, EccHit, u) {
      FirstsAgreeIff(obs, DCGM, u, EccOf, EccHit);
    }
  }

  /** So it is with the link leg. */
  lemma LinkProjectsIff(obs: seq<Observation>, u: string)
    ensures (LinkLeg(obs, u) <==> LinkLeg(Own(obs, DCGM), u))
       <==> !(Saw(obs, DCGM, LinkHit, u) && Overruled(obs, DCGM, u, LinkOf))
  {
    CountersDetect();
    SawOwn(obs, DCGM, DCGM, LinkHit, u);
    if Saw(obs, DCGM, LinkHit, u) {
      FirstsAgreeIff(obs, DCGM, u, LinkOf, LinkHit);
    }
  }

  /** The Prometheus ECC leg besides gives way to DCGM's: it depends on other sources exactly
      when Prometheus saw the counter move and either DCGM did too, so that a leg of its own
      list is lost, or it is overruled. */
  lemma PrometheusEccProjectsIff(obs: seq<Observation>, u: string)
    ensures (EccLeg(obs, u, PROMETHEUS) <==> EccLeg(Own(obs, PROMETHEUS), u, PROMETHEUS))
       <==> !(Saw(obs, PROMETHEUS, EccHit, u)
              && if Saw(obs, DCGM, EccHit, u) then FirstEccPositive(Own(obs, PROMETHEUS), u)
                 else Overruled(obs, PROMETHEUS, u, EccOf))
  {
    CountersDetect();
    SawOwn(obs, PROMETHEUS, PROMETHEUS, EccHit, u);
    SawOwn(obs, PROMETHEUS, DCGM, EccHit, u);
    if Saw(obs, PROMETHEUS, EccHit, u) {
      FirstsAgreeIff(obs, PROMETHEUS, u, EccOf, EccHit);
    }
  }

  // ---- one-sided projection for sources that read a device once

  /** The source reads the counter of device u at most once in the cycle. */
  ghost predicate ReadsOnce(obs: seq<Observation>, s: SignalSource, u: string, read: DeviceWindow -> Option<nat>) {
    var ws := AllReadings(Own(obs, s), u);
    forall i, j :: 0 <= i < j < |ws| ==> read(ws[i]).None? || read(ws[j]).None?
  }

  /** Then what it saw is its first reading. */
  lemma SoleIsFirst(obs: seq<Observation>, s: SignalSource, u: string, read: DeviceWindow -> Option<nat>,
                    hit: DeviceWindow -> bool)
    requires Detects(hit, read) && ReadsOnce(obs, s, u, read) && Saw(obs, s, hit, u)
    ensures FirstPositive(Own(obs, s), u, read)
  {
    SawOwn(obs, s, s, hit, u);
    var own := Own(obs, s);
    var o :| o in own && o.source == s && SawIn(o.deviceWindows, hit, u);
    var w :| w in o.deviceWindows && hit(w) && w.uuid == u;
    ReadingMember(own, u, w);
    SoleReading(AllReadings(own, u), read, w);
  }

  lemma SoleReading(ws: seq<DeviceWindow>, read: DeviceWindow -> Option<nat>, w: DeviceWindow)
    requires w in ws && read(w).Some?
    requires forall i, j :: 0 <= i < j < |ws| ==> read(ws[i]).None? || read(ws[j]).None?
    ensures FirstKnown(ws, read, read(w))
  {
    var i :| 0 <= i < |ws| && ws[i] == w;
    assert NoneBefore(ws, read, i);
  }

  /** A leg under a source is then one its own observations give: other sources can hide
      it or take it over, never bring it about. */
  lemma EccLegIsOwn(obs: seq<Observation>, u: string, s: SignalSource)
    requires ReadsOnce(obs, s, u, EccOf)
    ensures EccLeg(obs, u, s) ==> EccLeg(Own(obs, s), u, s)
    ensures s == DCGM || s == PROMETHEUS ==> (EccLeg(Own(obs, s), u, s) <==> Saw(obs, s, EccHit, u))
  {
    CountersDetect();
    SawOwn(obs, s, DCGM, EccHit, u);
    SawOwn(obs, s, PROMETHEUS, EccHit, u);
    if Saw(obs, s, EccHit, u) {
      SoleIsFirst(obs, s, u, EccOf, EccHit);
    }
  }

  lemma LinkLegIsOwn(obs: seq<Observation>, u: string)
    requires ReadsOnce(obs, DCGM, u, LinkOf)
    ensures LinkLeg(obs, u) ==> LinkLeg(Own(obs, DCGM), u)
    ensures LinkLeg(Own(obs, DCGM), u) <==> Saw(obs, DCGM, LinkHit, u)
  {
    CountersDetect();
    SawOwn(obs, DCGM, DCGM, LinkHit, u);
    if Saw(obs, DCGM, LinkHit, u) {
      SoleIsFirst(obs, DCGM, u, LinkOf, LinkHit);
    }
  }

  // ---- other sources decide: runs over one device

  datatype Reading = Reading(source: SignalSource, count: nat)

  const GPU: string := "GPU-0"

  function CountWindow(n: nat): DeviceWindow {
    Blank(GPU).(eccErrs := n, eccKnown := true, linkErrs := n, linkKnown := true)
  }

  function Observed(r: Reading): Observation {
    Observation(r.source, [], [], [], [], [CountWindow(r.count)], [], map[])
  }

  function One(r: Reading): seq<Observation> { [Observed(r)] }

  function Run(rs: seq<Reading>): seq<Observation> { FlatMap(rs, One) }

  function Emitted(r: Reading): seq<DeviceWindow> { [CountWindow(r.count)] }

  lemma {:induction false} RunElements(rs: seq<Reading>)
    ensures |Run(rs)| == |rs| && forall i :: 0 <= i < |rs| ==> Run(rs)[i] == Observed(rs[i])
    ensures |FlatMap(rs, Emitted)| == |rs|
    ensures forall i :: 0 <= i < |rs| ==> FlatMap(rs, Emitted)[i] == CountWindow(rs[i].count)
  {
    if rs != [] {
      RunElements(rs[..|rs| - 1]);
    }
  }

  lemma RunReadings(rs: seq<Reading>)
    ensures AllReadings(Run(rs), GPU) == FlatMap(rs, Emitted)
  {
    forall r ensures FlatMap(One(r), AllWindows) == Emitted(r) {
      assert One(r)[..0] == [];
    }
    FlatMapOfFlatMap(rs, One, AllWindows, Emitted);
    var ws := FlatMap(rs, Emitted);
    RunElements(rs);
    assert forall w :: w in ws ==> HasUuid(GPU)(w);
    SelectAll(ws, HasUuid(GPU));
  }

  /** In such a run the first reading decides, whoever supplied it. */
  lemma FirstReadingDecides(rs: seq<Reading>, read: DeviceWindow -> Option<nat>)
    requires rs != [] && forall n: nat :: read(CountWindow(n)) == Some(n)
    ensures FirstPositive(Run(rs), GPU, read) <==> rs[0].count > 0
  {
    RunReadings(rs);
    RunElements(rs);
    var ws := FlatMap(rs, Emitted);
    assert NoneBefore(ws, read, 0) && read(ws[0]) == Some(rs[0].count);
    assert FirstKnown(ws, read, Some(rs[0].count));
    if n: nat :| n > 0 && FirstKnown(ws, read, Some(n)) {
      FirstKnownUnique(ws, read, Some(n), Some(rs[0].count));
    }
  }

  lemma RunSaw(rs: seq<Reading>, i: nat)
    requires i < |rs| && rs[i].count > 0
    ensures Saw(Run(rs), rs[i].source, EccHit, GPU) && Saw(Run(rs), rs[i].source, LinkHit, GPU)
  {
    RunElements(rs);
    var o := Run(rs)[i];
    assert o in Run(rs) && CountWindow(rs[i].count) in o.deviceWindows;
    assert SawIn(o.deviceWindows, EccHit, GPU) && SawIn(o.deviceWindows, LinkHit, GPU);
  }

  function By(s: SignalSource): Reading -> bool { (r: Reading) => r.source == s }

  lemma {:induction false} OwnRun(rs: seq<Reading>, s: SignalSource)
    ensures Own(Run(rs), s) == Run(Select(rs, By(s)))
  {
    if rs != [] {
      var n := |rs| - 1;
      OwnRun(rs[..n], s);
      var own := Select(rs[..n], By(s));
      SelectConcat(Run(rs[..n]), One(rs[n]), From(s));
      if rs[n].source == s {
        SelectAll(One(rs[n]), From(s));
        assert (own + [rs[n]])[..|own|] == own;
      } else {
        SelectNone(One(rs[n]), From(s));
        assert own + [] == own;
      }
    }
  }

  /** The legs of a run: the first reading decides whether there are any, DCGM comes first. */
  lemma LegsOfRun(rs: seq<Reading>, s: SignalSource, i: nat)
    requires i < |rs| && rs[i] == Reading(s, rs[i].count) && rs[i].count > 0
    ensures s == DCGM ==> (EccLeg(Run(rs), GPU, DCGM) <==> rs[0].count > 0) && (LinkLeg(Run(rs), GPU) <==> rs[0].count > 0)
    ensures s == DCGM ==> !EccLeg(Run(rs), GPU, PROMETHEUS)
  {
    FirstReadingDecides(rs, EccOf);
    FirstReadingDecides(rs, LinkOf);
    RunSaw(rs, i);
  }

  const HIDDEN: seq<Reading> := [Reading(PROMETHEUS, 0), Reading(DCGM, 3)]
  const BROUGHT: seq<Reading> := [Reading(PROMETHEUS, 5), Reading(DCGM, 0), Reading(DCGM, 3)]
  const TAKEN: seq<Reading> := [Reading(PROMETHEUS, 5), Reading(DCGM, 3)]

  lemma SelectTwo(a: Reading, b: Reading, s: SignalSource)
    ensures Select([a, b], By(s)) == (if a.source == s then [a] else []) + if b.source == s then [b] else []
  {
    var rs := [a, b];
    SelectStep(rs, By(s), 0);
    SelectStep(rs, By(s), 1);
    assert rs[..2] == rs && rs[..0] == [];
  }

  lemma SelectThree(a: Reading, b: Reading, c: Reading, s: SignalSource)
    requires a.source != s && b.source == s && c.source == s
    ensures Select([a, b, c], By(s)) == [b, c]
  {
    assert [a, b, c][..2] == [a, b];
    SelectTwo(a, b, s);
  }

  /** An earlier Prometheus zero hides DCGM's legs. */
  lemma LegsCanBeHidden()
    ensures !EccLeg(Run(HIDDEN), GPU, DCGM) && EccLeg(Own(Run(HIDDEN), DCGM), GPU, DCGM)
    ensures !LinkLeg(Run(HIDDEN), GPU) && LinkLeg(Own(Run(HIDDEN), DCGM), GPU)
  {
    SelectTwo(HIDDEN[0], HIDDEN[1], DCGM);
    OwnRun(HIDDEN, DCGM);
    LegsOfRun(HIDDEN, DCGM, 1);
    LegsOfRun([Reading(DCGM, 3)], DCGM, 0);
  }

  /** Where DCGM reads a device twice, an earlier positive Prometheus reading brings about
      legs that DCGM's own first reading would not. */
  lemma LegsCanBeBrought()
    ensures EccLeg(Run(BROUGHT), GPU, DCGM) && !EccLeg(Own(Run(BROUGHT), DCGM), GPU, DCGM)
    ensures LinkLeg(Run(BROUGHT), GPU) && !LinkLeg(Own(Run(BROUGHT), DCGM), GPU)
  {
    SelectThree(BROUGHT[0], BROUGHT[1], BROUGHT[2], DCGM);
    OwnRun(BROUGHT, DCGM);
    LegsOfRun(BROUGHT, DCGM, 2);
    LegsOfRun([Reading(DCGM, 0), Reading(DCGM, 3)], DCGM, 1);
  }

  /** A positive DCGM reading takes Prometheus's leg over. */
  lemma LegsCanBeTaken()
    ensures !EccLeg(Run(TAKEN), GPU, PROMETHEUS) && EccLeg(Run(TAKEN), GPU, DCGM)
    ensures EccLeg(Own(Run(TAKEN), PROMETHEUS), GPU, PROMETHEUS)
  {
    SelectTwo(TAKEN[0], TAKEN[1], PROMETHEUS);
    OwnRun(TAKEN, PROMETHEUS);
    LegsOfRun(TAKEN, DCGM, 1);
    var own := [Reading(PROMETHEUS, 5)];
    FirstReadingDecides(own, EccOf);
    RunSaw(own, 0);
    SawOwn(Run(TAKEN), PROMETHEUS, DCGM, EccHit, GPU);
  }
}
