/** The operator's static device spec (device_spec.go): looking a device up, and filling
    the readings its collector left unknown. */
module Spec {
  import opened Prelude
  import opened Evidence
  import opened Text
  import opened Ordering

  /** A zero field specifies nothing. */
  datatype Entry = Entry(peakTflops: real, costPerHour: real) {
    predicate HasPeak() { peakTflops > 0.0 }
    predicate HasCost() { costPerHour > 0.0 }
    predicate Empty() { !HasPeak() && !HasCost() }
  }

  const WILDCARD := "*"

  function LowerChar(c: char): char {
    if 'A' <= c <= 'Z' then c - 'A' + 'a' else c
  }

  function Lower(s: string): (l: string)
    ensures |l| == |s|
  {
    if s == "" then "" else [LowerChar(s[0])] + Lower(s[1..])
  }

  const VENDOR := "nvidia "

  /** A model name without case, surrounding space and vendor. */
  function NormModel(m: string): string {
    TrimSpace(TrimPrefix(Lower(TrimSpace(m)), VENDOR))
  }

  /** The order in which a map of these keys happens to be ranged over. */
  ghost predicate Lists(order: seq<string>, keys: set<string>) {
    && Elements(order) == keys
    && forall i, j :: 0 <= i < j < |order| ==> order[i] != order[j]
  }

  datatype DeviceSpec = DeviceSpec(byUuid: map<string, Entry>, byModel: map<string, Entry>) {

    predicate Empty() {
      byUuid == map[] && byModel == map[]
    }

    /** k is another spelling of the model, with something to say. */
    predicate Tolerates(model: string, k: string) {
      k in byModel && k != WILDCARD && NormModel(k) == NormModel(model) && !byModel[k].Empty()
    }

    /** The first spelling of the model in the given order. */
    method LookupSpelling(order: seq<string>, model: string) returns (r: Option<Entry>)
      requires Lists(order, byModel.Keys)
      ensures r == FirstSpelling(this, order, model)
    {
      var want := NormModel(model);
      for i := 0 to |order|
        invariant FirstSpelling(this, order, model) == FirstSpelling(this, order[i..], model)
      {
        var k := order[i];
        assert k in Elements(order);
        assert order[i..][0] == k && order[i..][1..] == order[i + 1..];
        if k == WILDCARD {
          continue;
        }
        if NormModel(k) == want && !byModel[k].Empty() {
          return Some(byModel[k]);
        }
      }
      assert order[|order|..] == [];
      r := None;
    }

    /** Looks a device up: by UUID, by exact model, by spelling, by wildcard. The by-model
        map is ranged over in the given order. */
    method Lookup(order: seq<string>, uuid: string, model: string) returns (r: Option<Entry>)
      requires Lists(order, byModel.Keys)
      ensures r == Found(this, order, uuid, model)
    {
      if uuid in byUuid && !byUuid[uuid].Empty() {
        return Some(byUuid[uuid]);
      }
      if model != "" {
        if model in byModel && !byModel[model].Empty() {
          return Some(byModel[model]);
        }
        var e := LookupSpelling(order, model);
        if e.Some? {
          return e;
        }
      }
      if WILDCARD in byModel && !byModel[WILDCARD].Empty() {
        return Some(byModel[WILDCARD]);
      }
      r := None;
    }
  }

  function FirstSpelling(s: DeviceSpec, order: seq<string>, model: string): Option<Entry> {
    if order == [] then None
    else if s.Tolerates(model, order[0]) then Some(s.byModel[order[0]])
    else FirstSpelling(s, order[1..], model)
  }

  /** What m says under a key, if anything. */
  function Says(m: map<string, Entry>, k: string): Option<Entry> {
    if k in m && !m[k].Empty() then Some(m[k]) else None
  }

  /** What is said before any spelling is tried. */
  function Named(s: DeviceSpec, uuid: string, model: string): Option<Entry> {
    if Says(s.byUuid, uuid).Some? then Says(s.byUuid, uuid)
    else if model != "" then Says(s.byModel, model) else None
  }

  function Found(s: DeviceSpec, order: seq<string>, uuid: string, model: string): Option<Entry> {
    if Named(s, uuid, model).Some? then Named(s, uuid, model)
    else if model != "" && FirstSpelling(s, order, model).Some? then FirstSpelling(s, order, model)
    else Says(s.byModel, WILDCARD)
  }

  // ---- the lookup does not depend on the map's order exactly when spellings agree

  /** r is an answer the spec gives for the device, whatever the order. */
  ghost predicate MayFind(s: DeviceSpec, uuid: string, model: string, r: Option<Entry>) {
    if Named(s, uuid, model).Some? then r == Named(s, uuid, model)
    else if model != "" && exists k :: s.Tolerates(model, k) then exists k :: s.Tolerates(model, k) && r == Some(s.byModel[k])
    else r == Says(s.byModel, WILDCARD)
  }

  lemma {:induction false} FirstSpellingMeans(s: DeviceSpec, order: seq<string>, model: string)
    ensures var r := FirstSpelling(s, order, model);
            if r.None? then forall k :: k in order ==> !s.Tolerates(model, k)
            else exists k :: k in order && s.Tolerates(model, k) && r == Some(s.byModel[k])
  {
    if order != [] {
      FirstSpellingMeans(s, order[1..], model);
      assert forall k :: k in order <==> k == order[0] || k in order[1..];
    }
  }

  /** Every order gives an answer of the spec. */
  lemma FoundMayBeFound(s: DeviceSpec, order: seq<string>, uuid: string, model: string)
    requires Lists(order, s.byModel.Keys)
    ensures MayFind(s, uuid, model, Found(s, order, uuid, model))
  {
    FirstSpellingMeans(s, order, model);
    assert forall k :: k in order <==> k in Elements(order);
  }

  /** An entry under the key that names a peak or a price. */
  predicate Speaking(m: map<string, Entry>, k: string) {
    k in m && (m[k].peakTflops > 0.0 || m[k].costPerHour > 0.0)
  }

  /** The precedence: the device's own entry, the model's, that of another spelling of the
      model, the wildcard's, none; entries without a positive figure do not count. */
  lemma FoundByPrecedence(s: DeviceSpec, order: seq<string>, uuid: string, model: string)
    requires Lists(order, s.byModel.Keys)
    ensures var r := Found(s, order, uuid, model);
            if Speaking(s.byUuid, uuid) then r == Some(s.byUuid[uuid])
            else if model != "" && Speaking(s.byModel, model) then r == Some(s.byModel[model])
            else if model != "" && exists k :: k != "*" && NormModel(k) == NormModel(model) && Speaking(s.byModel, k) then
              exists k :: k != "*" && NormModel(k) == NormModel(model) && Speaking(s.byModel, k) && r == Some(s.byModel[k])
            else r == if Speaking(s.byModel, "*") then Some(s.byModel["*"]) else None
  {
    FoundMayBeFound(s, order, uuid, model);
    forall k ensures s.Tolerates(model, k)
                     <==> k != "*" && NormModel(k) == NormModel(model) && Speaking(s.byModel, k) {
    }
  }

  lemma {:induction false} LowerIsExact(s: string)
    ensures forall i :: 0 <= i < |s| ==> Lower(s)[i] == if 'A' <= s[i] <= 'Z' then s[i] - 'A' + 'a' else s[i]
  {
    if s != "" {
      LowerIsExact(s[1..]);
      assert forall i :: 1 <= i < |s| ==> s[i] == s[1..][i - 1] && Lower(s)[i] == Lower(s[1..])[i - 1];
    }
  }

  /** Spellings of a model: case, surrounding space, and the vendor in front make no
      difference. */
  lemma SpellingsOfAModel(a: string, m: string, b: string, x: string)
    requires AllSpace(a) && AllSpace(b) && Trimmed(m) && m != ""
    requires Trimmed(x) && x != "" && !HasPrefix(x, "nvidia ")
    requires Lower(m) == x || Lower(m) == "nvidia " + x
    ensures NormModel(a + m + b) == x
  {
    Unpadded(a, m, b);
    TrimmedIsFixed(x);
    assert ("nvidia " + x)[|"nvidia "|..] == x;
  }

  /** And every answer of the spec is given by some order. */
  lemma EveryAnswerIsReached(s: DeviceSpec, uuid: string, model: string, r: Option<Entry>)
    requires MayFind(s, uuid, model, r)
    ensures exists order :: Lists(order, s.byModel.Keys) && Found(s, order, uuid, model) == r
  {
    if Named(s, uuid, model).None? && model != "" && exists k :: s.Tolerates(model, k) {
      var k :| s.Tolerates(model, k) && r == Some(s.byModel[k]);
      var order := StartingWith(k, s.byModel.Keys);
      assert Found(s, order, uuid, model) == r;
    } else {
      var order := AnyOrder(s.byModel.Keys);
      FoundMayBeFound(s, order, uuid, model);
      assert Found(s, order, uuid, model) == r;
    }
  }

  ghost function AnyOrder(keys: set<string>): (order: seq<string>)
    ensures Lists(order, keys)
  {
    StrLeqIsTotal();
    Ascending(keys, StrLeq)
  }

  ghost function StartingWith(k: string, keys: set<string>): (order: seq<string>)
    requires k in keys
    ensures Lists(order, keys) && order != [] && order[0] == k
  {
    var rest := AnyOrder(keys - {k});
    assert forall x :: x in rest <==> x in Elements(rest);
    assert Elements([k] + rest) == keys;
    [k] + rest
  }

  /** Something more specific than a spelling answers, or all spellings say the same. */
  ghost predicate Unambiguous(s: DeviceSpec, uuid: string, model: string) {
    || Named(s, uuid, model).Some?
    || model == ""
    || forall k, l :: s.Tolerates(model, k) && s.Tolerates(model, l) ==> s.byModel[k] == s.byModel[l]
  }

  /** Two orders may disagree. */
  ghost predicate OrderMatters(s: DeviceSpec, uuid: string, model: string) {
    exists o, p :: Lists(o, s.byModel.Keys) && Lists(p, s.byModel.Keys) && Found(s, o, uuid, model) != Found(s, p, uuid, model)
  }

  lemma OrderMattersIff(s: DeviceSpec, uuid: string, model: string)
    ensures OrderMatters(s, uuid, model) <==> !Unambiguous(s, uuid, model)
  {
    if OrderMatters(s, uuid, model) {
      var o, p :| Lists(o, s.byModel.Keys) && Lists(p, s.byModel.Keys) && Found(s, o, uuid, model) != Found(s, p, uuid, model);
      FoundMayBeFound(s, o, uuid, model);
      FoundMayBeFound(s, p, uuid, model);
    }
    if !Unambiguous(s, uuid, model) {
      var k, l :| s.Tolerates(model, k) && s.Tolerates(model, l) && s.byModel[k] != s.byModel[l];
      assert MayFind(s, uuid, model, Some(s.byModel[k])) && MayFind(s, uuid, model, Some(s.byModel[l]));
      TwoAnswersClash(s, uuid, model, Some(s.byModel[k]), Some(s.byModel[l]));
    }
  }

  lemma TwoAnswersClash(s: DeviceSpec, uuid: string, model: string, a: Option<Entry>, b: Option<Entry>)
    requires a != b && MayFind(s, uuid, model, a) && MayFind(s, uuid, model, b)
    ensures OrderMatters(s, uuid, model)
  {
    EveryAnswerIsReached(s, uuid, model, a);
    EveryAnswerIsReached(s, uuid, model, b);
    var o :| Lists(o, s.byModel.Keys) && Found(s, o, uuid, model) == a;
    var p :| Lists(p, s.byModel.Keys) && Found(s, p, uuid, model) == b;
  }

  predicate Speaks(s: DeviceSpec, k: string) {
    k in s.byModel && k != WILDCARD && !s.byModel[k].Empty()
  }

  /** Distinct spellings for distinct entries are enough. */
  ghost predicate DistinctModels(s: DeviceSpec) {
    forall k, l :: Speaks(s, k) && Speaks(s, l) && NormModel(k) == NormModel(l) ==> k == l
  }

  lemma DistinctModelsAreUnambiguous(s: DeviceSpec, uuid: string, model: string)
    requires DistinctModels(s)
    ensures !OrderMatters(s, uuid, model)
  {
    OrderMattersIff(s, uuid, model);
  }

  /** Two spellings of a model with different entries, neither the reported one, make the
      answer arbitrary. */
  lemma SpellingsCanClash(u: string, model: string, k: string, l: string, a: Entry, b: Entry)
    requires a != b && !a.Empty() && !b.Empty()
    requires NormModel(k) == NormModel(model) == NormModel(l) && model != ""
    requires k != l && model != k && model != l && k != WILDCARD && l != WILDCARD && model != WILDCARD
    ensures OrderMatters(DeviceSpec(map[], map[k := a, l := b]), u, model)
  {
    var s := DeviceSpec(map[], map[k := a, l := b]);
    assert s.Tolerates(model, k) && s.Tolerates(model, l) && s.byModel[k] == a && s.byModel[l] == b;
    OrderMattersIff(s, u, model);
  }

  lemma LowerCaseT4()
    ensures NormModel("t4") == "t4"
  {
  }

  lemma PaddedT4()
    ensures NormModel("T4 ") == "t4"
  {
  }

  lemma SpellingsOfT4()
    ensures NormModel("t4") == NormModel("T4 ") == NormModel("T4")
  {
    LowerCaseT4();
    PaddedT4();
    assert NormModel("T4") == "t4";
  }

  /** So "t4" and "T4 " do for a "T4". */
  lemma T4Clashes(u: string, a: Entry, b: Entry)
    requires a != b && !a.Empty() && !b.Empty()
    ensures OrderMatters(DeviceSpec(map[], map["t4" := a, "T4 " := b]), u, "T4")
  {
    SpellingsOfT4();
    assert |"t4"| == 2 && |"T4 "| == 3 && |"T4"| == 2 && "t4"[0] != "T4"[0];
    SpellingsCanClash(u, "T4", "t4", "T4 ", a, b);
  }

  // ---- filling

  function Flops(tflops: real): real { tflops * 1000000000000.0 }

  /** The work of tensorSecs at a peak. */
  function Work(tensorSecs: real, peak: real): real { tensorSecs * peak }

  /** Supplies a peak that is not known, and with it the achieved work, if tensor time is
      known and achieved work is not. */
  function FillPeak(w: DeviceWindow, tflops: real): DeviceWindow {
    if w.peakKnown then w
    else
      var p := w.(peakFlops := Flops(tflops), peakKnown := true);
      if w.tensorKnown && !w.achievedKnown then p.(achievedFlops := Work(w.tensorSecs, p.peakFlops), achievedKnown := true) else p
  }

  function FillCost(w: DeviceWindow, cost: real): DeviceWindow {
    if w.costKnown then w else w.(costPerHour := cost, costKnown := true)
  }

  function FillEntry(w: DeviceWindow, e: Option<Entry>): DeviceWindow {
    if e.None? then w
    else
      var p := if e.value.HasPeak() then FillPeak(w, e.value.peakTflops) else w;
      if e.value.HasCost() then FillCost(p, e.value.costPerHour) else p
  }

  /** What was filled, for the provenance: which fields were supplied or derived anywhere,
      and for which devices (a device once per window touched). */
  datatype Stamp = Stamp(peak: nat, cost: nat, achieved: nat, filled: multiset<string>)

  const NO_STAMP: Stamp := Stamp(0, 0, 0, multiset{})

  function Count(b: bool): nat { if b then 1 else 0 }

  /** The stamp after a window w became r. */
  function Stamped(s: Stamp, w: DeviceWindow, r: DeviceWindow): Stamp {
    var peak, cost, achieved := r.peakKnown && !w.peakKnown, r.costKnown && !w.costKnown, r.achievedKnown && !w.achievedKnown;
    Stamp(s.peak + Count(peak), s.cost + Count(cost), s.achieved + Count(achieved),
          s.filled + if peak || cost then multiset{w.uuid} else multiset{})
  }

  function StampOf(ws: seq<DeviceWindow>, rs: seq<DeviceWindow>): Stamp
    requires |ws| == |rs|
  {
    if ws == [] then NO_STAMP
    else
      var n := |ws| - 1;
      Stamped(StampOf(ws[..n], rs[..n]), ws[n], rs[n])
  }

  lemma StampStep(ws: seq<DeviceWindow>, rs: seq<DeviceWindow>, i: nat)
    requires i < |ws| == |rs|
    ensures StampOf(ws[..i + 1], rs[..i + 1]) == Stamped(StampOf(ws[..i], rs[..i]), ws[i], rs[i])
  {
    assert ws[..i + 1][..i] == ws[..i] && rs[..i + 1][..i] == rs[..i];
  }

  // ---- what a stamp counts

  ghost function Positions(n: nat, p: int -> bool): set<int> {
    set i | 0 <= i < n && p(i)
  }

  lemma PositionsStep(n: nat, p: int -> bool)
    ensures |Positions(n + 1, p)| == |Positions(n, p)| + Count(p(n))
  {
    var before := Positions(n, p);
    assert Positions(n + 1, p) == if p(n) then before + {n} else before;
  }

  /** The windows that had no peak, no price, no achieved work, and have one now. */
  function PeakGained(ws: seq<DeviceWindow>, rs: seq<DeviceWindow>): int -> bool {
    (i: int) => 0 <= i < |ws| && i < |rs| && !ws[i].peakKnown && rs[i].peakKnown
  }

  function CostGained(ws: seq<DeviceWindow>, rs: seq<DeviceWindow>): int -> bool {
    (i: int) => 0 <= i < |ws| && i < |rs| && !ws[i].costKnown && rs[i].costKnown
  }

  function WorkGained(ws: seq<DeviceWindow>, rs: seq<DeviceWindow>): int -> bool {
    (i: int) => 0 <= i < |ws| && i < |rs| && !ws[i].achievedKnown && rs[i].achievedKnown
  }

  /** Those of device u that had a gap in peak or price filled. */
  function FilledFor(ws: seq<DeviceWindow>, rs: seq<DeviceWindow>, u: string): int -> bool {
    (i: int) => 0 <= i < |ws| && ws[i].uuid == u && (PeakGained(ws, rs)(i) || CostGained(ws, rs)(i))
  }

  /** A stamp counts the windows that gained a peak, a price, achieved work; and each device
      stands in it once for every window of it that gained a peak or a price. */
  lemma {:induction false} StampCounts(ws: seq<DeviceWindow>, rs: seq<DeviceWindow>, n: nat, u: string)
    requires n <= |ws| == |rs|
    ensures var s := StampOf(ws[..n], rs[..n]);
            && s.peak == |Positions(n, PeakGained(ws, rs))|
            && s.cost == |Positions(n, CostGained(ws, rs))|
            && s.achieved == |Positions(n, WorkGained(ws, rs))|
            && s.filled[u] == |Positions(n, FilledFor(ws, rs, u))|
  {
    if n > 0 {
      StampCounts(ws, rs, n - 1, u);
      StampStep(ws, rs, n - 1);
      PositionsStep(n - 1, PeakGained(ws, rs));
      PositionsStep(n - 1, CostGained(ws, rs));
      PositionsStep(n - 1, WorkGained(ws, rs));
      PositionsStep(n - 1, FilledFor(ws, rs, u));
    }
  }

  /** The orders in which the by-model map is ranged over, lookup by lookup. */
  ghost predicate OrdersOf(orders: nat -> seq<string>, s: DeviceSpec) {
    forall i :: Lists(orders(i), s.byModel.Keys)
  }

  /** ws, filled from the spec. */
  ghost predicate IsSpecFill(s: DeviceSpec, orders: nat -> seq<string>, ws: seq<DeviceWindow>, rs: seq<DeviceWindow>) {
    && |rs| == |ws|
    && forall i :: 0 <= i < |ws| ==> rs[i] == SpecFilledAt(s, orders, ws, i)
  }

  function SpecFilledAt(s: DeviceSpec, orders: nat -> seq<string>, ws: seq<DeviceWindow>, i: nat): DeviceWindow
    requires i < |ws|
  {
    FillEntry(ws[i], Found(s, orders(i), ws[i].uuid, ws[i].model))
  }

  /** Fills the windows one after the other, in place. */
  method SpecFill(s: DeviceSpec, orders: nat -> seq<string>, ws: seq<DeviceWindow>)
    returns (rs: seq<DeviceWindow>, stamp: Stamp)
    requires OrdersOf(orders, s)
    ensures IsSpecFill(s, orders, ws, rs) && stamp == StampOf(ws, rs)
  {
    rs, stamp := ws, NO_STAMP;
    if s.Empty() {
      EmptySpecFillsNothing(s, orders, ws);
      return;
    }
    for i := 0 to |ws|
      invariant |rs| == |ws|
      invariant forall k :: 0 <= k < i ==> rs[k] == SpecFilledAt(s, orders, ws, k)
      invariant forall k :: i <= k < |ws| ==> rs[k] == ws[k]
      invariant stamp == StampOf(ws[..i], rs[..i])
    {
      var w := rs[i];
      var entry := s.Lookup(orders(i), w.uuid, w.model);
      var r, more := FillWindow(w, entry, stamp);
      ghost var before := rs[..i];
      rs := rs[i := r];
      stamp := more;
      assert rs[..i] == before;
      StampStep(ws, rs, i);
    }
    assert ws[..|ws|] == ws && rs[..|rs|] == rs;
  }

  /** Supplies an unknown peak, and the achieved work that follows from it. */
  method SupplyPeak(dw: DeviceWindow, tflops: real, stamp: Stamp) returns (w: DeviceWindow, more: Stamp)
    requires !dw.peakKnown
    ensures w == FillPeak(dw, tflops)
    ensures more == stamp.(peak := stamp.peak + 1, achieved := stamp.achieved + Count(w.achievedKnown && !dw.achievedKnown))
  {
    w := dw.(peakFlops := Flops(tflops), peakKnown := true);
    more := stamp.(peak := stamp.peak + 1);
    if w.tensorKnown && !w.achievedKnown {
      w := w.(achievedFlops := Work(w.tensorSecs, w.peakFlops), achievedKnown := true);
      more := more.(achieved := more.achieved + 1);
    }
  }

  lemma StampOfSupply(stamp: Stamp, dw: DeviceWindow, tflops: real)
    requires !dw.peakKnown
    ensures var w := FillPeak(dw, tflops);
            Stamped(stamp, dw, w) == stamp.(peak := stamp.peak + 1,
                                            achieved := stamp.achieved + Count(w.achievedKnown && !dw.achievedKnown),
                                            filled := stamp.filled + multiset{dw.uuid})
  {
  }

  /** Supplies an unknown price. */
  method SupplyCost(dw: DeviceWindow, cost: real, stamp: Stamp) returns (w: DeviceWindow, more: Stamp)
    requires !dw.costKnown
    ensures w == FillCost(dw, cost) && more == stamp.(cost := stamp.cost + 1)
  {
    w := dw.(costPerHour := cost, costKnown := true);
    more := stamp.(cost := stamp.cost + 1);
  }

  /** Whether an entry supplies the peak, the price, and with the peak the achieved work. */
  predicate PeakSupplied(dw: DeviceWindow, e: Entry) { e.HasPeak() && !dw.peakKnown }
  predicate CostSupplied(dw: DeviceWindow, e: Entry) { e.HasCost() && !dw.costKnown }
  predicate WorkDerived(dw: DeviceWindow, e: Entry) { PeakSupplied(dw, e) && dw.tensorKnown && !dw.achievedKnown }

  lemma EntryFlags(dw: DeviceWindow, e: Entry)
    ensures var w := FillEntry(dw, Some(e));
            && (w.peakKnown && !dw.peakKnown <==> PeakSupplied(dw, e))
            && (w.costKnown && !dw.costKnown <==> CostSupplied(dw, e))
            && (w.achievedKnown && !dw.achievedKnown <==> WorkDerived(dw, e))
  {
  }

  /** The counts after an entry, devices aside. */
  function CountedEntry(s: Stamp, dw: DeviceWindow, e: Entry): Stamp {
    s.(peak := s.peak + Count(PeakSupplied(dw, e)), cost := s.cost + Count(CostSupplied(dw, e)),
       achieved := s.achieved + Count(WorkDerived(dw, e)))
  }

  lemma StampOfEntry(s: Stamp, dw: DeviceWindow, e: Entry)
    ensures var c := CountedEntry(s, dw, e);
            Stamped(s, dw, FillEntry(dw, Some(e)))
            == if PeakSupplied(dw, e) || CostSupplied(dw, e) then c.(filled := s.filled + multiset{dw.uuid}) else c
  {
    EntryFlags(dw, e);
  }

  /** Supplies from an entry what is not known. */
  method ApplyEntry(dw: DeviceWindow, e: Entry, stamp: Stamp) returns (w: DeviceWindow, more: Stamp, touched: bool)
    ensures w == FillEntry(dw, Some(e)) && more == CountedEntry(stamp, dw, e)
    ensures touched <==> PeakSupplied(dw, e) || CostSupplied(dw, e)
  {
    w, more, touched := dw, stamp, false;
    if e.HasPeak() && !w.peakKnown {
      w, more := SupplyPeak(w, e.peakTflops, more);
      touched := true;
    }
    if e.HasCost() && !w.costKnown {
      w, more := SupplyCost(w, e.costPerHour, more);
      touched := true;
    }
  }

  /** One window of the loop. */
  method FillWindow(dw: DeviceWindow, entry: Option<Entry>, stamp: Stamp) returns (w: DeviceWindow, more: Stamp)
    ensures w == FillEntry(dw, entry) && more == Stamped(stamp, dw, w)
  {
    if entry.None? {
      return dw, stamp;
    }
    var touched;
    w, more, touched := ApplyEntry(dw, entry.value, stamp);
    StampOfEntry(stamp, dw, entry.value);
    if touched {
      more := more.(filled := more.filled + multiset{dw.uuid});
    }
  }

  lemma EmptySpecFillsNothing(s: DeviceSpec, orders: nat -> seq<string>, ws: seq<DeviceWindow>)
    requires s.Empty() && OrdersOf(orders, s)
    ensures IsSpecFill(s, orders, ws, ws) && StampOf(ws, ws) == NO_STAMP
  {
    forall i | 0 <= i < |ws| ensures ws[i] == SpecFilledAt(s, orders, ws, i) {
      FoundMayBeFound(s, orders(i), ws[i].uuid, ws[i].model);
    }
    NothingStamped(ws);
  }

  lemma {:induction false} NothingStamped(ws: seq<DeviceWindow>)
    ensures StampOf(ws, ws) == NO_STAMP
  {
    if ws != [] {
      NothingStamped(ws[..|ws| - 1]);
    }
  }
}
