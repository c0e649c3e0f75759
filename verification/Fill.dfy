/** The fill wrappers composed (runtime_config.go): the operator's spec around the metrics
    source, the built-in table around the spec. */
module Fill {
  import opened Prelude
  import opened Evidence
  import Spec
  import Peaks

  /** The host's settings: the spec, with the orders its map is ranged over in, and the
      table, if enabled. */
  datatype Config = Config(spec: Spec.DeviceSpec, orders: nat -> seq<string>, table: Peaks.Table, tableEnabled: bool)

  ghost predicate Valid(c: Config) {
    Spec.OrdersOf(c.orders, c.spec)
  }

  /** What the operator's spec says of the i-th window. */
  function SpecOf(c: Config, i: nat, w: DeviceWindow): Option<Spec.Entry> {
    Spec.Found(c.spec, c.orders(i), w.uuid, w.model)
  }

  function SpecPeak(e: Option<Spec.Entry>): Option<real> {
    if e.Some? && e.value.HasPeak() then Some(Spec.Flops(e.value.peakTflops)) else None
  }

  function SpecCost(e: Option<Spec.Entry>): Option<real> {
    if e.Some? && e.value.HasCost() then Some(e.value.costPerHour) else None
  }

  function TablePeak(c: Config, w: DeviceWindow): Option<real> {
    var e := Peaks.TablePeak(c.table, w);
    if c.tableEnabled && e.Some? then Some(Spec.Flops(e.value.tflops)) else None
  }

  function OrElse<T>(a: Option<T>, b: Option<T>): Option<T> {
    if a.Some? then a else b
  }

  /** The i-th window after both wrappers. */
  function FilledAt(c: Config, i: nat, w: DeviceWindow): DeviceWindow {
    var r := Spec.FillEntry(w, SpecOf(c, i, w));
    if c.tableEnabled then Peaks.FillFromTable(c.table, r) else r
  }

  /** r is w, where the peak is the measured one, else the spec's, else the table's, else
      unknown; the price the measured one, else the spec's, and never the table's; achieved
      work the measured one, else tensor time at the peak, when the peak was supplied. All
      else is as it was. */
  ghost predicate Precedence(w: DeviceWindow, e: Option<Spec.Entry>, table: Option<real>, r: DeviceWindow) {
    && PeakOf(r) == OrElse(PeakOf(w), OrElse(SpecPeak(e), table))
    && CostOf(r) == OrElse(CostOf(w), SpecCost(e))
    && AchievedOf(r) == OrElse(AchievedOf(w), Derived(w, r))
    && r == w.(peakFlops := r.peakFlops, peakKnown := r.peakKnown, costPerHour := r.costPerHour, costKnown := r.costKnown,
               achievedFlops := r.achievedFlops, achievedKnown := r.achievedKnown)
    && (!r.peakKnown ==> r.peakFlops == w.peakFlops)
    && (!r.costKnown ==> r.costPerHour == w.costPerHour)
    && (!r.achievedKnown ==> r.achievedFlops == w.achievedFlops)
  }

  /** Tensor time at the supplied peak. */
  function Derived(w: DeviceWindow, r: DeviceWindow): Option<real> {
    if w.tensorKnown && !w.peakKnown && r.peakKnown then Some(Spec.Work(w.tensorSecs, r.peakFlops)) else None
  }

  /** p is w with the peak the spec supplies, and the work that follows from it. */
  ghost predicate PeakPart(w: DeviceWindow, e: Option<Spec.Entry>, p: DeviceWindow) {
    && PeakOf(p) == OrElse(PeakOf(w), SpecPeak(e))
    && AchievedOf(p) == OrElse(AchievedOf(w), Derived(w, p))
    && p == w.(peakFlops := p.peakFlops, peakKnown := p.peakKnown,
               achievedFlops := p.achievedFlops, achievedKnown := p.achievedKnown)
    && (!p.peakKnown ==> p.peakFlops == w.peakFlops)
    && (!p.achievedKnown ==> p.achievedFlops == w.achievedFlops)
  }

  lemma PeakFirst(w: DeviceWindow, e: Spec.Entry)
    ensures PeakPart(w, Some(e), if e.HasPeak() then Spec.FillPeak(w, e.peakTflops) else w)
  {
  }

  lemma CostNext(w: DeviceWindow, e: Spec.Entry, p: DeviceWindow)
    requires PeakPart(w, Some(e), p)
    ensures Precedence(w, Some(e), None, if e.HasCost() then Spec.FillCost(p, e.costPerHour) else p)
  {
  }

  lemma SpecFillPrecedence(w: DeviceWindow, e: Option<Spec.Entry>)
    ensures Precedence(w, e, None, Spec.FillEntry(w, e))
  {
    if e.Some? {
      PeakFirst(w, e.value);
      CostNext(w, e.value, if e.value.HasPeak() then Spec.FillPeak(w, e.value.peakTflops) else w);
    }
  }

  lemma TableFillPrecedence(t: Peaks.Table, w: DeviceWindow)
    ensures var e := Peaks.TablePeak(t, w);
            Precedence(w, None, if e.Some? then Some(Spec.Flops(e.value.tflops)) else None, Peaks.FillFromTable(t, w))
  {
  }

  /** Filling from one source, then from another. */
  lemma PrecedenceComposes(w: DeviceWindow, e: Option<Spec.Entry>, m: DeviceWindow, table: Option<real>,
                           r: DeviceWindow)
    requires Precedence(w, e, None, m) && Precedence(m, None, table, r)
    ensures Precedence(w, e, table, r)
  {
  }

  /** The figures themselves: a positive peak of the spec, in teraflops, becomes the peak in
      flops, a positive price the price, and tensor seconds at the peak the achieved work. */
  lemma SuppliedFigures(w: DeviceWindow, e: Spec.Entry, table: Option<real>, r: DeviceWindow)
    requires Precedence(w, Some(e), table, r)
    ensures !w.peakKnown && e.peakTflops > 0.0 ==> r.peakKnown && r.peakFlops == e.peakTflops * 1000000000000.0
    ensures !w.costKnown && e.costPerHour > 0.0 ==> r.costKnown && r.costPerHour == e.costPerHour
    ensures !w.costKnown && e.costPerHour <= 0.0 ==> !r.costKnown
    ensures !w.peakKnown && r.peakKnown && w.tensorKnown && !w.achievedKnown
            ==> r.achievedKnown && r.achievedFlops == w.tensorSecs * r.peakFlops
  {
    assert PeakOf(r) == OrElse(PeakOf(w), OrElse(SpecPeak(Some(e)), table));
    assert CostOf(r) == OrElse(CostOf(w), SpecCost(Some(e)));
    assert AchievedOf(r) == OrElse(AchievedOf(w), Derived(w, r));
  }

  /** Where the spec gives no peak, the table's datasheet figure for the model does, if the
      table is in use and recognises the model. */
  lemma TableFigure(c: Config, w: DeviceWindow, e: Option<Spec.Entry>, r: DeviceWindow)
    requires Precedence(w, e, TablePeak(c, w), r)
    requires !w.peakKnown && (e.None? || e.value.peakTflops <= 0.0)
    ensures var entry := Peaks.ModelPeak(c.table, w.model);
            if c.tableEnabled && w.model != "" && entry.Some?
            then r.peakKnown && r.peakFlops == entry.value.tflops * 1000000000000.0
            else !r.peakKnown
  {
    assert PeakOf(r) == OrElse(PeakOf(w), OrElse(SpecPeak(e), TablePeak(c, w)));
  }

  lemma FilledByPrecedence(c: Config, i: nat, w: DeviceWindow)
    ensures Precedence(w, SpecOf(c, i, w), TablePeak(c, w), FilledAt(c, i, w))
  {
    var e := SpecOf(c, i, w);
    var m := Spec.FillEntry(w, e);
    SpecFillPrecedence(w, e);
    if c.tableEnabled {
      TableFillPrecedence(c.table, m);
      assert m.model == w.model;
      PrecedenceComposes(w, e, m, TablePeak(c, w), FilledAt(c, i, w));
    }
  }

  /** The description leaves no choice. */
  lemma PrecedenceIsExact(w: DeviceWindow, e: Option<Spec.Entry>, table: Option<real>, r1: DeviceWindow,
                          r2: DeviceWindow)
    requires Precedence(w, e, table, r1) && Precedence(w, e, table, r2)
    ensures r1 == r2
  {
  }

  /** Every window is filled in its place, by the precedence. */
  ghost predicate IsFill(c: Config, ws: seq<DeviceWindow>, rs: seq<DeviceWindow>) {
    && |rs| == |ws|
    && forall i :: 0 <= i < |ws| ==> Precedence(ws[i], SpecOf(c, i, ws[i]), TablePeak(c, ws[i]), rs[i])
  }

  method Collect(c: Config, ws: seq<DeviceWindow>) returns (rs: seq<DeviceWindow>)
    requires Valid(c)
    ensures IsFill(c, ws, rs)
  {
    var ms, specStamp := Spec.SpecFill(c.spec, c.orders, ws);
    var tableStamp, models;
    rs, tableStamp, models := Peaks.TableFill(c.table, c.tableEnabled, ms);
    forall i | 0 <= i < |ws| ensures Precedence(ws[i], SpecOf(c, i, ws[i]), TablePeak(c, ws[i]), rs[i]) {
      assert ms[i] == Spec.SpecFilledAt(c.spec, c.orders, ws, i);
      assert rs[i] == FilledAt(c, i, ws[i]);
      FilledByPrecedence(c, i, ws[i]);
    }
  }

  /** Utilisation computed from derived work is the tensor ratio itself: the supplied peak
      cancels out. */
  lemma DerivedUtilisationIsTensorRatio(w: DeviceWindow, e: Option<Spec.Entry>, table: Option<real>, r: DeviceWindow)
    requires Precedence(w, e, table, r)
    requires w.tensorKnown && !w.achievedKnown && !w.peakKnown && w.windowSeconds > 0.0
    requires r.peakKnown && r.peakFlops > 0.0
    ensures r.achievedKnown && Utilisation(r) == w.tensorSecs / w.windowSeconds
  {
    Cancel(w.tensorSecs, r.peakFlops, w.windowSeconds);
    assert AchievedOf(r) == Some(Spec.Work(w.tensorSecs, r.peakFlops));
  }

  /** Supplied peaks are positive, so the quotient exists, if the table's are. */
  lemma SuppliedPeaksArePositive(c: Config, w: DeviceWindow, e: Option<Spec.Entry>, r: DeviceWindow)
    requires Peaks.HasFamilies(c.table) && forall k :: k in c.table ==> c.table[k].tflops > 0.0
    requires Precedence(w, e, TablePeak(c, w), r) && !w.peakKnown && r.peakKnown
    ensures r.peakFlops > 0.0
  {
    Peaks.MatchesAreTheTables(c.table, w.model);
    assert PeakOf(r) == OrElse(SpecPeak(e), TablePeak(c, w));
  }

  function Utilisation(r: DeviceWindow): real
    requires r.peakFlops > 0.0 && r.windowSeconds > 0.0
  {
    Cancel(0.0, r.peakFlops, r.windowSeconds);
    r.achievedFlops / (r.peakFlops * r.windowSeconds)
  }

  lemma Cancel(t: real, p: real, s: real)
    requires p > 0.0 && s > 0.0
    ensures p * s != 0.0 && (t * p) / (p * s) == t / s
  {
    var q := t / s;
    assert t == q * s;
    assert t * p == q * (p * s) by { assert q * s * p == q * (s * p); }
    assert p * s > 0.0;
  }
}
