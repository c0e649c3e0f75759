/** mergeDeviceWindow (normalize.go): folding one source's readings of a device
    into what earlier sources supplied. */
module Merge {
  import opened Prelude
  import opened Evidence

  /** dst after src is folded in. */
  function Merged(dst: DeviceWindow, src: DeviceWindow): DeviceWindow {
    DeviceWindow(
      dst.uuid,
      if src.node != "" then src.node else dst.node,
      if src.model != "" then src.model else dst.model,
      if src.windowSeconds > 0.0 then src.windowSeconds else dst.windowSeconds,
      if dst.achievedKnown || !src.achievedKnown then dst.achievedFlops else src.achievedFlops,
      dst.achievedKnown || src.achievedKnown,
      if dst.tensorKnown || !src.tensorKnown then dst.tensorSecs else src.tensorSecs,
      dst.tensorKnown || src.tensorKnown,
      if dst.peakKnown || !src.peakKnown then dst.peakFlops else src.peakFlops,
      dst.peakKnown || src.peakKnown,
      if dst.costKnown || !src.costKnown then dst.costPerHour else src.costPerHour,
      dst.costKnown || src.costKnown,
      if dst.eccKnown || !src.eccKnown then dst.eccErrs else src.eccErrs,
      dst.eccKnown || src.eccKnown,
      if dst.linkKnown || !src.linkKnown then dst.linkErrs else src.linkErrs,
      dst.linkKnown || src.linkKnown)
  }

  /** One device's accumulator, updated through its pointer. */
  class MergedDevice {
    const uuid: string
    var node: string
    var model: string
    var windowSeconds: real
    var achievedFlops: real
    var achievedKnown: bool
    var tensorSecs: real
    var tensorKnown: bool
    var peakFlops: real
    var peakKnown: bool
    var costPerHour: real
    var costKnown: bool
    var eccErrs: nat
    var eccKnown: bool
    var linkErrs: nat
    var linkKnown: bool

    function Window(): DeviceWindow
      reads this
    {
      DeviceWindow(uuid, node, model, windowSeconds, achievedFlops, achievedKnown, tensorSecs, tensorKnown,
                   peakFlops, peakKnown, costPerHour, costKnown, eccErrs, eccKnown, linkErrs, linkKnown)
    }

    constructor (uuid: string)
      ensures this.uuid == uuid && Window() == Blank(uuid)
    {
      this.uuid := uuid;
      node, model, windowSeconds := "", "", 0.0;
      achievedFlops, achievedKnown, tensorSecs, tensorKnown := 0.0, false, 0.0, false;
      peakFlops, peakKnown, costPerHour, costKnown := 0.0, false, 0.0, false;
      eccErrs, eccKnown, linkErrs, linkKnown := 0, false, 0, false;
    }

    method MergeDeviceWindow(src: DeviceWindow)
      modifies this
      ensures Window() == Merged(old(Window()), src)
    {
      MergeIdentity(src);
      MergeEfficiency(src);
      MergePriceAndCounters(src);
    }

    method MergeIdentity(src: DeviceWindow)
      modifies `node, `model, `windowSeconds
      ensures node == if src.node != "" then src.node else old(node)
      ensures model == if src.model != "" then src.model else old(model)
      ensures windowSeconds == if src.windowSeconds > 0.0 then src.windowSeconds else old(windowSeconds)
    {
      if src.node != "" {
        node := src.node;
      }
      if src.model != "" {
        model := src.model;
      }
      if src.windowSeconds > 0.0 {
        windowSeconds := src.windowSeconds;
      }
    }

    method MergeEfficiency(src: DeviceWindow)
      modifies `achievedFlops, `achievedKnown, `tensorSecs, `tensorKnown, `peakFlops, `peakKnown
      ensures achievedFlops == (if old(achievedKnown) || !src.achievedKnown then old(achievedFlops) else src.achievedFlops)
      ensures achievedKnown == (old(achievedKnown) || src.achievedKnown)
      ensures tensorSecs == (if old(tensorKnown) || !src.tensorKnown then old(tensorSecs) else src.tensorSecs)
      ensures tensorKnown == (old(tensorKnown) || src.tensorKnown)
      ensures peakFlops == (if old(peakKnown) || !src.peakKnown then old(peakFlops) else src.peakFlops)
      ensures peakKnown == (old(peakKnown) || src.peakKnown)
    {
      if src.achievedKnown && !achievedKnown {
        achievedFlops, achievedKnown := src.achievedFlops, true;
      }
      if src.tensorKnown && !tensorKnown {
        tensorSecs, tensorKnown := src.tensorSecs, true;
      }
      if src.peakKnown && !peakKnown {
        peakFlops, peakKnown := src.peakFlops, true;
      }
    }

    method MergePriceAndCounters(src: DeviceWindow)
      modifies `costPerHour, `costKnown, `eccErrs, `eccKnown, `linkErrs, `linkKnown
      ensures costPerHour == (if old(costKnown) || !src.costKnown then old(costPerHour) else src.costPerHour)
      ensures costKnown == (old(costKnown) || src.costKnown)
      ensures eccErrs == (if old(eccKnown) || !src.eccKnown then old(eccErrs) else src.eccErrs)
      ensures eccKnown == (old(eccKnown) || src.eccKnown)
      ensures linkErrs == (if old(linkKnown) || !src.linkKnown then old(linkErrs) else src.linkErrs)
      ensures linkKnown == (old(linkKnown) || src.linkKnown)
    {
      if src.costKnown && !costKnown {
        costPerHour, costKnown := src.costPerHour, true;
      }
      if src.eccKnown && !eccKnown {
        eccErrs, eccKnown := src.eccErrs, true;
      }
      if src.linkKnown && !linkKnown {
        linkErrs, linkKnown := src.linkErrs, true;
      }
    }
  }

  /** The accumulator after a list of readings, oldest first. */
  function Fold(start: DeviceWindow, ws: seq<DeviceWindow>): DeviceWindow {
    if ws == [] then start else Merged(Fold(start, ws[..|ws| - 1]), ws[|ws| - 1])
  }

  lemma FoldStep(start: DeviceWindow, ws: seq<DeviceWindow>, w: DeviceWindow)
    ensures Fold(start, ws + [w]) == Merged(Fold(start, ws), w)
  {
    assert (ws + [w])[..|ws|] == ws;
  }

  // ---- what the fold means, stated without it

  ghost predicate NoneBefore<T(!new)>(ws: seq<DeviceWindow>, read: DeviceWindow -> Option<T>, i: int) {
    forall j :: 0 <= j < i && j < |ws| ==> read(ws[j]).None?
  }

  ghost predicate NoneAfter<T(!new)>(ws: seq<DeviceWindow>, read: DeviceWindow -> Option<T>, i: int) {
    forall j :: 0 <= j && i < j < |ws| ==> read(ws[j]).None?
  }

  /** r is the first reading of the field that any window knows. */
  ghost predicate FirstKnown<T(!new)>(ws: seq<DeviceWindow>, read: DeviceWindow -> Option<T>, r: Option<T>) {
    if r.None? then NoneBefore(ws, read, |ws|)
    else exists i {:trigger NoneBefore(ws, read, i)} :: 0 <= i < |ws| && read(ws[i]) == r && NoneBefore(ws, read, i)
  }

  /** r is the last reading of the field that any window carries. */
  ghost predicate LastKnown<T(!new)>(ws: seq<DeviceWindow>, read: DeviceWindow -> Option<T>, r: Option<T>) {
    if r.None? then NoneAfter(ws, read, -1)
    else exists i {:trigger NoneAfter(ws, read, i)} :: 0 <= i < |ws| && read(ws[i]) == r && NoneAfter(ws, read, i)
  }

  lemma FirstKnownSnoc<T(!new)>(ws: seq<DeviceWindow>, w: DeviceWindow, read: DeviceWindow -> Option<T>, r: Option<T>)
    requires FirstKnown(ws, read, r)
    ensures FirstKnown(ws + [w], read, if r.Some? then r else read(w))
  {
    var all := ws + [w];
    if r.Some? {
      var i :| 0 <= i < |ws| && read(ws[i]) == r && NoneBefore(ws, read, i);
      assert read(all[i]) == r && NoneBefore(all, read, i);
    } else {
      assert all[|ws|] == w && NoneBefore(all, read, |ws|);
    }
  }

  lemma LastKnownSnoc<T(!new)>(ws: seq<DeviceWindow>, w: DeviceWindow, read: DeviceWindow -> Option<T>, r: Option<T>)
    requires LastKnown(ws, read, r)
    ensures LastKnown(ws + [w], read, if read(w).Some? then read(w) else r)
  {
    var all := ws + [w];
    assert all[|ws|] == w && NoneAfter(all, read, |ws|);
    if read(w).None? && r.Some? {
      var i :| 0 <= i < |ws| && read(ws[i]) == r && NoneAfter(ws, read, i);
      assert read(all[i]) == r && NoneAfter(all, read, i);
    }
  }

  /** Every flagged field of the merged device is the first known reading of it, in
      observation order; node, model and window length are the last one supplied. */
  ghost predicate IsMergeOf(ws: seq<DeviceWindow>, m: DeviceWindow) {
    && FirstKnown(ws, AchievedOf, AchievedOf(m))
    && FirstKnown(ws, TensorOf, TensorOf(m))
    && FirstKnown(ws, PeakOf, PeakOf(m))
    && FirstKnown(ws, CostOf, CostOf(m))
    && FirstKnown(ws, EccOf, EccOf(m))
    && FirstKnown(ws, LinkOf, LinkOf(m))
    && LastKnown(ws, NodeOf, NodeOf(m))
    && LastKnown(ws, ModelOf, ModelOf(m))
    && LastKnown(ws, SpanOf, SpanOf(m))
  }

  /** A field nobody knew keeps its zero value: no value is invented. */
  predicate UnknownIsZero(m: DeviceWindow) {
    && (!m.achievedKnown ==> m.achievedFlops == 0.0)
    && (!m.tensorKnown ==> m.tensorSecs == 0.0)
    && (!m.peakKnown ==> m.peakFlops == 0.0)
    && (!m.costKnown ==> m.costPerHour == 0.0)
    && (!m.eccKnown ==> m.eccErrs == 0)
    && (!m.linkKnown ==> m.linkErrs == 0)
    && (m.windowSeconds <= 0.0 ==> m.windowSeconds == 0.0)
  }

  lemma {:induction false} FoldKeepsFirst<T(!new)>(uuid: string, ws: seq<DeviceWindow>, read: DeviceWindow -> Option<T>)
    requires read(Blank(uuid)).None?
    requires forall a, b :: read(Merged(a, b)) == if read(a).Some? then read(a) else read(b)
    ensures FirstKnown(ws, read, read(Fold(Blank(uuid), ws)))
  {
    if ws != [] {
      var n := |ws| - 1;
      FoldKeepsFirst(uuid, ws[..n], read);
      FirstKnownSnoc(ws[..n], ws[n], read, read(Fold(Blank(uuid), ws[..n])));
      assert ws == ws[..n] + [ws[n]];
    }
  }

  lemma {:induction false} FoldKeepsLast<T(!new)>(uuid: string, ws: seq<DeviceWindow>, read: DeviceWindow -> Option<T>)
    requires read(Blank(uuid)).None?
    requires forall a, b :: read(Merged(a, b)) == if read(b).Some? then read(b) else read(a)
    ensures LastKnown(ws, read, read(Fold(Blank(uuid), ws)))
  {
    if ws != [] {
      var n := |ws| - 1;
      FoldKeepsLast(uuid, ws[..n], read);
      LastKnownSnoc(ws[..n], ws[n], read, read(Fold(Blank(uuid), ws[..n])));
      assert ws == ws[..n] + [ws[n]];
    }
  }

  lemma {:induction false} FoldInventsNothing(uuid: string, ws: seq<DeviceWindow>)
    ensures var m := Fold(Blank(uuid), ws); m.uuid == uuid && UnknownIsZero(m)
  {
    if ws != [] {
      FoldInventsNothing(uuid, ws[..|ws| - 1]);
    }
  }

  lemma FoldRefinesFirstAndLast(uuid: string, ws: seq<DeviceWindow>)
    ensures var m := Fold(Blank(uuid), ws);
            m.uuid == uuid && IsMergeOf(ws, m) && UnknownIsZero(m)
  {
    FoldInventsNothing(uuid, ws);
    FoldIsMerge(uuid, ws);
  }

  lemma FoldIsMerge(uuid: string, ws: seq<DeviceWindow>)
    ensures IsMergeOf(ws, Fold(Blank(uuid), ws))
  {
    var m := Fold(Blank(uuid), ws);
    FoldFirstFields(uuid, ws);
    assert LastKnown(ws, NodeOf, NodeOf(m)) by { FoldKeepsLast(uuid, ws, NodeOf); }
    assert LastKnown(ws, ModelOf, ModelOf(m)) by { FoldKeepsLast(uuid, ws, ModelOf); }
    assert LastKnown(ws, SpanOf, SpanOf(m)) by { FoldKeepsLast(uuid, ws, SpanOf); }
  }

  lemma FoldFirstFields(uuid: string, ws: seq<DeviceWindow>)
    ensures var m := Fold(Blank(uuid), ws);
            && FirstKnown(ws, AchievedOf, AchievedOf(m)) && FirstKnown(ws, TensorOf, TensorOf(m))
            && FirstKnown(ws, PeakOf, PeakOf(m)) && FirstKnown(ws, CostOf, CostOf(m))
            && FirstKnown(ws, EccOf, EccOf(m)) && FirstKnown(ws, LinkOf, LinkOf(m))
  {
    var m := Fold(Blank(uuid), ws);
    assert FirstKnown(ws, AchievedOf, AchievedOf(m)) by { FoldKeepsFirst(uuid, ws, AchievedOf); }
    assert FirstKnown(ws, TensorOf, TensorOf(m)) by { FoldKeepsFirst(uuid, ws, TensorOf); }
    assert FirstKnown(ws, PeakOf, PeakOf(m)) by { FoldKeepsFirst(uuid, ws, PeakOf); }
    assert FirstKnown(ws, CostOf, CostOf(m)) by { FoldKeepsFirst(uuid, ws, CostOf); }
    assert FirstKnown(ws, EccOf, EccOf(m)) by { FoldKeepsFirst(uuid, ws, EccOf); }
    assert FirstKnown(ws, LinkOf, LinkOf(m)) by { FoldKeepsFirst(uuid, ws, LinkOf); }
  }

  /** The description pins the merge down: two windows that satisfy it are equal. */
  lemma MergeDescriptionIsExact(ws: seq<DeviceWindow>, m1: DeviceWindow, m2: DeviceWindow)
    requires IsMergeOf(ws, m1) && UnknownIsZero(m1)
    requires IsMergeOf(ws, m2) && UnknownIsZero(m2)
    requires m1.uuid == m2.uuid
    ensures m1 == m2
  {
    FirstKnownUnique(ws, AchievedOf, AchievedOf(m1), AchievedOf(m2));
    FirstKnownUnique(ws, TensorOf, TensorOf(m1), TensorOf(m2));
    FirstKnownUnique(ws, PeakOf, PeakOf(m1), PeakOf(m2));
    FirstKnownUnique(ws, CostOf, CostOf(m1), CostOf(m2));
    FirstKnownUnique(ws, EccOf, EccOf(m1), EccOf(m2));
    FirstKnownUnique(ws, LinkOf, LinkOf(m1), LinkOf(m2));
    LastKnownUnique(ws, NodeOf, NodeOf(m1), NodeOf(m2));
    LastKnownUnique(ws, ModelOf, ModelOf(m1), ModelOf(m2));
    LastKnownUnique(ws, SpanOf, SpanOf(m1), SpanOf(m2));
  }

  lemma FirstKnownUnique<T(!new)>(ws: seq<DeviceWindow>, read: DeviceWindow -> Option<T>, r1: Option<T>, r2: Option<T>)
    requires FirstKnown(ws, read, r1) && FirstKnown(ws, read, r2)
    ensures r1 == r2
  {
    if r1.Some? && r2.Some? {
      var i :| 0 <= i < |ws| && read(ws[i]) == r1 && NoneBefore(ws, read, i);
      var k :| 0 <= k < |ws| && read(ws[k]) == r2 && NoneBefore(ws, read, k);
      assert !(i < k) && !(k < i);
    }
  }

  lemma LastKnownUnique<T(!new)>(ws: seq<DeviceWindow>, read: DeviceWindow -> Option<T>, r1: Option<T>, r2: Option<T>)
    requires LastKnown(ws, read, r1) && LastKnown(ws, read, r2)
    ensures r1 == r2
  {
    if r1.Some? && r2.Some? {
      var i :| 0 <= i < |ws| && read(ws[i]) == r1 && NoneAfter(ws, read, i);
      var k :| 0 <= k < |ws| && read(ws[k]) == r2 && NoneAfter(ws, read, k);
      assert !(i < k) && !(k < i);
    }
  }

  /** Merging is associative and idempotent, so readings may be pre-merged
      (as the metrics chain does) without changing the outcome. */
  lemma MergeAlgebra(a: DeviceWindow, b: DeviceWindow, c: DeviceWindow)
    ensures Merged(Merged(a, b), c) == Merged(a, Merged(b, c))
    ensures Merged(a, a) == a
    ensures Merged(Merged(a, b), b) == Merged(a, b)
  {
  }

  lemma {:induction false} FoldOfPremerged(start: DeviceWindow, w: DeviceWindow, ws: seq<DeviceWindow>)
    ensures Fold(start, [w] + ws) == Merged(start, Fold(w, ws))
  {
    if ws == [] {
      assert [w] + ws == [w] && [w][..0] == [];
    } else {
      var n := |ws| - 1;
      assert ([w] + ws)[..n + 1] == [w] + ws[..n];
      FoldOfPremerged(start, w, ws[..n]);
      MergeAlgebra(start, Fold(w, ws[..n]), ws[n]);
    }
  }
}
