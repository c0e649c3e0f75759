/** runInvestigateLoop (cmd/agent/main.go): a ticking loop that starts at most one
    investigation at a time, interleaved with the daemon's publishes and with the
    completion of the investigation under way. */
module SingleFlight {
  import opened Prelude

  /** Where the loop is: at its select, holding a snapshot with a given refresh number,
      or holding the slot before the goroutine is spawned. */
  datatype LoopPc = AtSelect | Snapped(refreshes: nat) | Acquired(refreshes: nat)

  /** published is the daemon's live refresh number (0 before the first publish), running
      the refresh numbers of the live goroutines, started those of all ever spawned. */
  datatype Loop = Loop(published: nat, lastRefreshes: nat, slotFull: bool, pc: LoopPc,
                       running: multiset<nat>, started: seq<nat>)

  const INITIAL: Loop := Loop(0, 0, false, AtSelect, multiset{}, [])

  datatype Event =
    | Publish                   // the daemon publishes a window
    | TickRead                  // a tick: read the daemon's snapshot
    | TickDecide                // compare with the last one and try the slot
    | Spawn                     // record the window and start its goroutine
    | Complete(refreshes: nat)  // a goroutine ends and drains the slot

  predicate Enabled(s: Loop, e: Event) {
    match e
    case Publish => true
    case TickRead => s.pc.AtSelect?
    case TickDecide => s.pc.Snapped?
    case Spawn => s.pc.Acquired?
    case Complete(r) => r in s.running
  }

  function Step(s: Loop, e: Event): Loop
    requires Enabled(s, e)
  {
    match e
    case Publish => s.(published := s.published + 1)
    case TickRead => if s.published == 0 then s else s.(pc := Snapped(s.published))
    case TickDecide =>
      if s.pc.refreshes == s.lastRefreshes || s.slotFull then s.(pc := AtSelect)
      else s.(pc := Acquired(s.pc.refreshes), slotFull := true)
    case Spawn =>
      s.(pc := AtSelect, lastRefreshes := s.pc.refreshes,
         running := s.running + multiset{s.pc.refreshes}, started := s.started + [s.pc.refreshes])
    case Complete(r) => s.(running := s.running - multiset{r}, slotFull := false)
  }

  ghost predicate Ascending(xs: seq<nat>) {
    forall i, j :: 0 <= i < j < |xs| ==> xs[i] < xs[j]
  }

  /** The slot is full iff exactly one investigation runs or is about to; the windows
      investigated rise, and the last of them is what the loop remembers. */
  ghost predicate Inv(s: Loop) {
    && |s.running| + (if s.pc.Acquired? then 1 else 0) == (if s.slotFull then 1 else 0)
    && Ascending(s.started)
    && s.lastRefreshes == (if s.started == [] then 0 else s.started[|s.started| - 1])
    && s.lastRefreshes <= s.published
    && (s.started != [] ==> s.started[0] > 0)
    && (!s.pc.AtSelect? ==> s.lastRefreshes <= s.pc.refreshes <= s.published && s.pc.refreshes > 0)
    && (s.pc.Acquired? ==> s.lastRefreshes < s.pc.refreshes)
    && (forall r :: r in s.running ==> r == s.lastRefreshes && s.started != [])
  }

  lemma TickKeepsInv(s: Loop)
    requires Inv(s) && s.pc.Snapped?
    ensures Inv(Step(s, TickDecide))
  {
  }

  lemma SpawnKeepsInv(s: Loop)
    requires Inv(s) && s.pc.Acquired?
    ensures Inv(Step(s, Spawn))
  {
    assert |s.running| == 0;
    assert forall i :: 0 <= i < |s.started| ==> s.started[i] <= s.lastRefreshes;
  }

  lemma CompleteKeepsInv(s: Loop, r: nat)
    requires Inv(s) && r in s.running
    ensures Inv(Step(s, Complete(r)))
  {
    assert s.running == (s.running - multiset{r}) + multiset{r};
    assert |Step(s, Complete(r)).running| == 0;
  }

  lemma StepKeepsInv(s: Loop, e: Event)
    requires Inv(s) && Enabled(s, e)
    ensures Inv(Step(s, e))
  {
    match e {
      case TickDecide => TickKeepsInv(s);
      case Spawn => SpawnKeepsInv(s);
      case Complete(r) => CompleteKeepsInv(s, r);
      case _ =>
    }
  }

  /** The state after a list of events, if each was enabled when it occurred. */
  function After(events: seq<Event>): Option<Loop> {
    if events == [] then Some(INITIAL)
    else
      var n := |events| - 1;
      match After(events[..n])
      case None => None
      case Some(s) => if Enabled(s, events[n]) then Some(Step(s, events[n])) else None
  }

  /** Single flight, in every interleaving: never two investigations at once, the slot
      is held exactly while one is running or being started, each window is investigated
      at most once, in order, and only after it was published. */
  lemma {:induction false} SingleFlightAlways(events: seq<Event>)
    requires After(events).Some?
    ensures var s := After(events).value;
            && Inv(s)
            && |s.running| <= 1 && (s.slotFull <==> |s.running| == 1 || s.pc.Acquired?)
            && forall i :: 0 <= i < |s.started| ==> 1 <= s.started[i] <= s.published
  {
    if events != [] {
      var n := |events| - 1;
      SingleFlightAlways(events[..n]);
      StepKeepsInv(After(events[..n]).value, events[n]);
    }
    StartedWithinPublished(After(events).value);
  }

  lemma StartedWithinPublished(s: Loop)
    requires Inv(s)
    ensures forall i :: 0 <= i < |s.started| ==> 1 <= s.started[i] <= s.published
  {
    forall i | 0 <= i < |s.started| ensures 1 <= s.started[i] <= s.published {
      assert s.started[0] <= s.started[i] <= s.started[|s.started| - 1];
    }
  }

  /** What one tick decides: a window that is not newer, or a busy slot, leaves the
      loop's memory alone so the newest window is retried; otherwise the window read at
      the tick is the one investigated next. */
  lemma TickOutcome(s: Loop)
    requires Inv(s) && s.pc.Snapped?
    ensures var t := Step(s, TickDecide);
            if s.pc.refreshes > s.lastRefreshes && |s.running| == 0
            then && t.pc == Acquired(s.pc.refreshes)
                 && Step(t, Spawn).started == s.started + [s.pc.refreshes]
                 && Step(t, Spawn).running == multiset{s.pc.refreshes}
            else t == s.(pc := AtSelect)
  {
    assert |s.running| == 0 ==> s.running == multiset{};
  }

  /** Retry: a tick skipped because an investigation was running starts the then-newest
      window once that investigation has ended. */
  lemma SkippedWindowIsRetried(s: Loop, r: nat)
    requires Inv(s) && s.pc.Snapped? && s.slotFull && r in s.running && s.published > s.lastRefreshes
    ensures var skipped := Step(s, TickDecide);
            var drained := Step(skipped, Complete(r));
            var again := Step(Step(drained, TickRead), TickDecide);
            && skipped.lastRefreshes == s.lastRefreshes
            && Step(again, Spawn).started == s.started + [s.published]
  {
    StepKeepsInv(s, TickDecide);
  }
}
