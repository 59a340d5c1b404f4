/** Progress of the deferred rebuild: from any reachable state the backfill ends, however it was interrupted. */
module FtsProgress {
  import opened Collections
  import opened FtsIndex
  import opened FtsProtocol

  /** Ids the backfill still has to cover. */
  function Remaining(s: Store): int {
    if s.markers.high.Some? && s.markers.progress.Some? then s.markers.high.value - s.markers.progress.value else 0
  }

  /** A chunk that claims a range, as opposed to one that finds the work done. */
  predicate Claims(sys: System, ev: Event) {
    && ev.Chunk?
    && PhaseOf(sys, ev.worker).HaveHigh?
    && sys.store.markers.progress.Some?
    && sys.store.markers.progress.value < PhaseOf(sys, ev.worker).high
  }

  function ClaimCount(sys: System, evs: seq<Event>, chunk: nat): nat
    requires chunk > 0
    decreases |evs|
  {
    if evs == [] then 0
    else (if Claims(sys, evs[0]) then 1 else 0) + ClaimCount(Apply(sys, evs[0], chunk), evs[1..], chunk)
  }

  lemma StepShrinksRemaining(sys: System, ev: Event, chunk: nat)
    requires SysInv(sys) && !sys.store.legacy && chunk > 0
    ensures var sys' := Apply(sys, ev, chunk);
            && !sys'.store.legacy
            && 0 <= Remaining(sys'.store)
            && Remaining(sys'.store) + (if Claims(sys, ev) then 1 else 0) <= Remaining(sys.store)
  {
    ApplyKeepsInv(sys, ev, chunk);
  }

  /** However the workers interleave and crash, after the demotion at most H - P chunks ever claim work. */
  lemma {:induction false} ClaimsAreBounded(sys: System, evs: seq<Event>, chunk: nat)
    requires SysInv(sys) && !sys.store.legacy && chunk > 0
    ensures ClaimCount(sys, evs, chunk) + Remaining(Run(sys, evs, chunk).store) <= Remaining(sys.store)
    ensures 0 <= Remaining(Run(sys, evs, chunk).store)
    decreases |evs|
  {
    if evs == [] {
    } else {
      StepShrinksRemaining(sys, evs[0], chunk);
      ApplyKeepsInv(sys, evs[0], chunk);
      ClaimsAreBounded(Apply(sys, evs[0], chunk), evs[1..], chunk);
    }
  }

  // ----- One caller left alone with the rebuild -----

  /** `fts_rebuild_step` without interference; the flag says whether the caller should call again. */
  function RebuildStep(s: Store, chunk: nat): (Store, bool)
    requires chunk > 0
  {
    if s.markers.high.None? then (s, false)
    else
      var (s', more) := ChunkTx(s, s.markers.high.value, chunk);
      if more then (s', true)
      else (if StatusDone(s') then FinishTx(s') else s', false)
  }

  /** The backfill loop: call again while the step asks for it. */
  function Backfill(s: Store, chunk: nat): Store
    requires chunk > 0
    decreases Remaining(s)
  {
    var (s', more) := RebuildStep(s, chunk);
    if more then Backfill(s', chunk) else s'
  }

  lemma RebuildStepKeepsInv(s: Store, chunk: nat)
    requires Inv(s) && chunk > 0
    ensures var (s', more) := RebuildStep(s, chunk);
            && Inv(s') && s'.rows == s.rows && s'.legacy == s.legacy && s'.triggersOn == s.triggersOn
            && s'.trash == s.trash && s'.nextId == s.nextId
            && (more ==> s'.markers.high == s.markers.high && Remaining(s') < Remaining(s))
            && (!more ==> s'.markers == if s.markers.high == Some(0) then s.markers else NO_MARKERS)
  {
    if s.markers.high.Some? {
      ChunkKeepsInv(s, s.markers.high.value, chunk);
      var (s', more) := ChunkTx(s, s.markers.high.value, chunk);
      if !more && StatusDone(s') {
        FinishKeepsInv(s');
      }
    }
  }

  lemma {:induction false} BackfillKeepsInv(s: Store, chunk: nat)
    requires Inv(s) && chunk > 0
    ensures var s' := Backfill(s, chunk);
            && Inv(s') && s'.rows == s.rows && s'.legacy == s.legacy && s'.triggersOn == s.triggersOn
            && s'.trash == s.trash && s'.nextId == s.nextId
            && s'.markers == if s.markers.high == Some(0) then s.markers else NO_MARKERS
    decreases Remaining(s)
  {
    RebuildStepKeepsInv(s, chunk);
    var (s', more) := RebuildStep(s, chunk);
    if more {
      BackfillKeepsInv(s', chunk);
    }
  }

  /** The end state: both indexes equal a one-shot full rebuild of the rows, message text untouched. */
  lemma BackfillIsFullRebuild(s: Store, chunk: nat)
    requires Inv(s) && !s.legacy && s.triggersOn && chunk > 0
    ensures var s' := Backfill(s, chunk);
            && s'.rows == s.rows
            && s'.base == FullIndex(Base, s.rows)
            && s'.trigram == FullIndex(Trigram, s.rows)
            && (s'.markers == NO_MARKERS <==> s.markers.high != Some(0))
  {
    BackfillKeepsInv(s, chunk);
    var s' := Backfill(s, chunk);
    NoGapCoversAll(s');
    ExactIsFull(Base, s'.base, s'.rows, s'.markers);
    ExactIsFull(Trigram, s'.trigram, s'.rows, s'.markers);
  }

  /** Crash convergence: cut the work off after any events at all, restart with any chunk size, and the backfill
      still ends in the one-shot rebuild of whatever rows are then stored. Only a demotion that found no messages
      (H = 0) leaves its markers behind. */
  lemma InterruptedBackfillConverges(sys: System, evs: seq<Event>, chunk: nat, restart: nat)
    requires Init(sys) && chunk > 0 && restart > 0
    ensures var s := Run(sys, evs, chunk).store;
            var done := Backfill(OpenStore(s), restart);
            s.legacy || (&& done.rows == s.rows
                         && done.base == FullIndex(Base, s.rows)
                         && done.trigram == FullIndex(Trigram, s.rows)
                         && (done.markers == NO_MARKERS <==> OpenStore(s).markers.high != Some(0)))
  {
    RunsStayExact(sys, evs, chunk);
    var s := Run(sys, evs, chunk).store;
    if !s.legacy {
      RebuildIndexesRestores(s);
      BackfillIsFullRebuild(OpenStore(s), restart);
    }
  }

  /** The markers of an empty database never leave: every step is a no-op and the optimization stays on offer. */
  lemma EmptyDemotionNeverSettles(s: Store, shadows: seq<nat>, chunk: nat)
    requires Inv(s) && s.legacy && s.rows == map[] && chunk > 0
    ensures var d := DemoteTx(s, shadows);
            && d.markers == Markers(Some(0), Some(0))
            && Backfill(d, chunk) == d
            && OptimizeAvailable(Backfill(d, chunk))
  {
    var d := DemoteTx(s, shadows);
    assert s.rows.Keys == {};
    assert RebuildStep(d, chunk) == (d, false);
  }
}
