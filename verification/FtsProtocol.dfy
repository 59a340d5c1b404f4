/** Live message writes, any number of backfill workers, crashes, the finishing sweep, degraded runtimes and
    the one-time demotion of a legacy layout, as one state machine whose events are single transactions. */
module FtsProtocol {
  import opened Collections
  import opened FtsIndex

  datatype Store = Store(
    rows: map<int, Row>,
    nextId: int,
    legacy: bool,
    triggersOn: bool,
    markers: Markers,
    base: Index,
    trigram: Index,
    trash: seq<nat>)

  // ----- Message writes, with the triggers they fire -----

  function InsertMessage(s: Store, row: Row): Store {
    var s' := s.(rows := s.rows[s.nextId := row], nextId := s.nextId + 1);
    if s.legacy || !s.triggersOn then s'
    else s'.(base := AfterInsert(Base, s.markers, s.base, s.nextId, row),
             trigram := AfterInsert(Trigram, s.markers, s.trigram, s.nextId, row))
  }

  function DeleteMessage(s: Store, id: int): Store {
    if id !in s.rows then s
    else
      var s' := s.(rows := s.rows - {id});
      if s.legacy || !s.triggersOn then s'
      else s'.(base := AfterDelete(Base, s.markers, s.base, id, s.rows[id]),
               trigram := AfterDelete(Trigram, s.markers, s.trigram, id, s.rows[id]))
  }

  function UpdateMessage(s: Store, id: int, row: Row): Store {
    if id !in s.rows then s
    else
      var s' := s.(rows := s.rows[id := row]);
      if s.legacy || !s.triggersOn then s'
      else s'.(base := AfterUpdate(Base, s.markers, s.base, id, s.rows[id], row),
               trigram := AfterUpdate(Trigram, s.markers, s.trigram, id, s.rows[id], row))
  }

  // ----- Maintenance transactions -----

  /** The write transaction of one backfill step; `high` is what the worker read before it began. */
  function ChunkTx(s: Store, high: int, chunk: int): (r: (Store, bool)) {
    if s.markers.progress.None? then (s, false)
    else
      var progress := s.markers.progress.value;
      if progress >= high then (s, false)
      else
        var upper := Min(progress + chunk, high);
        (s.(markers := s.markers.(progress := Some(upper)),
            base := BulkPut(s.base, RangeEntries(Base, s.rows, progress, upper)),
            trigram := BulkPut(s.trigram, RangeEntries(Trigram, s.rows, progress, upper))),
         upper < high)
  }

  /** Half-width of the id window the finishing sweep scans. */
  const SWEEP := 1000

  /** The boundary sweep of one index: add what the window around the high water lacks. */
  function Sweep(kind: Kind, ix: Index, rows: map<int, Row>, high: int): Index {
    BulkPut(ix, MissingEntries(kind, ix, rows, high - SWEEP, high + SWEEP))
  }

  function FinishTx(s: Store): Store {
    if s.markers.high.None? then s.(markers := NO_MARKERS)
    else
      s.(base := Sweep(Base, s.base, s.rows, s.markers.high.value),
         trigram := Sweep(Trigram, s.trigram, s.rows, s.markers.high.value),
         markers := NO_MARKERS)
  }

  /** (indexed, total), or nothing when no rebuild is pending; a high water of 0 also reads as nothing. */
  function Status(s: Store): Option<(int, int)> {
    if s.markers.high.None? || s.markers.high.value <= 0 then None
    else Some((if s.markers.progress.Some? then s.markers.progress.value else 0, s.markers.high.value))
  }

  function StatusDone(s: Store): bool {
    var status := Status(s);
    status.Some? && status.value.0 >= status.value.1
  }

  lemma {:induction false} MaxExists(ids: set<int>)
    requires ids != {}
    ensures exists i :: i in ids && forall j | j in ids :: j <= i
    decreases |ids|
  {
    var i := MemberOf(ids);
    var rest := ids - {i};
    if rest == {} {
      assert ids == {i};
    } else {
      MaxExists(rest);
      var m :| m in rest && forall j | j in rest :: j <= m;
      var top := if i <= m then m else i;
      assert top in ids;
      forall j | j in ids
        ensures j <= top
      {
        assert j == i || j in rest;
      }
    }
  }

  /** `COALESCE(MAX(id), 0)` */
  function MaxId(ids: set<int>): (m: int)
    ensures ids == {} ==> m == 0
    ensures ids != {} ==> m in ids
    ensures forall i | i in ids :: i <= m
  {
    if ids == {} then 0
    else
      MaxExists(ids);
      var i :| i in ids && forall j | j in ids :: j <= i;
      i
  }

  function DemoteTx(s: Store, shadows: seq<nat>): Store {
    s.(legacy := false, triggersOn := true, trash := shadows + s.trash,
       base := EMPTY_INDEX, trigram := EMPTY_INDEX,
       markers := Markers(Some(MaxId(s.rows.Keys)), Some(0)))
  }

  /** One chunk of the teardown of the first demoted shadow table; the flag says to call again. */
  function TeardownTx(s: Store, chunk: nat): (Store, bool) {
    if s.trash == [] then (s, false)
    else if s.trash[0] == 0 then (s.(trash := s.trash[1..]), true)
    else (s.(trash := s.trash[0 := s.trash[0] - Min(chunk, s.trash[0])]), true)
  }

  /** `_rebuild_fts_indexes`: rewrite both indexes and clear the markers. */
  function RebuildIndexes(s: Store): Store {
    s.(base := FullIndex(Base, s.rows), trigram := FullIndex(Trigram, s.rows), markers := NO_MARKERS)
  }

  /** `rebuild_fts`: rewrite both indexes and leave the markers as they are. */
  function RebuildFts(s: Store): Store {
    s.(base := FullIndex(Base, s.rows), trigram := FullIndex(Trigram, s.rows))
  }

  /** Opening the database repairs triggers a runtime without FTS5 dropped. */
  function OpenStore(s: Store): Store {
    var repaired := if s.legacy || s.triggersOn then s else RebuildIndexes(s);
    repaired.(triggersOn := true)
  }

  function OptimizeAvailable(s: Store): bool {
    s.legacy || s.markers.high.Some? || s.trash != []
  }

  // ----- Invariant of the stored state -----

  ghost predicate WellFormed(s: Store) {
    && s.nextId >= 1
    && (forall id | id in s.rows :: 1 <= id < s.nextId)
    && (s.markers.high.Some? <==> s.markers.progress.Some?)
    && (s.markers.high.Some? ==>
          !s.legacy && 0 <= s.markers.progress.value <= s.markers.high.value < s.nextId)
  }

  ghost predicate BothExact(s: Store) {
    Exact(Base, s.base, s.rows, s.markers) && Exact(Trigram, s.trigram, s.rows, s.markers)
  }

  ghost predicate Inv(s: Store) {
    WellFormed(s) && (!s.legacy && s.triggersOn ==> BothExact(s))
  }

  lemma InsertKeepsInv(s: Store, row: Row)
    requires Inv(s)
    ensures Inv(InsertMessage(s, row))
  {
    if !s.legacy && s.triggersOn {
      InsertKeepsExact(Base, s.base, s.rows, s.markers, s.nextId, row);
      InsertKeepsExact(Trigram, s.trigram, s.rows, s.markers, s.nextId, row);
    }
  }

  lemma DeleteKeepsInv(s: Store, id: int)
    requires Inv(s)
    ensures Inv(DeleteMessage(s, id))
  {
    if id in s.rows && !s.legacy && s.triggersOn {
      DeleteKeepsExact(Base, s.base, s.rows, s.markers, id);
      DeleteKeepsExact(Trigram, s.trigram, s.rows, s.markers, id);
    }
  }

  lemma UpdateKeepsInv(s: Store, id: int, row: Row)
    requires Inv(s)
    ensures Inv(UpdateMessage(s, id, row))
  {
    if id in s.rows && !s.legacy && s.triggersOn {
      UpdateKeepsExact(Base, s.base, s.rows, s.markers, id, row);
      UpdateKeepsExact(Trigram, s.trigram, s.rows, s.markers, id, row);
    }
  }

  /** A worker may hold a high water that was read earlier; one that is too low does no harm. */
  lemma ChunkKeepsInv(s: Store, high: int, chunk: int)
    requires Inv(s) && chunk > 0
    requires s.markers.high.Some? ==> high <= s.markers.high.value
    ensures Inv(ChunkTx(s, high, chunk).0)
  {
    if s.markers.progress.Some? && s.markers.progress.value < high && s.triggersOn {
      var progress, stored := s.markers.progress.value, s.markers.high.value;
      var upper := Min(progress + chunk, high);
      ChunkKeepsExact(Base, s.base, s.rows, stored, progress, upper);
      ChunkKeepsExact(Trigram, s.trigram, s.rows, stored, progress, upper);
    }
  }

  /** Where the next chunk of a worker ends. */
  function UpperOf(s: Store, high: int, chunk: int): int
    requires s.markers.progress.Some?
  {
    Min(s.markers.progress.value + chunk, high)
  }

  /** Whatever high water the worker holds: its chunk keeps the invariant exactly if it claims no id beyond the stored
      one. */
  lemma ChunkKeepsInvIff(s: Store, high: int, chunk: int)
    requires Inv(s) && chunk > 0
    ensures Inv(ChunkTx(s, high, chunk).0) <==>
            (s.markers.progress.Some? && s.markers.progress.value < high ==>
               UpperOf(s, high, chunk) <= s.markers.high.value)
  {
    if s.markers.progress.Some? && s.markers.progress.value < high {
      var upper := UpperOf(s, high, chunk);
      if upper <= s.markers.high.value {
        ChunkKeepsInv(s, upper, chunk);
        assert ChunkTx(s, high, chunk).0 == ChunkTx(s, upper, chunk).0;
      } else {
        assert ChunkTx(s, high, chunk).0.markers.progress == Some(upper);
      }
    }
  }

  lemma NoGapCoversAll(s: Store)
    requires WellFormed(s)
    requires s.markers.high.None? || s.markers.progress.value >= s.markers.high.value
    ensures forall id | id in s.rows :: Covered(s.markers, id) && Covered(NO_MARKERS, id)
  {
  }

  lemma FinishKeepsInv(s: Store)
    requires Inv(s)
    requires s.markers.high.None? || s.markers.progress.value >= s.markers.high.value
    ensures Inv(FinishTx(s))
    ensures !s.legacy && s.triggersOn ==> FinishTx(s) == s.(markers := NO_MARKERS)
  {
    if !s.legacy && s.triggersOn {
      NoGapCoversAll(s);
      if s.markers.high.Some? {
        var lo, hi := s.markers.high.value - SWEEP, s.markers.high.value + SWEEP;
        SweepFindsNothing(Base, s.base, s.rows, s.markers, lo, hi);
        SweepFindsNothing(Trigram, s.trigram, s.rows, s.markers, lo, hi);
      }
      ExactIsFull(Base, s.base, s.rows, s.markers);
      ExactIsFull(Trigram, s.trigram, s.rows, s.markers);
      ExactIsFull(Base, s.base, s.rows, NO_MARKERS);
      ExactIsFull(Trigram, s.trigram, s.rows, NO_MARKERS);
    }
  }

  /** A finish that was decided on an earlier status: it keeps the invariant exactly if every stored row still in the
      gap lies in the window of the sweep. */
  lemma FinishKeepsInvIff(s: Store)
    requires Inv(s) && !s.legacy && s.triggersOn && s.markers.high.Some?
    ensures Inv(FinishTx(s)) <==>
            forall id | id in s.rows ::
              Covered(s.markers, id) || s.markers.high.value - SWEEP < id <= s.markers.high.value + SWEEP
  {
    var lo, hi := s.markers.high.value - SWEEP, s.markers.high.value + SWEEP;
    SweptIsExactIff(Base, s.base, s.rows, s.markers, lo, hi);
    SweptIsExactIff(Trigram, s.trigram, s.rows, s.markers, lo, hi);
    if Inv(FinishTx(s)) {
      assert forall id | id in s.rows :: Wants(Base, s.rows[id]);
    }
  }

  /** Demoting a store that is demoted already starts the rebuild over. */
  lemma DemoteKeepsInv(s: Store, shadows: seq<nat>)
    requires Inv(s)
    ensures Inv(DemoteTx(s, shadows))
  {
    assert forall i | i in s.rows.Keys :: i > 0;
  }

  lemma RebuildIndexesRestores(s: Store)
    requires WellFormed(s)
    ensures WellFormed(RebuildIndexes(s)) && BothExact(RebuildIndexes(s))
  {
    var s' := RebuildIndexes(s);
    ExactIsFull(Base, s'.base, s'.rows, s'.markers);
    ExactIsFull(Trigram, s'.trigram, s'.rows, s'.markers);
  }

  /** `rebuild_fts` keeps the invariant exactly when no stored row is waiting in (P, H]. */
  lemma RebuildFtsKeepsInvIff(s: Store)
    requires Inv(s) && !s.legacy && s.triggersOn
    ensures Inv(RebuildFts(s)) <==> forall id | id in s.rows :: Covered(s.markers, id)
  {
    FullRebuildExactIff(Base, s.rows, s.markers);
    FullRebuildExactIff(Trigram, s.rows, s.markers);
  }

  // ----- The state machine -----

  /** Where a worker stands inside `fts_rebuild_step`. */
  datatype Phase = Idle | HaveHigh(high: int) | NeedStatus | ReadyToFinish

  datatype System = System(store: Store, phases: map<nat, Phase>)

  datatype Event =
    | Insert(row: Row)
    | Delete(id: int)
    | Update(id: int, newRow: Row)
    | ReadHigh(worker: nat)
    | Chunk(worker: nat)
    | ChunkBusy(worker: nat)
    | ReadStatus(worker: nat)
    | Finish(worker: nat)
    | Crash(worker: nat)
    | Demote(shadows: seq<nat>)
    | Teardown
    | DropTriggers
    | Open

  function PhaseOf(sys: System, worker: nat): Phase {
    if worker in sys.phases then sys.phases[worker] else Idle
  }

  function At(sys: System, worker: nat, phase: Phase): System {
    sys.(phases := sys.phases[worker := phase])
  }

  /** One atomic event; an event whose guard fails leaves the system as it is. */
  function Apply(sys: System, ev: Event, chunk: nat): System
    requires chunk > 0
  {
    var s := sys.store;
    match ev
    case Insert(row) => sys.(store := InsertMessage(s, row))
    case Delete(id) => sys.(store := DeleteMessage(s, id))
    case Update(id, row) => sys.(store := UpdateMessage(s, id, row))
    case ReadHigh(w) =>
      if PhaseOf(sys, w).Idle? && s.markers.high.Some? then At(sys, w, HaveHigh(s.markers.high.value)) else sys
    case Chunk(w) =>
      if PhaseOf(sys, w).HaveHigh? then
        var (s', more) := ChunkTx(s, PhaseOf(sys, w).high, chunk);
        At(sys.(store := s'), w, if more then Idle else NeedStatus)
      else sys
    case ChunkBusy(w) => if PhaseOf(sys, w).HaveHigh? then At(sys, w, Idle) else sys
    case ReadStatus(w) =>
      if PhaseOf(sys, w).NeedStatus? then At(sys, w, if StatusDone(s) then ReadyToFinish else Idle) else sys
    case Finish(w) =>
      if PhaseOf(sys, w).ReadyToFinish? then At(sys.(store := FinishTx(s)), w, Idle) else sys
    case Crash(w) => At(sys, w, Idle)
    case Demote(shadows) => if s.legacy then sys.(store := DemoteTx(s, shadows)) else sys
    case Teardown => sys.(store := TeardownTx(s, chunk).0)
    case DropTriggers => sys.(store := s.(triggersOn := false))
    case Open => sys.(store := OpenStore(s))
  }

  function Run(sys: System, evs: seq<Event>, chunk: nat): System
    requires chunk > 0
    decreases |evs|
  {
    if evs == [] then sys else Run(Apply(sys, evs[0], chunk), evs[1..], chunk)
  }

  /** A fresh database, or a legacy one that holds any rows. */
  ghost predicate Init(sys: System) {
    && WellFormed(sys.store)
    && sys.phases == map[]
    && sys.store.markers == NO_MARKERS
    && (sys.store.legacy
        || (sys.store.rows == map[] && sys.store.base == EMPTY_INDEX && sys.store.trigram == EMPTY_INDEX))
  }

  ghost predicate PhaseOk(s: Store, phase: Phase) {
    match phase
    case HaveHigh(h) => !s.legacy && (s.markers.high.Some? ==> s.markers.high.value == h)
    case ReadyToFinish =>
      && !s.legacy
      && (s.markers.high.Some? ==>
            s.markers.progress.Some? && s.markers.progress.value >= s.markers.high.value)
    case _ => true
  }

  ghost predicate SysInv(sys: System) {
    Inv(sys.store) && forall w | w in sys.phases :: PhaseOk(sys.store, sys.phases[w])
  }

  lemma ApplyKeepsInv(sys: System, ev: Event, chunk: nat)
    requires SysInv(sys) && chunk > 0
    ensures SysInv(Apply(sys, ev, chunk))
  {
    var s := sys.store;
    match ev
    case Insert(row) => InsertKeepsInv(s, row);
    case Delete(id) => DeleteKeepsInv(s, id);
    case Update(id, row) => UpdateKeepsInv(s, id, row);
    case Chunk(w) =>
      if PhaseOf(sys, w).HaveHigh? {
        ChunkKeepsInv(s, PhaseOf(sys, w).high, chunk);
      }
    case Finish(w) =>
      if PhaseOf(sys, w).ReadyToFinish? {
        FinishKeepsInv(s);
      }
    case Demote(shadows) =>
      if s.legacy {
        DemoteKeepsInv(s, shadows);
      }
    case Open => RebuildIndexesRestores(s);
    case ReadHigh(_) =>
    case ChunkBusy(_) =>
    case ReadStatus(_) =>
    case Crash(_) =>
    case Teardown =>
    case DropTriggers =>
  }

  lemma {:induction false} RunKeepsInv(sys: System, evs: seq<Event>, chunk: nat)
    requires SysInv(sys) && chunk > 0
    ensures SysInv(Run(sys, evs, chunk))
    decreases |evs|
  {
    if evs == [] {
    } else {
      ApplyKeepsInv(sys, evs[0], chunk);
      RunKeepsInv(Apply(sys, evs[0], chunk), evs[1..], chunk);
    }
  }

  /** Safety over every run: the markers stay in order, and at any moment the triggers are installed, both indexes are
      exact. */
  lemma RunsStayExact(sys: System, evs: seq<Event>, chunk: nat)
    requires Init(sys) && chunk > 0
    ensures var s := Run(sys, evs, chunk).store;
            WellFormed(s) && (!s.legacy && s.triggersOn ==> BothExact(s))
  {
    RunKeepsInv(sys, evs, chunk);
  }

  // ----- A second demotion -----

  /** A worker that saw the rebuild done, and another process that demotes again before the worker finishes: the oldest
      message is in neither index afterwards, with no rebuild pending. */
  lemma StaleFinishLosesMessage(s: Store, row: Row)
    requires Inv(s) && s.rows == map[1 := row, SWEEP + 1 := row]
    ensures var after := FinishTx(DemoteTx(s, []));
            && Inv(DemoteTx(s, [])) && !Inv(after) && after.markers == NO_MARKERS
            && Entry(1, row.doc) !in after.base.entries && Entry(1, row.doc) !in after.trigram.entries
  {
    DemoteKeepsInv(s, []);
    var again := DemoteTx(s, []);
    assert SWEEP + 1 in s.rows.Keys && again.markers == Markers(Some(SWEEP + 1), Some(0));
    FinishKeepsInvIff(again);
    assert 1 in again.rows && !Covered(again.markers, 1);
  }

  // ----- A database of the old layout with a single message -----

  function LegacyWith(row: Row): System {
    System(Store(map[1 := row], 2, true, true, NO_MARKERS, EMPTY_INDEX, EMPTY_INDEX, []), map[])
  }

  /** Its demotion puts the message in the gap. */
  lemma LegacyDemoted(row: Row, chunk: nat)
    requires chunk > 0
    ensures Init(LegacyWith(row))
    ensures Run(LegacyWith(row), [Demote([])], chunk) ==
            System(Store(map[1 := row], 2, false, true, Markers(Some(1), Some(0)), EMPTY_INDEX, EMPTY_INDEX, []), map[])
  {
    var sys := LegacyWith(row);
    assert sys.store.rows.Keys == {1};
    assert Run(Apply(sys, Demote([]), chunk), [], chunk) == Apply(sys, Demote([]), chunk);
  }

  /** Rebuilding with the markers up, in a state a run reaches: the next chunk has the message in the index twice. */
  lemma RebuildUnderMarkersDuplicates(row: Row, chunk: nat)
    requires chunk > 0
    ensures var s := Run(LegacyWith(row), [Demote([])], chunk).store;
            var after := ChunkTx(RebuildFts(s), 1, chunk).0;
            && Inv(s) && !Inv(RebuildFts(s)) && !Inv(after)
            && after.base.entries[Entry(1, row.doc)] == 2
  {
    var sys := LegacyWith(row);
    LegacyDemoted(row, chunk);
    RunsStayExact(sys, [Demote([])], chunk);
    var s := Run(sys, [Demote([])], chunk).store;
    RebuildFtsKeepsInvIff(s);
    assert 1 in s.rows && !Covered(s.markers, 1);
    ChunkAfterFullRebuildDuplicates(Base, s.rows, 0, 1, 1);
    var after := ChunkTx(RebuildFts(s), 1, chunk).0;
    var e := Entry(1, row.doc);
    assert after.base.entries[e] == 2 && Expected(Base, after.rows, after.markers, e) <= 1;
  }
}
