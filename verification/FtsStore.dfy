/** The session store as the object whose methods run the maintenance transactions in place, down to the
    foreground `optimize_fts_storage` run with its backfill and teardown loops. */
module FtsStore {
  import opened Collections
  import opened FtsIndex
  import opened FtsProtocol
  import opened FtsProgress

  /** Work the teardown still has: every remaining row, plus one DROP for each table. */
  function TrashWork(trash: seq<nat>): nat {
    if trash == [] then 0 else trash[0] + 1 + TrashWork(trash[1..])
  }

  lemma TeardownShrinksTrash(s: Store, chunk: nat)
    requires chunk > 0
    ensures var (s', more) := TeardownTx(s, chunk);
            && s'.(trash := s.trash) == s
            && (more <==> s.trash != [])
            && (more ==> TrashWork(s'.trash) < TrashWork(s.trash))
  {
    if s.trash != [] && s.trash[0] != 0 {
      var s' := TeardownTx(s, chunk).0;
      assert s'.trash[1..] == s.trash[1..];
    }
  }

  /** What the `fts_storage_version` stamp is allowed to claim: nothing of the legacy layout remains, and no row
      waits for the backfill. The markers of a database demoted while empty may still be there. */
  predicate Settled(s: Store) {
    !s.legacy && s.trash == [] && (s.markers.high.None? || s.markers.high.value == 0)
  }

  class SessionStore {
    const chunkRows: nat
    var rows: map<int, Row>
    var nextId: int
    var legacy: bool
    var triggersOn: bool
    var high: Option<int>
    var progress: Option<int>
    var base: Index
    var trigram: Index
    var trash: seq<nat>
    var stamped: bool

    ghost function View(): Store
      reads this
    {
      Store(rows, nextId, legacy, triggersOn, Markers(high, progress), base, trigram, trash)
    }

    ghost predicate Valid()
      reads this
    {
      chunkRows > 0 && Inv(View()) && (stamped ==> Settled(View()))
    }

    /** A fresh database is born on the current layout. */
    constructor (chunkRows: nat)
      requires chunkRows > 0
      ensures Valid() && this.chunkRows == chunkRows && stamped
      ensures View() == Store(map[], 1, false, true, NO_MARKERS, EMPTY_INDEX, EMPTY_INDEX, [])
    {
      this.chunkRows := chunkRows;
      rows, nextId, legacy, triggersOn, stamped := map[], 1, false, true, true;
      high, progress, base, trigram, trash := None, None, EMPTY_INDEX, EMPTY_INDEX, [];
    }

    method Insert(row: Row) returns (id: int)
      requires Valid()
      modifies this
      ensures Valid() && View() == InsertMessage(old(View()), row)
      ensures id !in old(rows) && rows == old(rows)[id := row] && stamped == old(stamped)
    {
      InsertKeepsInv(View(), row);
      id := nextId;
      if !legacy && triggersOn {
        base := AfterInsert(Base, Markers(high, progress), base, id, row);
        trigram := AfterInsert(Trigram, Markers(high, progress), trigram, id, row);
      }
      rows, nextId := rows[id := row], nextId + 1;
    }

    method Delete(id: int)
      requires Valid()
      modifies this
      ensures Valid() && View() == DeleteMessage(old(View()), id)
      ensures rows == old(rows) - {id} && stamped == old(stamped)
    {
      DeleteKeepsInv(View(), id);
      if id in rows {
        if !legacy && triggersOn {
          base := AfterDelete(Base, Markers(high, progress), base, id, rows[id]);
          trigram := AfterDelete(Trigram, Markers(high, progress), trigram, id, rows[id]);
        }
        rows := rows - {id};
      }
      assert rows == old(rows) - {id};
    }

    method Update(id: int, row: Row)
      requires Valid()
      modifies this
      ensures Valid() && View() == UpdateMessage(old(View()), id, row)
      ensures rows == (if id in old(rows) then old(rows)[id := row] else old(rows)) && stamped == old(stamped)
    {
      UpdateKeepsInv(View(), id, row);
      if id in rows {
        if !legacy && triggersOn {
          base := AfterUpdate(Base, Markers(high, progress), base, id, rows[id], row);
          trigram := AfterUpdate(Trigram, Markers(high, progress), trigram, id, rows[id], row);
        }
        rows := rows[id := row];
      }
    }

    /** The write transaction of `fts_rebuild_step`, given the high water read beforehand. */
    method BackfillChunk(highWater: int) returns (more: bool)
      requires Valid()
      requires high.Some? ==> highWater <= high.value
      modifies this
      ensures Valid() && (View(), more) == ChunkTx(old(View()), highWater, chunkRows) && stamped == old(stamped)
    {
      ChunkKeepsInv(View(), highWater, chunkRows);
      if progress.None? {
        return false;
      }
      var from_ := progress.value;
      if from_ >= highWater {
        return false;
      }
      var upper := Min(from_ + chunkRows, highWater);
      base := BulkPut(base, RangeEntries(Base, rows, from_, upper));
      trigram := BulkPut(trigram, RangeEntries(Trigram, rows, from_, upper));
      progress := Some(upper);
      more := upper < highWater;
    }

    /** Boundary sweep, then both markers go. */
    method BackfillFinish()
      requires Valid()
      requires high.Some? ==> progress.value >= high.value
      modifies this
      ensures Valid() && View() == FinishTx(old(View())) && stamped == old(stamped)
    {
      FinishKeepsInv(View());
      ghost var before := View();
      if high.Some? {
        base, trigram := Sweep(Base, base, rows, high.value), Sweep(Trigram, trigram, rows, high.value);
      }
      high, progress := None, None;
      assert View() == FinishTx(before);
    }

    method RebuildOneStep() returns (more: bool)
      requires Valid()
      modifies this
      ensures Valid() && (View(), more) == RebuildStep(old(View()), chunkRows) && stamped == old(stamped)
    {
      if high.None? {
        return false;
      }
      more := BackfillChunk(high.value);
      if !more {
        if high.Some? && high.value > 0 && progress.value >= high.value {
          BackfillFinish();
        }
      }
    }

    method TeardownOneStep() returns (more: bool)
      requires Valid()
      modifies this
      ensures Valid() && (View(), more) == TeardownTx(old(View()), chunkRows) && stamped == old(stamped)
    {
      TeardownShrinksTrash(View(), chunkRows);
      if trash == [] {
        return false;
      }
      if trash[0] == 0 {
        trash := trash[1..];
      } else {
        trash := trash[0 := trash[0] - Min(chunkRows, trash[0])];
      }
      more := true;
    }

    /** Swap the legacy tables for empty current ones; `shadows` are the row counts of the renamed tables. */
    method DemoteLegacy(shadows: seq<nat>)
      requires Valid() && legacy
      modifies this
      ensures Valid() && View() == DemoteTx(old(View()), shadows) && !stamped
    {
      DemoteKeepsInv(View(), shadows);
      legacy, triggersOn, trash, stamped := false, true, shadows + trash, false;
      base, trigram := EMPTY_INDEX, EMPTY_INDEX;
      high, progress := Some(MaxId(rows.Keys)), Some(0);
    }

    /** Opening: repair dropped triggers, and stamp the layout unless some of the transition is unfinished. */
    method Open()
      requires Valid()
      modifies this
      ensures Valid() && View() == OpenStore(old(View()))
      ensures stamped == (old(stamped) || !OptimizeAvailable(old(View())))
    {
      RebuildIndexesRestores(View());
      if !legacy && high.None? && trash == [] {
        stamped := true;
      }
      if !legacy && !triggersOn {
        base, trigram := FullIndex(Base, rows), FullIndex(Trigram, rows);
        high, progress := None, None;
      }
      triggersOn := true;
    }

    /** `optimize_fts_storage`, foreground and to completion, from whatever an earlier run left behind. */
    method OptimizeStorage(shadows: seq<nat>)
      requires Valid()
      modifies this
      ensures Valid() && stamped && Settled(View())
      ensures rows == old(rows) && nextId == old(nextId)
      ensures triggersOn ==> base == FullIndex(Base, rows) && trigram == FullIndex(Trigram, rows)
      ensures triggersOn == (old(legacy) || old(triggersOn))
      ensures OptimizeAvailable(View()) <==>
              if old(legacy) then old(rows) == map[] else old(high) == Some(0)
    {
      if legacy && high.None? {
        DemoteLegacy(shadows);
      }
      assert rows == map[] <==> rows.Keys == {};
      ghost var resumed, stampedThen := View(), stamped;
      var more := true;
      while more
        invariant Valid() && stamped == stampedThen
        invariant !legacy && triggersOn == resumed.triggersOn && trash == resumed.trash
        invariant rows == old(rows) && nextId == old(nextId)
        invariant more ==> high == resumed.markers.high
        invariant !more ==> Markers(high, progress) ==
                            if resumed.markers.high == Some(0) then resumed.markers else NO_MARKERS
        decreases more, Remaining(View())
      {
        RebuildStepKeepsInv(View(), chunkRows);
        more := RebuildOneStep();
      }
      more := true;
      ghost var filled := View();
      while more
        invariant Valid() && View().(trash := filled.trash) == filled
        invariant !more ==> trash == []
        decreases more, TrashWork(trash)
      {
        TeardownShrinksTrash(View(), chunkRows);
        more := TeardownOneStep();
      }
      stamped := true;
      if triggersOn {
        NoGapCoversAll(View());
        ExactIsFull(Base, base, rows, Markers(high, progress));
        ExactIsFull(Trigram, trigram, rows, Markers(high, progress));
      }
    }
  }
}
