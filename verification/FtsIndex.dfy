/** The message table, its two external-content full-text indexes and the deferred-rebuild markers.

    An index is a multiset of entries, so that a row indexed twice is visible, together with a flag that
    turns false when a 'delete' command names an entry the index does not hold: that is the corruption
    section 4.4 of the SQLite FTS5 documentation warns about. */
module FtsIndex {
  import opened Collections

  /** The three indexed columns; each one is a nullable TEXT. */
  datatype Doc = Doc(content: Option<string>, toolName: Option<string>, toolCalls: Option<string>)

  datatype Row = Row(role: string, doc: Doc, active: bool, compacted: bool, source: string)

  datatype Entry = Entry(id: int, doc: Doc)

  datatype Index = Index(entries: multiset<Entry>, sound: bool)

  const EMPTY_INDEX := Index(multiset{}, true)

  /** `messages_fts` covers every row, `messages_fts_trigram` reads through a view that drops tool rows. */
  datatype Kind = Base | Trigram

  /** `fts_rebuild_high_water` and `fts_rebuild_progress` in `state_meta`. */
  datatype Markers = Markers(high: Option<int>, progress: Option<int>)

  const NO_MARKERS := Markers(None, None)

  /** `COALESCE(value, -1)` */
  function Coalesced(marker: Option<int>): int {
    if marker.Some? then marker.value else -1
  }

  /** The predicate every trigger is gated on. */
  predicate Covered(markers: Markers, id: int) {
    id > Coalesced(markers.high) || id <= Coalesced(markers.progress)
  }

  predicate Wants(kind: Kind, row: Row) {
    kind.Base? || row.role != "tool"
  }

  // ----- Index commands -----

  function Put(ix: Index, id: int, doc: Doc): Index {
    ix.(entries := ix.entries + multiset{Entry(id, doc)})
  }

  /** The 'delete' command: removes one copy of the named entry, and corrupts the index when there is none. */
  function Drop(ix: Index, id: int, doc: Doc): Index {
    if Entry(id, doc) in ix.entries then
      ix.(entries := ix.entries - multiset{Entry(id, doc)})
    else
      ix.(sound := false)
  }

  /** The rows of (lo, hi] that an index of this kind takes, one entry each. */
  function RangeEntries(kind: Kind, rows: map<int, Row>, lo: int, hi: int): set<Entry> {
    set id | id in rows && lo < id <= hi && Wants(kind, rows[id]) :: Entry(id, rows[id].doc)
  }

  /** Ids the index knows: the `docsize` shadow table. */
  function DocIds(ix: Index): set<int> {
    set e | e in ix.entries :: e.id
  }

  function MissingEntries(kind: Kind, ix: Index, rows: map<int, Row>, lo: int, hi: int): set<Entry> {
    set id | id in rows && lo < id <= hi && Wants(kind, rows[id]) && id !in DocIds(ix) :: Entry(id, rows[id].doc)
  }

  function BulkPut(ix: Index, batch: set<Entry>): Index {
    ix.(entries := ix.entries + multiset(batch))
  }

  /** The one-shot 'rebuild' command: wipe, then index the whole content source. */
  function FullIndex(kind: Kind, rows: map<int, Row>): Index {
    Index(multiset(set id | id in rows && Wants(kind, rows[id]) :: Entry(id, rows[id].doc)), true)
  }

  // ----- Trigger programs -----

  function AfterInsert(kind: Kind, markers: Markers, ix: Index, id: int, row: Row): Index {
    if Wants(kind, row) && Covered(markers, id) then Put(ix, id, row.doc) else ix
  }

  function AfterDelete(kind: Kind, markers: Markers, ix: Index, id: int, row: Row): Index {
    if Wants(kind, row) && Covered(markers, id) then Drop(ix, id, row.doc) else ix
  }

  function AfterUpdate(kind: Kind, markers: Markers, ix: Index, id: int, old_: Row, new_: Row): Index {
    if (old_.doc != new_.doc || (kind.Trigram? && old_.role != new_.role)) && Covered(markers, id) then
      var dropped := if Wants(kind, old_) then Drop(ix, id, old_.doc) else ix;
      if Wants(kind, new_) then Put(dropped, id, new_.doc) else dropped
    else
      ix
  }

  // ----- The invariant -----

  /** How many copies of `e` a correct index holds. */
  function Expected(kind: Kind, rows: map<int, Row>, markers: Markers, e: Entry): nat {
    if e.id in rows && Wants(kind, rows[e.id]) && rows[e.id].doc == e.doc && Covered(markers, e.id) then 1 else 0
  }

  /** "Indexed iff id <= P or id > H": each covered row exactly once with its current columns, nothing else,
      and no 'delete' ever missed. */
  ghost predicate Exact(kind: Kind, ix: Index, rows: map<int, Row>, markers: Markers) {
    && ix.sound
    && forall e :: ix.entries[e] == Expected(kind, rows, markers, e)
  }

  lemma InsertKeepsExact(kind: Kind, ix: Index, rows: map<int, Row>, markers: Markers, id: int, row: Row)
    requires Exact(kind, ix, rows, markers)
    requires id !in rows
    ensures Exact(kind, AfterInsert(kind, markers, ix, id, row), rows[id := row], markers)
  {
  }

  lemma DeleteKeepsExact(kind: Kind, ix: Index, rows: map<int, Row>, markers: Markers, id: int)
    requires Exact(kind, ix, rows, markers)
    requires id in rows
    ensures Exact(kind, AfterDelete(kind, markers, ix, id, rows[id]), rows - {id}, markers)
  {
    assert ix.entries[Entry(id, rows[id].doc)] == Expected(kind, rows, markers, Entry(id, rows[id].doc));
  }

  lemma UpdateKeepsExact(kind: Kind, ix: Index, rows: map<int, Row>, markers: Markers, id: int, row: Row)
    requires Exact(kind, ix, rows, markers)
    requires id in rows
    ensures Exact(kind, AfterUpdate(kind, markers, ix, id, rows[id], row), rows[id := row], markers)
  {
    var old_ := rows[id];
    if old_.doc != row.doc || (kind.Trigram? && old_.role != row.role) {
      var dropped := AfterDelete(kind, markers, ix, id, old_);
      DeleteKeepsExact(kind, ix, rows, markers, id);
      InsertKeepsExact(kind, dropped, rows - {id}, markers, id, row);
      assert (rows - {id})[id := row] == rows[id := row];
      assert AfterUpdate(kind, markers, ix, id, old_, row) == AfterInsert(kind, markers, dropped, id, row);
    } else {
      forall e
        ensures Expected(kind, rows, markers, e) == Expected(kind, rows[id := row], markers, e)
      {
      }
    }
  }

  /** Publishing progress together with the rows of (P, upper] moves the boundary without a gap or a double. */
  lemma ChunkKeepsExact(kind: Kind, ix: Index, rows: map<int, Row>, high: int, progress: int, upper: int)
    requires Exact(kind, ix, rows, Markers(Some(high), Some(progress)))
    requires progress <= upper <= high
    ensures Exact(kind, BulkPut(ix, RangeEntries(kind, rows, progress, upper)), rows, Markers(Some(high), Some(upper)))
  {
  }

  /** The boundary sweep inserts nothing once every id is covered, whatever window it scans. */
  lemma SweepFindsNothing(kind: Kind, ix: Index, rows: map<int, Row>, markers: Markers, lo: int, hi: int)
    requires Exact(kind, ix, rows, markers)
    requires forall id | id in rows :: Covered(markers, id)
    ensures MissingEntries(kind, ix, rows, lo, hi) == {}
    ensures BulkPut(ix, MissingEntries(kind, ix, rows, lo, hi)) == ix
  {
    forall id | id in rows && Wants(kind, rows[id])
      ensures id in DocIds(ix)
    {
      var e := Entry(id, rows[id].doc);
      assert ix.entries[e] == Expected(kind, rows, markers, e);
      assert e in ix.entries;
    }
    assert MissingEntries(kind, ix, rows, lo, hi) == {};
    assert ix.entries + multiset{} == ix.entries;
  }

  lemma KnownIffCovered(kind: Kind, ix: Index, rows: map<int, Row>, markers: Markers, id: int)
    requires Exact(kind, ix, rows, markers) && id in rows && Wants(kind, rows[id])
    ensures id in DocIds(ix) <==> Covered(markers, id)
  {
    var e := Entry(id, rows[id].doc);
    assert ix.entries[e] == Expected(kind, rows, markers, e);
    if id in DocIds(ix) {
      var f :| f in ix.entries && f.id == id;
      assert ix.entries[f] == Expected(kind, rows, markers, f);
    }
  }

  /** A sweep over any window, after which the markers go: what it does not reach is lost, and nothing else. */
  lemma SweptIsExactIff(kind: Kind, ix: Index, rows: map<int, Row>, markers: Markers, lo: int, hi: int)
    requires Exact(kind, ix, rows, markers)
    ensures Exact(kind, BulkPut(ix, MissingEntries(kind, ix, rows, lo, hi)), rows, NO_MARKERS) <==>
            forall id | id in rows && Wants(kind, rows[id]) :: Covered(markers, id) || lo < id <= hi
  {
    var missing := MissingEntries(kind, ix, rows, lo, hi);
    var swept := BulkPut(ix, missing);
    forall id | id in rows && Wants(kind, rows[id])
      ensures id in DocIds(ix) <==> Covered(markers, id)
    {
      KnownIffCovered(kind, ix, rows, markers, id);
    }
    forall e: Entry
      ensures swept.entries[e] ==
              if e.id in rows && Wants(kind, rows[e.id]) && rows[e.id].doc == e.doc
                 && (Covered(markers, e.id) || lo < e.id <= hi) then 1 else 0
    {
      assert ix.entries[e] == Expected(kind, rows, markers, e);
      assert multiset(missing)[e] == if e in missing then 1 else 0;
    }
    if id :| id in rows && Wants(kind, rows[id]) && !(Covered(markers, id) || lo < id <= hi) {
      var e := Entry(id, rows[id].doc);
      assert swept.entries[e] == 0 && Expected(kind, rows, NO_MARKERS, e) == 1;
    }
  }

  /** With every row covered, exactness pins the index down to the one-shot full rebuild. */
  lemma ExactIsFull(kind: Kind, ix: Index, rows: map<int, Row>, markers: Markers)
    requires forall id | id in rows :: Covered(markers, id)
    ensures Exact(kind, ix, rows, markers) <==> ix == FullIndex(kind, rows)
  {
    var full := FullIndex(kind, rows);
    forall e
      ensures full.entries[e] == Expected(kind, rows, markers, e)
    {
    }
    if Exact(kind, ix, rows, markers) {
      assert forall e :: ix.entries[e] == full.entries[e];
      assert ix.entries == full.entries;
    }
  }

  /** A one-shot rebuild that leaves the markers alone is exact precisely when no wanted row lies in (P, H]. */
  lemma FullRebuildExactIff(kind: Kind, rows: map<int, Row>, markers: Markers)
    ensures Exact(kind, FullIndex(kind, rows), rows, markers)
            <==> forall id | id in rows && Wants(kind, rows[id]) :: Covered(markers, id)
  {
    var full := FullIndex(kind, rows);
    forall e
      ensures full.entries[e] == Expected(kind, rows, NO_MARKERS, e) || (e.id in rows && e.id <= -1)
    {
    }
    if exists id :: id in rows && Wants(kind, rows[id]) && !Covered(markers, id) {
      var id :| id in rows && Wants(kind, rows[id]) && !Covered(markers, id);
      var e := Entry(id, rows[id].doc);
      assert full.entries[e] == 1 && Expected(kind, rows, markers, e) == 0;
    } else {
      forall e
        ensures full.entries[e] == Expected(kind, rows, markers, e)
      {
      }
    }
  }

  /** What goes wrong otherwise: the next backfill chunk indexes such a row a second time. */
  lemma ChunkAfterFullRebuildDuplicates(kind: Kind, rows: map<int, Row>, progress: int, upper: int, id: int)
    requires id in rows && Wants(kind, rows[id]) && progress < id <= upper
    ensures var after := BulkPut(FullIndex(kind, rows), RangeEntries(kind, rows, progress, upper));
            after.entries[Entry(id, rows[id].doc)] == 2
  {
    var e := Entry(id, rows[id].doc);
    assert FullIndex(kind, rows).entries[e] == 1;
    assert e in RangeEntries(kind, rows, progress, upper);
  }
}
