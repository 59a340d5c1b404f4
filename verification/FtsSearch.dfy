/** Search while a rebuild is pending: index hits topped up with a LIKE scan of the rows in (P, H]. */
module FtsSearch {
  import opened Collections
  import opened FtsIndex
  import opened FtsProtocol

  /** A conjunctive query. `token` is what the index matches a term by, `like` the substring test of the gap scan,
      `visible` the join filters (active or compacted, source and role lists). */
  datatype Query = Query(
    terms: seq<string>,
    token: (string, Doc) -> bool,
    like: (string, Doc) -> bool,
    visible: Row -> bool)

  predicate TokenHit(q: Query, doc: Doc) {
    forall i | 0 <= i < |q.terms| :: q.token(q.terms[i], doc)
  }

  predicate LikeHit(q: Query, doc: Doc) {
    forall i | 0 <= i < |q.terms| :: q.like(q.terms[i], doc)
  }

  /** Degrading a term to a substring never loses a document the index matches. */
  ghost predicate SubstringOfToken(q: Query) {
    forall t, d :: q.token(t, d) ==> q.like(t, d)
  }

  /** Ids MATCH returns, joined with the message table. */
  function IndexHits(q: Query, ix: Index, rows: map<int, Row>): set<int> {
    set e | e in ix.entries && e.id in rows && TokenHit(q, e.doc) && q.visible(rows[e.id]) :: e.id
  }

  /** The gap supplement as it reads: whether a rebuild is pending, its status once more, and then the rows, each in a
      read transaction of its own. Nothing unless both times one is pending and a term is left to scan for. */
  function GapReads(q: Query, pending: Store, status: Store, scanned: Store): set<int> {
    if Status(pending).None? || Status(status).None? || q.terms == [] then {}
    else
      var (progress, high) := Status(status).value;
      set id | id in scanned.rows && progress < id <= high && LikeHit(q, scanned.rows[id].doc)
               && q.visible(scanned.rows[id])
  }

  /** The same on one snapshot. */
  function GapHits(q: Query, s: Store): set<int> {
    GapReads(q, s, s, s)
  }

  /** What a finished index would return. */
  function CompleteHits(q: Query, rows: map<int, Row>): set<int> {
    set id | id in rows && TokenHit(q, rows[id].doc) && q.visible(rows[id])
  }

  lemma FullIndexHits(q: Query, rows: map<int, Row>)
    ensures IndexHits(q, FullIndex(Base, rows), rows) == CompleteHits(q, rows)
  {
    var ix := FullIndex(Base, rows);
    forall id | id in CompleteHits(q, rows)
      ensures id in IndexHits(q, ix, rows)
    {
      assert Entry(id, rows[id].doc) in ix.entries;
    }
  }

  /** A pending index returns exactly the complete hits its markers cover. */
  lemma ExactIndexHits(q: Query, ix: Index, rows: map<int, Row>, markers: Markers)
    requires Exact(Base, ix, rows, markers)
    ensures IndexHits(q, ix, rows) == set id | id in CompleteHits(q, rows) && Covered(markers, id)
  {
    var covered := set id | id in CompleteHits(q, rows) && Covered(markers, id);
    forall id | id in covered
      ensures id in IndexHits(q, ix, rows)
    {
      var e := Entry(id, rows[id].doc);
      assert ix.entries[e] == Expected(Base, rows, markers, e);
      assert e in ix.entries;
    }
    forall id | id in IndexHits(q, ix, rows)
      ensures id in covered
    {
      var e :| e in ix.entries && e.id == id && id in rows && TokenHit(q, e.doc) && q.visible(rows[id]);
      assert ix.entries[e] == Expected(Base, rows, markers, e);
    }
  }

  /** Read against one snapshot, index hits and gap scan never meet, together they hold every visible row a finished
      index would return, and whatever they add beyond it is a substring match waiting in the gap. */
  lemma SnapshotSearchIsComplete(q: Query, s: Store)
    requires Inv(s) && !s.legacy && s.triggersOn
    requires SubstringOfToken(q) && q.terms != []
    ensures IndexHits(q, s.base, s.rows) !! GapHits(q, s)
    ensures IndexHits(q, FullIndex(Base, s.rows), s.rows) <= IndexHits(q, s.base, s.rows) + GapHits(q, s)
    ensures forall id | id in GapHits(q, s) :: !Covered(s.markers, id) && LikeHit(q, s.rows[id].doc)
  {
    FullIndexHits(q, s.rows);
    ExactIndexHits(q, s.base, s.rows, s.markers);
    forall id | id in CompleteHits(q, s.rows) && !Covered(s.markers, id)
      ensures id in GapHits(q, s)
    {
      assert LikeHit(q, s.rows[id].doc);
    }
  }

  /** Visible hits at the first read whose row is still the same at the last. */
  function LastingHits(q: Query, s: Store, later: Store): set<int> {
    set id | id in CompleteHits(q, s.rows) && id in later.rows && later.rows[id] == s.rows[id]
  }

  /** The index, the two looks at the markers and the rows of the gap are read in four read transactions, with any
      writes, chunks, a finish or a demotion in between. A hit whose row did not change is found exactly when the index
      covered it, or a rebuild was pending at the first look and the second still left it uncovered; what happens to
      the markers after that does not matter. */
  lemma SplitReadFindsIff(q: Query, s: Store, pending: Store, status: Store, scanned: Store, id: int)
    requires Inv(s) && !s.legacy && s.triggersOn && WellFormed(status)
    requires SubstringOfToken(q) && q.terms != []
    requires id in LastingHits(q, s, scanned)
    ensures id in IndexHits(q, s.base, s.rows) + GapReads(q, pending, status, scanned) <==>
            Covered(s.markers, id) || (Status(pending).Some? && !Covered(status.markers, id))
  {
    ExactIndexHits(q, s.base, s.rows, s.markers);
    assert LikeHit(q, scanned.rows[id].doc);
    assert 1 <= id;
  }

  /** So the answer holds every such hit if and only if each one meets that condition. */
  lemma SplitReadCompleteIff(q: Query, s: Store, pending: Store, status: Store, scanned: Store)
    requires Inv(s) && !s.legacy && s.triggersOn && WellFormed(status)
    requires SubstringOfToken(q) && q.terms != []
    ensures LastingHits(q, s, scanned) <= IndexHits(q, s.base, s.rows) + GapReads(q, pending, status, scanned)
            <==> forall id | id in LastingHits(q, s, scanned) ::
                   Covered(s.markers, id) || (Status(pending).Some? && !Covered(status.markers, id))
  {
    var hits := LastingHits(q, s, scanned);
    var found := IndexHits(q, s.base, s.rows) + GapReads(q, pending, status, scanned);
    if id :| id in hits && !Covered(s.markers, id) && (Status(pending).None? || Covered(status.markers, id)) {
      SplitReadFindsIff(q, s, pending, status, scanned, id);
    } else {
      forall id | id in hits
        ensures id in found
      {
        SplitReadFindsIff(q, s, pending, status, scanned, id);
      }
    }
  }

  /** A run in which a hit is missed: between the two reads a worker publishes the only message. */
  lemma SplitReadMisses(q: Query, row: Row, chunk: nat)
    requires chunk > 0 && q.terms != [] && TokenHit(q, row.doc) && q.visible(row)
    ensures var sys := LegacyWith(row);
            var s := Run(sys, [Demote([]), ReadHigh(1)], chunk).store;
            var later := Run(sys, [Demote([]), ReadHigh(1), Chunk(1)], chunk).store;
            && Init(sys)
            && 1 in CompleteHits(q, s.rows) && 1 in LastingHits(q, s, later)
            && 1 !in IndexHits(q, s.base, s.rows) + GapHits(q, later)
  {
    var sys := LegacyWith(row);
    LegacyDemoted(row, chunk);
    var s0 := Apply(sys, Demote([]), chunk);
    assert s0 == Run(s0, [], chunk) == Run(sys, [Demote([])], chunk);
    var s1 := Apply(s0, ReadHigh(1), chunk);
    var s2 := Apply(s1, Chunk(1), chunk);
    assert Run(s2, [], chunk) == s2 && Run(s1, [], chunk) == s1;
    assert Run(s1, [Chunk(1)], chunk) == s2;
    assert Run(s0, [ReadHigh(1)], chunk) == s1 && Run(s0, [ReadHigh(1), Chunk(1)], chunk) == s2;
    assert s1.store.base == EMPTY_INDEX;
    assert Status(s2.store) == Some((1, 1));
  }

  // ----- Putting the answer together -----

  predicate NoDuplicates(ids: seq<int>) {
    forall i, j | 0 <= i < j < |ids| :: ids[i] != ids[j]
  }

  /** The supplement step of `search_messages`: `scan` is the gap scan in its own order, still unlimited. */
  method TopUp(matches: seq<int>, scan: seq<int>, limit: nat) returns (answer: seq<int>)
    requires NoDuplicates(matches) && NoDuplicates(scan)
    ensures NoDuplicates(answer) && matches <= answer
    ensures |answer| <= (if |matches| < limit then limit else |matches|)
    ensures forall id | id in answer :: id in matches || id in scan
    ensures |matches| + |scan| <= limit ==> forall id :: id in answer <==> id in matches || id in scan
  {
    answer := matches;
    if |matches| < limit {
      var room := limit - |matches|;
      var gap := if |scan| <= room then scan else scan[..room];
      for i := 0 to |gap|
        invariant matches <= answer && NoDuplicates(answer) && |answer| <= |matches| + i
        invariant forall id :: id in answer <==> id in matches || id in gap[..i]
      {
        assert gap[i] !in gap[..i];
        assert gap[..i + 1] == gap[..i] + [gap[i]];
        if gap[i] !in matches {
          answer := answer + [gap[i]];
        }
      }
      assert gap[..|gap|] == gap;
    }
  }

  /** With room for every hit, the returned list holds each complete hit once. */
  lemma AnswerIsComplete(q: Query, s: Store, matches: seq<int>, scan: seq<int>, answer: seq<int>)
    requires Inv(s) && !s.legacy && s.triggersOn && SubstringOfToken(q) && q.terms != []
    requires forall id :: id in matches <==> id in IndexHits(q, s.base, s.rows)
    requires forall id :: id in scan <==> id in GapHits(q, s)
    requires forall id :: id in answer <==> id in matches || id in scan
    ensures forall id | id in CompleteHits(q, s.rows) :: id in answer
    ensures forall id | id in answer :: id in s.rows && q.visible(s.rows[id]) && LikeHit(q, s.rows[id].doc)
  {
    SnapshotSearchIsComplete(q, s);
    FullIndexHits(q, s.rows);
    ExactIndexHits(q, s.base, s.rows, s.markers);
  }

  // ----- Which queries the bigram index cannot answer -----

  predicate IsCjk(c: char) {
    var n := c as int;
    0x4E00 <= n <= 0x9FFF || 0x3400 <= n <= 0x4DBF || 0x20000 <= n <= 0x2A6DF || 0x3000 <= n <= 0x303F
    || 0x3040 <= n <= 0x309F || 0x30A0 <= n <= 0x30FF || 0xAC00 <= n <= 0xD7AF
  }

  /** The character at `i` is CJK and neither neighbour is. */
  predicate LoneAt(query: string, i: nat)
    requires i < |query|
  {
    IsCjk(query[i]) && (i == 0 || !IsCjk(query[i - 1])) && (i + 1 == |query| || !IsCjk(query[i + 1]))
  }

  /** One pass with a run counter finds whether some CJK character stands alone. */
  method HasLoneCjkRun(query: string) returns (lone: bool)
    ensures lone <==> exists i :: 0 <= i < |query| && LoneAt(query, i)
  {
    var run := 0;
    for i := 0 to |query|
      invariant 0 <= run <= i
      invariant forall j | i - run <= j < i :: IsCjk(query[j])
      invariant run < i ==> !IsCjk(query[i - run - 1])
      invariant forall j | 0 <= j < i - run :: !LoneAt(query, j)
    {
      if IsCjk(query[i]) {
        run := run + 1;
      } else {
        if run == 1 {
          assert LoneAt(query, i - 1);
          return true;
        }
        assert forall j | i - run <= j < i :: !LoneAt(query, j) by {
          forall j | i - run <= j < i
            ensures !LoneAt(query, j)
          {
            assert if j + 1 < i then IsCjk(query[j + 1]) else IsCjk(query[j - 1]);
          }
        }
        run := 0;
      }
    }
    lone := run == 1;
    if lone {
      assert LoneAt(query, |query| - 1);
    } else {
      forall j | |query| - run <= j < |query|
        ensures !LoneAt(query, j)
      {
        assert if j + 1 < |query| then IsCjk(query[j + 1]) else IsCjk(query[j - 1]);
      }
    }
  }
}
