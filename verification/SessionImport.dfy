/** `import_sessions`: the validation pass, the insertion of new sessions as roots, and the attachment of their
    parent edges. */
module SessionImport {
  import opened Collections
  import opened Lineage

  /** Requested edges, child and parent, in payload order. */
  type Edges = seq<(string, string)>

  datatype Messages = NotAList | MessageList(count: nat, allObjects: bool)

  /** One entry of the payload, reduced to what validation and lineage look at: ids and parents are already stripped,
      `bytes` is absent when the entry is not JSON serializable, `fieldsOk` says the per-field checks pass. */
  datatype Raw =
    | NotAnObject
    | Session(id: string, messages: Messages, bytes: Option<nat>, fieldsOk: bool, parent: string)

  datatype Limits = Limits(perSession: nat, sessionBytes: nat, totalBytes: nat, totalMessages: nat)

  datatype Problem =
    | MustBeObject | IdRequired | DuplicateId | MessagesNotAList | TooManyMessages | MessagesNotObjects
    | NotSerializable | SessionTooLarge | ImportTooLarge | BadField | TooManyMessagesInAll

  datatype ImportError = ImportError(index: nat, problem: Problem)

  predicate EntryOk(raw: Raw, limits: Limits) {
    && raw.Session? && raw.id != ""
    && raw.messages.MessageList? && raw.messages.count <= limits.perSession && raw.messages.allObjects
    && raw.bytes.Some? && raw.bytes.value <= limits.sessionBytes
    && raw.fieldsOk
  }

  function EntryBytes(raw: Raw): nat {
    if raw.Session? && raw.bytes.Some? then raw.bytes.value else 0
  }

  function EntryMessages(raw: Raw): nat {
    if raw.Session? && raw.messages.MessageList? then raw.messages.count else 0
  }

  function TotalBytes(raws: seq<Raw>): nat {
    if raws == [] then 0 else TotalBytes(raws[..|raws| - 1]) + EntryBytes(raws[|raws| - 1])
  }

  function TotalMessages(raws: seq<Raw>): nat {
    if raws == [] then 0 else TotalMessages(raws[..|raws| - 1]) + EntryMessages(raws[|raws| - 1])
  }

  predicate DistinctIds(raws: seq<Raw>) {
    forall i, j | 0 <= i < j < |raws| && raws[i].Session? && raws[j].Session? :: raws[i].id != raws[j].id
  }

  /** A payload the import takes: every entry sound on its own, ids distinct, totals within bounds. */
  ghost predicate Acceptable(raws: seq<Raw>, limits: Limits) {
    && (forall i | 0 <= i < |raws| :: EntryOk(raws[i], limits))
    && DistinctIds(raws)
    && TotalBytes(raws) <= limits.totalBytes
    && TotalMessages(raws) <= limits.totalMessages
  }

  /** The checks on one entry, in the order the import makes them. */
  function Check(raw: Raw, seen: set<string>, bytes: nat, messages: nat, limits: Limits): Option<Problem> {
    if raw.NotAnObject? then Some(MustBeObject)
    else if raw.id == "" then Some(IdRequired)
    else if raw.id in seen then Some(DuplicateId)
    else if raw.messages.NotAList? then Some(MessagesNotAList)
    else if raw.messages.count > limits.perSession then Some(TooManyMessages)
    else if !raw.messages.allObjects then Some(MessagesNotObjects)
    else if raw.bytes.None? then Some(NotSerializable)
    else if raw.bytes.value > limits.sessionBytes then Some(SessionTooLarge)
    else if bytes + raw.bytes.value > limits.totalBytes then Some(ImportTooLarge)
    else if !raw.fieldsOk then Some(BadField)
    else if messages + raw.messages.count > limits.totalMessages then Some(TooManyMessagesInAll)
    else None
  }

  /** Whether an entry got as far as adding its size, and its messages, to the running totals. */
  predicate CountsBytes(verdict: Option<Problem>) {
    verdict in {None, Some(ImportTooLarge), Some(BadField), Some(TooManyMessagesInAll)}
  }

  predicate CountsMessages(verdict: Option<Problem>) {
    verdict in {None, Some(TooManyMessagesInAll)}
  }

  lemma TotalsSnoc(raws: seq<Raw>, raw: Raw)
    ensures TotalBytes(raws + [raw]) == TotalBytes(raws) + EntryBytes(raw)
    ensures TotalMessages(raws + [raw]) == TotalMessages(raws) + EntryMessages(raw)
  {
    assert (raws + [raw])[..|raws + [raw]| - 1] == raws;
  }

  lemma DistinctSnoc(raws: seq<Raw>, raw: Raw)
    requires DistinctIds(raws) && raw.Session?
    requires forall i | 0 <= i < |raws| :: raws[i].Session?
    ensures DistinctIds(raws + [raw]) <==> forall i | 0 <= i < |raws| :: raws[i].id != raw.id
  {
    var all := raws + [raw];
    assert all[|raws|] == raw;
    assert forall i | 0 <= i < |raws| :: all[i] == raws[i];
  }

  lemma AcceptableSnoc(raws: seq<Raw>, raw: Raw, limits: Limits)
    requires Acceptable(raws, limits)
    ensures Acceptable(raws + [raw], limits) <==>
            && EntryOk(raw, limits)
            && (forall i | 0 <= i < |raws| :: raws[i].id != raw.id)
            && TotalBytes(raws) + EntryBytes(raw) <= limits.totalBytes
            && TotalMessages(raws) + EntryMessages(raw) <= limits.totalMessages
  {
    var all := raws + [raw];
    TotalsSnoc(raws, raw);
    assert all[|raws|] == raw;
    forall i | 0 <= i < |raws|
      ensures all[i] == raws[i] && raws[i].Session? && EntryOk(raws[i], limits)
    {
    }
    if EntryOk(raw, limits) {
      DistinctSnoc(raws, raw);
      assert forall i | 0 <= i < |all| :: EntryOk(all[i], limits);
    }
  }

  lemma CheckPasses(raw: Raw, seen: set<string>, bytes: nat, messages: nat, limits: Limits)
    ensures Check(raw, seen, bytes, messages, limits).None? <==>
            && EntryOk(raw, limits)
            && raw.id !in seen
            && bytes + EntryBytes(raw) <= limits.totalBytes
            && messages + EntryMessages(raw) <= limits.totalMessages
  {
  }

  /** Adding one entry to an acceptable payload keeps it acceptable exactly when the entry passes the checks. */
  lemma AcceptOne(raws: seq<Raw>, raw: Raw, seen: set<string>, limits: Limits)
    requires Acceptable(raws, limits)
    requires seen == set i | 0 <= i < |raws| :: raws[i].id
    ensures Acceptable(raws + [raw], limits) <==>
            Check(raw, seen, TotalBytes(raws), TotalMessages(raws), limits).None?
  {
    AcceptableSnoc(raws, raw, limits);
    CheckPasses(raw, seen, TotalBytes(raws), TotalMessages(raws), limits);
    if raw.Session? {
      assert raw.id in seen <==> exists i :: 0 <= i < |raws| && raws[i].id == raw.id;
    }
  }

  lemma AcceptablePrefix(raws: seq<Raw>, limits: Limits, k: nat)
    requires k <= |raws| && Acceptable(raws, limits)
    ensures Acceptable(raws[..k], limits)
    decreases |raws|
  {
    if k == |raws| {
      assert raws[..k] == raws;
    } else {
      var init := raws[..|raws| - 1];
      AcceptablePrefix(init, limits, k);
      assert init[..k] == raws[..k];
    }
  }

  /** The validation pass: no error exactly for an acceptable payload, which then goes on whole and in order; each
      entry is either normalized or reported once. */
  method Validate(raws: seq<Raw>, limits: Limits) returns (normalized: seq<Raw>, errors: seq<ImportError>)
    ensures errors == [] <==> Acceptable(raws, limits)
    ensures errors == [] ==> normalized == raws
    ensures |normalized| + |errors| == |raws|
    ensures forall e | e in errors :: e.index < |raws|
    ensures forall i, j | 0 <= i < j < |errors| :: errors[i].index < errors[j].index
  {
    normalized, errors := [], [];
    var seen: set<string> := {};
    var bytes: nat, messages: nat := 0, 0;
    for k := 0 to |raws|
      invariant errors == [] <==> Acceptable(raws[..k], limits)
      invariant errors == [] ==> && normalized == raws[..k]
                                 && seen == (set i | 0 <= i < k :: raws[..k][i].id)
                                 && bytes == TotalBytes(raws[..k]) && messages == TotalMessages(raws[..k])
      invariant |normalized| + |errors| == k
      invariant forall e | e in errors :: e.index < k
      invariant forall i, j | 0 <= i < j < |errors| :: errors[i].index < errors[j].index
    {
      var raw := raws[k];
      assert raws[..k + 1] == raws[..k] + [raw];
      assert raws[..k + 1][..k] == raws[..k];
      var verdict := Check(raw, seen, bytes, messages, limits);
      if errors == [] {
        AcceptOne(raws[..k], raw, seen, limits);
      } else if Acceptable(raws[..k + 1], limits) {
        AcceptablePrefix(raws[..k + 1], limits, k);
      }
      if raw.Session? && CountsBytes(verdict) && raw.bytes.Some? {
        bytes := bytes + raw.bytes.value;
      }
      if raw.Session? && CountsMessages(verdict) && raw.messages.MessageList? {
        messages := messages + raw.messages.count;
      }
      if verdict.Some? {
        errors := errors + [ImportError(k, verdict.value)];
      } else {
        seen := seen + {raw.id};
        normalized := normalized + [raw];
      }
    }
    assert raws[..|raws|] == raws;
  }

  // ----- The import transaction -----

  function Ids(items: seq<Raw>): set<string>
    requires forall i | 0 <= i < |items| :: items[i].Session?
  {
    set i | 0 <= i < |items| :: items[i].id
  }

  /** A validated payload, built up entry by entry. */
  ghost predicate Payload(items: seq<Raw>) {
    items == [] || (&& Payload(items[..|items| - 1])
                    && (forall i | 0 <= i < |items| :: items[i].Session?)
                    && items[|items| - 1].id != ""
                    && items[|items| - 1].id !in Ids(items[..|items| - 1]))
  }

  lemma {:induction false} PayloadPrefix(items: seq<Raw>, k: nat)
    requires Payload(items) && k <= |items|
    ensures Payload(items[..k])
    decreases |items|
  {
    if k == |items| {
      assert items[..k] == items;
    } else {
      PayloadPrefix(items[..|items| - 1], k);
      assert items[..|items| - 1][..k] == items[..k];
    }
  }

  lemma PayloadEntry(items: seq<Raw>, k: nat)
    requires Payload(items) && k < |items|
    ensures forall i | 0 <= i < |items| :: items[i].Session?
    ensures items[..k + 1][..k] == items[..k] && items[..k + 1][k] == items[k]
    ensures Ids(items[..k + 1]) == Ids(items[..k]) + {items[k].id}
    ensures items[k].id !in Ids(items[..k])
  {
    PayloadPrefix(items, k + 1);
    assert items[..k + 1][..k] == items[..k];
    forall id | id in Ids(items[..k + 1])
      ensures id in Ids(items[..k]) + {items[k].id}
    {
      var i :| 0 <= i < k + 1 && items[..k + 1][i].id == id;
      if i < k {
        assert items[..k][i].id == id;
      }
    }
    forall id | id in Ids(items[..k])
      ensures id in Ids(items[..k + 1])
    {
      var i :| 0 <= i < k && items[..k][i].id == id;
      assert items[..k + 1][i].id == id;
    }
    assert items[..k + 1][k].id in Ids(items[..k + 1]);
  }

  lemma {:induction false} AcceptableIsPayload(raws: seq<Raw>, limits: Limits)
    requires Acceptable(raws, limits)
    ensures Payload(raws)
    decreases |raws|
  {
    if raws == [] {
    } else {
      AcceptablePrefix(raws, limits, |raws| - 1);
      AcceptableIsPayload(raws[..|raws| - 1], limits);
    }
  }

  /** The parent edges the payload asks for, child to parent: those of sessions not stored yet that name one. */
  ghost function Requested(db: Parents, items: seq<Raw>): Parents
    requires forall i | 0 <= i < |items| :: items[i].Session?
  {
    if items == [] then map[]
    else
      var last := items[|items| - 1];
      var before := Requested(db, items[..|items| - 1]);
      if last.id in db || last.parent == "" then before else before[last.id := last.parent]
  }

  lemma {:induction false} RequestedInIds(db: Parents, items: seq<Raw>)
    requires Payload(items)
    ensures forall c | c in Requested(db, items) :: c in Ids(items) && c !in db && c != ""
    ensures forall c | c in Requested(db, items) :: Requested(db, items)[c] != ""
    decreases |items|
  {
    if items == [] {
    } else {
      RequestedInIds(db, items[..|items| - 1]);
      assert forall i | 0 <= i < |items| - 1 :: items[..|items| - 1][i].id == items[i].id;
    }
  }

  /** Entry by entry: an edge is requested exactly for a new session that names a parent, and it is that parent. */
  lemma {:induction false} RequestedAt(db: Parents, items: seq<Raw>, i: nat)
    requires Payload(items) && i < |items|
    ensures items[i].id in Requested(db, items) <==> items[i].id !in db && items[i].parent != ""
    ensures items[i].id in Requested(db, items) ==> Requested(db, items)[items[i].id] == items[i].parent
    decreases |items|
  {
    var init := items[..|items| - 1];
    if i < |init| {
      RequestedAt(db, init, i);
      assert init[i] == items[i];
      assert items[i].id in Ids(init);
    } else {
      RequestedInIds(db, init);
    }
  }

  /** Ids not stored yet, in payload order; likewise the ids already stored, and the edges of `parent_updates`. */
  function NewIds(db: Parents, items: seq<Raw>): seq<string>
    requires forall i | 0 <= i < |items| :: items[i].Session?
  {
    if items == [] then []
    else
      var last := items[|items| - 1];
      NewIds(db, items[..|items| - 1]) + (if last.id in db then [] else [last.id])
  }

  function StoredIds(db: Parents, items: seq<Raw>): seq<string>
    requires forall i | 0 <= i < |items| :: items[i].Session?
  {
    if items == [] then []
    else
      var last := items[|items| - 1];
      StoredIds(db, items[..|items| - 1]) + (if last.id in db then [last.id] else [])
  }

  function NewEdges(db: Parents, items: seq<Raw>): Edges
    requires forall i | 0 <= i < |items| :: items[i].Session?
  {
    if items == [] then []
    else
      var last := items[|items| - 1];
      NewEdges(db, items[..|items| - 1]) + (if last.id in db || last.parent == "" then [] else [(last.id, last.parent)])
  }

  lemma NextEntry(db: Parents, items: seq<Raw>, k: nat)
    requires k < |items| && forall i | 0 <= i < |items| :: items[i].Session?
    ensures var id, parent := items[k].id, items[k].parent;
            && NewIds(db, items[..k + 1]) == NewIds(db, items[..k]) + (if id in db then [] else [id])
            && StoredIds(db, items[..k + 1]) == StoredIds(db, items[..k]) + (if id in db then [id] else [])
            && NewEdges(db, items[..k + 1]) ==
               NewEdges(db, items[..k]) + (if id in db || parent == "" then [] else [(id, parent)])
  {
    assert items[..k + 1][..k] == items[..k] && items[..k + 1][k] == items[k];
  }

  /** The table after the first `k` entries: the stored sessions as they were, the new ones as roots. */
  ghost predicate Inserted(db: Parents, items: seq<Raw>, k: nat, table: Parents)
    requires k <= |items|
  {
    && (forall i | 0 <= i < |items| :: items[i].Session?)
    && table.Keys == db.Keys + Ids(items[..k])
    && forall id | id in table :: table[id] == if id in db then db[id] else ""
  }

  lemma InsertedOneMore(db: Parents, items: seq<Raw>, k: nat, table: Parents)
    requires Payload(items) && k < |items| && Inserted(db, items, k, table)
    ensures items[k].id in table <==> items[k].id in db
    ensures Inserted(db, items, k + 1, if items[k].id in table then table else table[items[k].id := ""])
  {
    PayloadEntry(items, k);
  }

  /** A list of edges with one entry per child. */
  ghost predicate Lists(updates: Edges, edges: Parents) {
    && (forall k | 0 <= k < |updates| :: updates[k].0 in edges && edges[updates[k].0] == updates[k].1)
    && (forall c | c in edges :: exists k :: 0 <= k < |updates| && updates[k].0 == c)
    && (forall j, k | 0 <= j < k < |updates| :: updates[j].0 != updates[k].0)
  }

  lemma {:induction false} NewEdgesAreRequested(db: Parents, items: seq<Raw>)
    requires Payload(items)
    ensures Lists(NewEdges(db, items), Requested(db, items))
    decreases |items|
  {
    if items == [] {
    } else {
      var init, last := items[..|items| - 1], items[|items| - 1];
      NewEdgesAreRequested(db, init);
      RequestedInIds(db, init);
      if last.id !in db && last.parent != "" {
        ListsSnoc(NewEdges(db, init), Requested(db, init), last.id, last.parent);
      } else {
        assert NewEdges(db, items) == NewEdges(db, init);
      }
    }
  }

  lemma ListsSnoc(updates: Edges, edges: Parents, child: string, parent: string)
    requires Lists(updates, edges) && child !in edges
    ensures Lists(updates + [(child, parent)], edges[child := parent])
  {
    var all := updates + [(child, parent)];
    assert all[|updates|].0 == child;
    var extended := edges[child := parent];
    forall c | c in extended
      ensures exists k :: 0 <= k < |all| && all[k].0 == c
    {
      if c != child {
        var k :| 0 <= k < |updates| && updates[k].0 == c;
        assert all[k].0 == c;
      }
    }
  }

  lemma {:induction false} SameUpSameAncestor(p: Parents, d: Parents, p': Parents, d': Parents, id: string, n: nat)
    requires forall x :: Up(p, d, x) == Up(p', d', x)
    ensures Ancestor(p, d, id, n) == Ancestor(p', d', id, n)
    decreases n
  {
    if n == 0 {
    } else {
      SameUpSameAncestor(p, d, p', d', Up(p, d, id), n - 1);
    }
  }

  /** Dropping a pending edge makes its child a root, so lineages only get shorter. */
  lemma {:induction false} DroppedEdgeKeepsEnd(pending: Parents, db: Parents, child: string, id: string, n: nat)
    requires child in db && db[child] == "" && Ancestor(pending, db, id, n) == ""
    ensures Ends(pending - {child}, db, id)
    decreases n
  {
    if n == 0 {
      assert Ancestor(pending - {child}, db, id, 0) == "";
    } else if id == child {
      assert Ancestor(pending - {child}, db, id, 1) == Ancestor(pending - {child}, db, "", 0);
    } else {
      DroppedEdgeKeepsEnd(pending, db, child, Up(pending, db, id), n - 1);
      var m: nat :| Ancestor(pending - {child}, db, Up(pending, db, id), m) == "";
      assert Ancestor(pending - {child}, db, id, m + 1) == "";
    }
  }

  /** New sessions enter as roots, which no lineage notices. */
  lemma RootInsertKeepsAcyclic(db: Parents, db': Parents)
    requires Acyclic(db)
    requires forall id | id in db :: id in db' && db'[id] == db[id]
    requires forall id | id in db' && id !in db :: db'[id] == ""
    ensures Acyclic(db')
  {
    forall x, n: nat | x in db' && x != "" && n > 0
      ensures Ancestor(map[], db', x, n) != x
    {
      SameUpSameAncestor(map[], db, map[], db', x, n);
      if x !in db {
        RootStaysRoot(map[], db, n - 1);
      }
    }
  }

  /** Every requested lineage reaches a root in what the walk sees. */
  ghost predicate AllEnd(pending: Parents, db: Parents, edges: Parents) {
    forall c | c in edges :: Ends(pending, db, c)
  }

  /** After `k` edges: those are attached to their requested parent or dropped, the rest are still roots. */
  ghost predicate Progress(updates: Edges, edges: Parents, db0: Parents, db: Parents, dropped: set<string>, k: nat) {
    && Lists(updates, edges) && k <= |updates|
    && (forall c | c in edges :: c != "" && edges[c] != "" && c in db)
    && db.Keys == db0.Keys
    && (forall id | id in db && id !in edges :: db[id] == db0[id])
    && (forall j | 0 <= j < k && updates[j].0 in dropped :: db[updates[j].0] == "")
    && (forall j | 0 <= j < k && updates[j].0 !in dropped :: db[updates[j].0] == updates[j].1 && updates[j].1 in db)
    && (forall j | k <= j < |updates| :: updates[j].0 !in dropped && db[updates[j].0] == "")
    && dropped <= edges.Keys
  }

  /** What the second loop does to the parents, given the requested edges. */
  ghost predicate Attached(edges: Parents, db: Parents, db': Parents) {
    && db'.Keys == db.Keys
    && (forall id | id in db && id !in edges :: db'[id] == db[id])
    && (forall c | c in edges :: c in db' && (db'[c] == "" || (db'[c] == edges[c] && edges[c] in db')))
    && (Acyclic(db) ==> Acyclic(db'))
    && (AllEnd(edges, db, edges) ==> forall c | c in edges && edges[c] in db' :: db'[c] == edges[c])
  }

  /** What a whole import does to the parents: stored sessions keep theirs, a new one gets its requested parent or
      none, an acyclic graph stays acyclic, and a payload without cycles loses no edge to a known parent. */
  ghost predicate Imported(edges: Parents, db: Parents, db': Parents) {
    && (forall id | id in db :: id in db' && db'[id] == db[id])
    && (forall id | id in db' && id !in db && id !in edges :: db'[id] == "")
    && (forall c | c in edges :: c in db' && (db'[c] == "" || (db'[c] == edges[c] && edges[c] in db')))
    && (Acyclic(db) ==> Acyclic(db'))
    && (AllEnd(edges, db, edges) ==> forall c | c in edges && edges[c] in db' :: db'[c] == edges[c])
  }

  lemma InsertThenAttach(edges: Parents, db: Parents, roots: Parents, db': Parents)
    requires forall id | id in db :: id in roots && roots[id] == db[id] && id !in edges
    requires forall id | id in roots && id !in db :: roots[id] == ""
    requires Attached(edges, roots, db')
    ensures Imported(edges, db, db')
  {
    if Acyclic(db) {
      RootInsertKeepsAcyclic(db, roots);
    }
    RootInsertKeepsEnds(db, roots, edges);
  }

  lemma ProgressOverlays(updates: Edges, edges: Parents, db0: Parents, db: Parents, dropped: set<string>, k: nat)
    requires Progress(updates, edges, db0, db, dropped, k)
    ensures Overlays(edges - dropped, db)
    ensures k < |updates| ==> updates[k].0 in edges - dropped && db[updates[k].0] == ""
  {
    forall id | id in db && id != "" && db[id] != ""
      ensures Up(edges - dropped, db, id) == db[id]
    {
      if id in edges {
        var j :| 0 <= j < |updates| && updates[j].0 == id;
      }
    }
  }

  lemma ProgressStep(updates: Edges, edges: Parents, db0: Parents, db: Parents, dropped: set<string>, k: nat)
    requires Progress(updates, edges, db0, db, dropped, k) && k < |updates|
    ensures updates[k].1 in db ==> Progress(updates, edges, db0, db[updates[k].0 := updates[k].1], dropped, k + 1)
    ensures Progress(updates, edges, db0, db, dropped + {updates[k].0}, k + 1)
  {
    assert forall j | 0 <= j < |updates| && j != k :: updates[j].0 != updates[k].0;
  }

  lemma ProgressEnd(updates: Edges, edges: Parents, db0: Parents, db: Parents, dropped: set<string>)
    requires Progress(updates, edges, db0, db, dropped, |updates|)
    ensures forall c | c in edges :: if c in dropped then db[c] == "" else db[c] == edges[c] && edges[c] in db
    ensures dropped == set c | c in edges && db[c] == ""
  {
    forall c | c in edges
      ensures if c in dropped then db[c] == "" else db[c] == edges[c] && edges[c] in db
    {
      var j :| 0 <= j < |updates| && updates[j].0 == c;
    }
  }

  lemma DropOne(edges: Parents, dropped: set<string>, child: string)
    requires child !in dropped
    ensures edges - dropped - {child} == edges - (dropped + {child})
    ensures |dropped + {child}| == |dropped| + 1
  {
  }

  /** Attaching a pending edge changes nothing the walk sees. */
  lemma AttachKeepsEnds(pending: Parents, db: Parents, child: string, edges: Parents)
    requires child in pending
    ensures AllEnd(pending, db, edges) ==> AllEnd(pending, db[child := pending[child]], edges)
  {
    forall c | c in edges && Ends(pending, db, c)
      ensures Ends(pending, db[child := pending[child]], c)
    {
      var n: nat :| Ancestor(pending, db, c, n) == "";
      SameUpSameAncestor(pending, db, pending, db[child := pending[child]], c, n);
    }
  }

  lemma DropKeepsEnds(pending: Parents, db: Parents, child: string, edges: Parents)
    requires child in pending && child != "" && child in db && db[child] == ""
    ensures AllEnd(pending, db, edges) ==> AllEnd(pending - {child}, db, edges)
  {
    forall c | c in edges && Ends(pending, db, c)
      ensures Ends(pending - {child}, db, c)
    {
      var n: nat :| Ancestor(pending, db, c, n) == "";
      DroppedEdgeKeepsEnd(pending, db, child, c, n);
    }
  }

  lemma ChildEndsParentEnds(pending: Parents, db: Parents, child: string)
    requires child in pending && child != "" && Ends(pending, db, child)
    ensures Ends(pending, db, pending[child])
  {
    var n: nat :| Ancestor(pending, db, child, n) == "";
    assert n > 0;
    assert Ancestor(pending, db, pending[child], n - 1) == "";
  }

  // ----- Exactly which edges are dropped -----

  /** No session on the requested lineage of edge `k` comes earlier in the list. */
  ghost predicate FirstOnLineage(updates: Edges, edges: Parents, db: Parents, k: nat)
    requires k < |updates|
  {
    forall j, n: nat | 0 <= j < k :: Ancestor(edges, db, updates[k].0, n) != updates[j].0
  }

  /** The edge goes: its parent is unknown, or its lineage never reaches a root and it is the first one on it. */
  ghost predicate Cut(updates: Edges, edges: Parents, db: Parents, known: set<string>, k: nat)
    requires k < |updates|
  {
    updates[k].1 !in known || (!Ends(edges, db, updates[k].0) && FirstOnLineage(updates, edges, db, k))
  }

  /** Making some sessions roots ends exactly the lineages that ended before or pass through one of them. */
  lemma {:induction false} CutLineageEnds(p: Parents, d: Parents, p': Parents, d': Parents, cut: set<string>,
                                          id: string, n: nat)
    requires forall x :: Up(p', d', x) == if x in cut then "" else Up(p, d, x)
    requires Ancestor(p, d, id, n) == "" || Ancestor(p, d, id, n) in cut
    ensures Ends(p', d', id)
    decreases n
  {
    assert Ancestor(p', d', id, 1) == Ancestor(p', d', Up(p', d', id), 0);
    if n == 0 {
      assert Ancestor(p', d', id, if id == "" then 0 else 1) == "";
    } else if id !in cut {
      CutLineageEnds(p, d, p', d', cut, Up(p, d, id), n - 1);
      var m: nat :| Ancestor(p', d', Up(p, d, id), m) == "";
      assert Ancestor(p', d', id, m + 1) == "";
    }
  }

  lemma {:induction false} EndedByCut(p: Parents, d: Parents, p': Parents, d': Parents, cut: set<string>, id: string,
                                      n: nat)
    requires forall x :: Up(p', d', x) == if x in cut then "" else Up(p, d, x)
    requires Ancestor(p', d', id, n) == ""
    ensures Ends(p, d, id) || exists m: nat :: Ancestor(p, d, id, m) in cut
    decreases n
  {
    assert Ancestor(p, d, id, 0) == id;
    if id == "" {
      assert Ancestor(p, d, id, 0) == "";
    } else if id in cut {
      assert Ancestor(p, d, id, 0) in cut;
    } else {
      EndedByCut(p, d, p', d', cut, Up(p, d, id), n - 1);
      if Ends(p, d, Up(p, d, id)) {
        var m: nat :| Ancestor(p, d, Up(p, d, id), m) == "";
        assert Ancestor(p, d, id, m + 1) == "";
      } else {
        var m: nat :| Ancestor(p, d, Up(p, d, id), m) in cut;
        assert Ancestor(p, d, id, m + 1) in cut;
      }
    }
  }

  /** What the walk sees after `k` edges: the requested lineages, with the dropped children as roots. */
  lemma ProgressUp(updates: Edges, edges: Parents, db0: Parents, db: Parents, dropped: set<string>, k: nat)
    requires Progress(updates, edges, db0, db, dropped, k)
    ensures forall x :: Up(edges - dropped, db, x) == if x in dropped then "" else Up(edges, db0, x)
  {
    forall x
      ensures Up(edges - dropped, db, x) == if x in dropped then "" else Up(edges, db0, x)
    {
      if x in dropped {
        var j :| 0 <= j < |updates| && updates[j].0 == x;
      }
    }
  }

  /** Each edge so far was dropped exactly if it is to go. */
  ghost predicate CutSoFar(updates: Edges, edges: Parents, db0: Parents, dropped: set<string>, k: nat)
    requires k <= |updates|
  {
    forall j | 0 <= j < k :: updates[j].0 in dropped <==> Cut(updates, edges, db0, db0.Keys, j)
  }

  lemma EndsFurtherUp(pending: Parents, db: Parents, id: string, n: nat)
    ensures Ends(pending, db, Ancestor(pending, db, id, n)) ==> Ends(pending, db, id)
  {
    if m: nat :| Ancestor(pending, db, Ancestor(pending, db, id, n), m) == "" {
      AncestorAdd(pending, db, id, n, m);
      assert Ancestor(pending, db, id, n + m) == "";
    }
  }

  /** An earlier session on the lineage: then the earliest such one was dropped. */
  lemma {:induction false} EarliestWasDropped(updates: Edges, edges: Parents, db0: Parents, db: Parents,
                                              dropped: set<string>, k: nat, j: nat, n: nat)
    requires Progress(updates, edges, db0, db, dropped, k) && CutSoFar(updates, edges, db0, dropped, k)
    requires k < |updates| && j < k && Ancestor(edges, db0, updates[k].0, n) == updates[j].0
    requires !Ends(edges, db0, updates[k].0)
    ensures exists m: nat :: Ancestor(edges, db0, updates[k].0, m) in dropped
    decreases j
  {
    var child := updates[k].0;
    if FirstOnLineage(updates, edges, db0, j) {
      EndsFurtherUp(edges, db0, child, n);
      assert Cut(updates, edges, db0, db0.Keys, j);
      assert Ancestor(edges, db0, child, n) in dropped;
    } else {
      var i, m: nat :| 0 <= i < j && Ancestor(edges, db0, updates[j].0, m) == updates[i].0;
      AncestorAdd(edges, db0, child, n, m);
      EarliestWasDropped(updates, edges, db0, db, dropped, k, i, n + m);
    }
  }

  /** The walk's verdict on edge `k` is the exact law. */
  lemma WalkDecidesCut(updates: Edges, edges: Parents, db0: Parents, db: Parents, dropped: set<string>, k: nat)
    requires Progress(updates, edges, db0, db, dropped, k) && CutSoFar(updates, edges, db0, dropped, k)
    requires k < |updates|
    ensures updates[k].1 in db && Ends(edges - dropped, db, updates[k].1) <==>
            !Cut(updates, edges, db0, db0.Keys, k)
  {
    var child := updates[k].0;
    var pending := edges - dropped;
    ProgressUp(updates, edges, db0, db, dropped, k);
    assert child in pending && Up(pending, db, child) == updates[k].1;
    EndsOneUp(pending, db, child);
    if Ends(pending, db, child) {
      var n: nat :| Ancestor(pending, db, child, n) == "";
      EndedByCut(edges, db0, pending, db, dropped, child, n);
      if m: nat :| Ancestor(edges, db0, child, m) in dropped {
        DroppedIsEarlier(updates, edges, db0, db, dropped, k, Ancestor(edges, db0, child, m));
      }
    } else {
      if n: nat :| Ancestor(edges, db0, child, n) == "" {
        CutLineageEnds(edges, db0, pending, db, dropped, child, n);
      }
      if j: nat, n: nat :| j < k && Ancestor(edges, db0, child, n) == updates[j].0 {
        EarliestWasDropped(updates, edges, db0, db, dropped, k, j, n);
        var m: nat :| Ancestor(edges, db0, child, m) in dropped;
        CutLineageEnds(edges, db0, pending, db, dropped, child, m);
      }
    }
  }

  lemma CutOneMore(updates: Edges, edges: Parents, db0: Parents, dropped: set<string>, k: nat, attached: bool)
    requires Lists(updates, edges) && k < |updates| && CutSoFar(updates, edges, db0, dropped, k)
    requires updates[k].0 !in dropped && (attached <==> !Cut(updates, edges, db0, db0.Keys, k))
    ensures CutSoFar(updates, edges, db0, if attached then dropped else dropped + {updates[k].0}, k + 1)
  {
  }

  lemma EndsOneUp(pending: Parents, db: Parents, id: string)
    requires id != ""
    ensures Ends(pending, db, id) <==> Ends(pending, db, Up(pending, db, id))
  {
    if Ends(pending, db, id) {
      var n: nat :| Ancestor(pending, db, id, n) == "";
      assert n > 0 && Ancestor(pending, db, Up(pending, db, id), n - 1) == "";
    }
    if n: nat :| Ancestor(pending, db, Up(pending, db, id), n) == "" {
      assert Ancestor(pending, db, id, n + 1) == "";
    }
  }

  lemma DroppedIsEarlier(updates: Edges, edges: Parents, db0: Parents, db: Parents, dropped: set<string>, k: nat,
                         id: string)
    requires Progress(updates, edges, db0, db, dropped, k) && id in dropped
    ensures exists j: nat :: j < k && updates[j].0 == id
  {
    var j :| 0 <= j < |updates| && updates[j].0 == id;
  }

  /** The result of a whole import on the parents: see `Imported`, and exactly which new edges were dropped. */
  ghost predicate Outcome(db: Parents, items: seq<Raw>, db': Parents)
    requires forall i | 0 <= i < |items| :: items[i].Session?
  {
    var updates := NewEdges(db, items);
    && db'.Keys == db.Keys + Ids(items)
    && Imported(Requested(db, items), db, db')
    && forall k | 0 <= k < |updates| :: updates[k].0 in db' &&
         (db'[updates[k].0] == "" <==> Cut(updates, Requested(db, items), db, db'.Keys, k))
  }

  /** Inserting the new sessions as roots changes no lineage, so the law reads the same on the table before. */
  lemma CutBeforeInsert(updates: Edges, edges: Parents, db: Parents, roots: Parents, k: nat)
    requires k < |updates|
    requires forall id | id in db :: id in roots && roots[id] == db[id]
    requires forall id | id in roots && id !in db :: roots[id] == ""
    ensures Cut(updates, edges, db, roots.Keys, k) <==> Cut(updates, edges, roots, roots.Keys, k)
  {
    forall n: nat
      ensures Ancestor(edges, db, updates[k].0, n) == Ancestor(edges, roots, updates[k].0, n)
    {
      SameUpSameAncestor(edges, db, edges, roots, updates[k].0, n);
    }
  }

  datatype ImportResult = ImportResult(
    ok: bool,
    imported: seq<string>,
    skipped: seq<string>,
    detached: nat,
    errors: seq<ImportError>)

  class SessionTable {
    /** Session id to parent id; "" is no parent. */
    var sessions: Parents

    /** First loop of the transaction: skip what exists, insert the rest without a parent. */
    method InsertNew(items: seq<Raw>)
      returns (imported: seq<string>, skipped: seq<string>, updates: Edges)
      requires Payload(items)
      modifies this
      ensures sessions.Keys == old(sessions).Keys + Ids(items)
      ensures forall id | id in sessions :: sessions[id] == if id in old(sessions) then old(sessions)[id] else ""
      ensures imported == NewIds(old(sessions), items) && skipped == StoredIds(old(sessions), items)
      ensures updates == NewEdges(old(sessions), items)
    {
      imported, skipped, updates := [], [], [];
      ghost var db := sessions;
      assert items[..0] == [];
      for k := 0 to |items|
        invariant Inserted(db, items, k, sessions)
        invariant imported == NewIds(db, items[..k]) && skipped == StoredIds(db, items[..k])
        invariant updates == NewEdges(db, items[..k])
      {
        NextEntry(db, items, k);
        InsertedOneMore(db, items, k, sessions);
        var id, parent := items[k].id, items[k].parent;
        if id in sessions {
          skipped := skipped + [id];
        } else {
          sessions := sessions[id := ""];
          if parent != "" {
            updates := updates + [(id, parent)];
          }
          imported := imported + [id];
        }
      }
      assert items[..|items|] == items;
    }

    /** One round of the second loop: attach the edge, unless its parent is unknown or the walk reports a cycle, in
        which case it also leaves the pending edges. */
    method AttachOne(pending: Parents, session: string, parent: string, ghost edges: Parents)
      returns (attached: bool, left: Parents)
      requires session in pending && pending[session] == parent && session != "" && session in edges
      requires session in sessions && sessions[session] == "" && Overlays(pending, sessions)
      modifies this
      ensures attached ==> parent in sessions && sessions == old(sessions)[session := parent] && left == pending
      ensures !attached ==> sessions == old(sessions) && left == pending - {session}
      ensures Acyclic(old(sessions)) ==> Acyclic(sessions)
      ensures AllEnd(pending, old(sessions), edges) ==> AllEnd(left, sessions, edges)
      ensures attached <==> parent in old(sessions) && Ends(pending, old(sessions), parent)
      ensures AllEnd(pending, old(sessions), edges) && parent in sessions ==> attached
    {
      var cycle := true;
      if parent in sessions {
        cycle := WouldCreateCycle(pending, sessions, session, parent);
        if AllEnd(pending, sessions, edges) {
          ChildEndsParentEnds(pending, sessions, session);
        }
      }
      attached := !cycle;
      if attached {
        if Acyclic(sessions) {
          AttachKeepsAcyclic(pending, sessions, session, parent);
        }
        AttachKeepsEnds(pending, sessions, session, edges);
        sessions := sessions[session := parent];
        left := pending;
      } else {
        DropKeepsEnds(pending, sessions, session, edges);
        left := pending - {session};
      }
    }

    /** The same round, seen from the whole list of edges. */
    method AttachNext(updates: Edges, k: nat, pending: Parents, ghost edges: Parents, ghost db0: Parents,
                      ghost dropped: set<string>)
      returns (attached: bool, left: Parents)
      requires Progress(updates, edges, db0, sessions, dropped, k) && k < |updates|
      requires pending == edges - dropped && CutSoFar(updates, edges, db0, dropped, k)
      modifies this
      ensures var dropped' := if attached then dropped else dropped + {updates[k].0};
              && Progress(updates, edges, db0, sessions, dropped', k + 1)
              && left == edges - dropped' && |dropped'| == |dropped| + (if attached then 0 else 1)
      ensures Acyclic(old(sessions)) ==> Acyclic(sessions)
      ensures AllEnd(pending, old(sessions), edges) ==> AllEnd(left, sessions, edges)
      ensures CutSoFar(updates, edges, db0, if attached then dropped else dropped + {updates[k].0}, k + 1)
      ensures AllEnd(pending, old(sessions), edges) && !attached ==> edges[updates[k].0] !in sessions
    {
      var (session, parent) := updates[k];
      ProgressOverlays(updates, edges, db0, sessions, dropped, k);
      ProgressStep(updates, edges, db0, sessions, dropped, k);
      DropOne(edges, dropped, session);
      WalkDecidesCut(updates, edges, db0, sessions, dropped, k);
      attached, left := AttachOne(pending, session, parent, edges);
      CutOneMore(updates, edges, db0, dropped, k, attached);
    }

    /** Second loop: exactly which edges are dropped and counted as detached, and that the graph stays acyclic. */
    method AttachEdges(updates: Edges, ghost edges: Parents) returns (detached: nat)
      requires Progress(updates, edges, sessions, sessions, {}, 0)
      modifies this
      ensures Attached(edges, old(sessions), sessions)
      ensures forall k | 0 <= k < |updates| :: updates[k].0 in sessions &&
                (sessions[updates[k].0] == "" <==> Cut(updates, edges, old(sessions), old(sessions).Keys, k))
      ensures detached == |set c | c in edges && sessions[c] == ""|
    {
      var pending: Parents := map u | u in updates :: u.0 := u.1;
      detached := 0;
      ghost var db0, dropped: set<string> := sessions, {};
      ghost var clean := AllEnd(edges, sessions, edges);
      assert pending == edges == edges - dropped;
      for k := 0 to |updates|
        invariant Progress(updates, edges, db0, sessions, dropped, k)
        invariant CutSoFar(updates, edges, db0, dropped, k)
        invariant pending == edges - dropped && detached == |dropped|
        invariant Acyclic(db0) ==> Acyclic(sessions)
        invariant clean ==> AllEnd(pending, sessions, edges)
        invariant clean ==> forall c | c in dropped :: edges[c] !in sessions
      {
        ghost var before := sessions.Keys;
        var attached, left := AttachNext(updates, k, pending, edges, db0, dropped);
        assert sessions.Keys == before;
        pending := left;
        if !attached {
          dropped := dropped + {updates[k].0};
          detached := detached + 1;
        }
      }
      ProgressEnd(updates, edges, db0, sessions, dropped);
    }

    method ImportPayload(items: seq<Raw>) returns (imported: seq<string>, skipped: seq<string>, detached: nat)
      requires Payload(items)
      modifies this
      ensures imported == NewIds(old(sessions), items) && skipped == StoredIds(old(sessions), items)
      ensures Outcome(old(sessions), items, sessions)
      ensures detached == |set c | c in Requested(old(sessions), items) && sessions[c] == ""|
    {
      ghost var db0, edges := sessions, Requested(sessions, items);
      NewEdgesAreRequested(sessions, items);
      RequestedInIds(sessions, items);
      var updates;
      imported, skipped, updates := InsertNew(items);
      ghost var roots := sessions;
      detached := AttachEdges(updates, edges);
      InsertThenAttach(edges, db0, roots, sessions);
      forall k | 0 <= k < |updates|
        ensures Cut(updates, edges, db0, roots.Keys, k) <==> Cut(updates, edges, roots, roots.Keys, k)
      {
        CutBeforeInsert(updates, edges, db0, roots, k);
      }
    }

    /** The whole import: validate, then insert and attach in one transaction. */
    method ImportSessions(raws: seq<Raw>, limits: Limits) returns (result: ImportResult)
      modifies this
      ensures result.ok <==> Acceptable(raws, limits)
      ensures result.ok <==> result.errors == []
      ensures !result.ok ==> sessions == old(sessions) && result == ImportResult(false, [], [], 0, result.errors)
      ensures result.ok ==> && Outcome(old(sessions), raws, sessions)
                            && result.imported == NewIds(old(sessions), raws)
                            && result.skipped == StoredIds(old(sessions), raws)
                            && result.detached == |set c | c in Requested(old(sessions), raws) && sessions[c] == ""|
    {
      var normalized, errors := Validate(raws, limits);
      if errors != [] {
        return ImportResult(false, [], [], 0, errors);
      }
      AcceptableIsPayload(raws, limits);
      var imported, skipped, detached := ImportPayload(normalized);
      result := ImportResult(true, imported, skipped, detached, []);
    }
  }

  /** From one payload entry's point of view: a new session ends with exactly its requested parent, or with none. */
  lemma NewSessionGetsItsParentOrNone(db: Parents, db': Parents, items: seq<Raw>, i: nat)
    requires Payload(items) && i < |items| && items[i].id !in db
    requires Outcome(db, items, db')
    ensures items[i].id in db'
    ensures db'[items[i].id] == "" || (db'[items[i].id] == items[i].parent && items[i].parent in db')
  {
    RequestedAt(db, items, i);
    assert items[i].id in Ids(items);
  }

  lemma RootInsertKeepsEnds(db: Parents, db': Parents, edges: Parents)
    requires forall id | id in db :: id in db' && db'[id] == db[id]
    requires forall id | id in db' && id !in db :: db'[id] == ""
    ensures AllEnd(edges, db, edges) ==> AllEnd(edges, db', edges)
  {
    forall c | c in edges && Ends(edges, db, c)
      ensures Ends(edges, db', c)
    {
      var n: nat :| Ancestor(edges, db, c, n) == "";
      SameUpSameAncestor(edges, db, edges, db', c, n);
    }
  }

  function Child(id: string, parent: string): Raw {
    Session(id, MessageList(0, true), Some(0), true, parent)
  }

  /** A session that hangs off a cycle of two others, listed before them. */
  const HANGER_ON := [Child("c", "a"), Child("a", "b"), Child("b", "a")]

  lemma PayloadSnoc(items: seq<Raw>, raw: Raw)
    requires Payload(items) && forall i | 0 <= i < |items| :: items[i].Session?
    requires raw.Session? && raw.id != "" && raw.id !in Ids(items)
    ensures forall i | 0 <= i < |items + [raw]| :: (items + [raw])[i].Session?
    ensures Payload(items + [raw]) && Ids(items + [raw]) == Ids(items) + {raw.id}
    ensures raw.parent != "" ==> NewEdges(map[], items + [raw]) == NewEdges(map[], items) + [(raw.id, raw.parent)]
    ensures raw.parent != "" ==> Requested(map[], items + [raw]) == Requested(map[], items)[raw.id := raw.parent]
  {
    var all := items + [raw];
    assert all[..|all| - 1] == items && all[|all| - 1] == raw;
    forall id | id in Ids(items)
      ensures id in Ids(all)
    {
      var i :| 0 <= i < |items| && items[i].id == id;
      assert all[i].id == id;
    }
    assert all[|items|].id in Ids(all);
  }

  lemma HangerOnEdges()
    ensures Payload(HANGER_ON)
    ensures NewEdges(map[], HANGER_ON) == [("c", "a"), ("a", "b"), ("b", "a")]
    ensures Requested(map[], HANGER_ON) == map["c" := "a", "a" := "b", "b" := "a"]
    ensures Ids(HANGER_ON) == {"a", "b", "c"}
  {
    var p1, p2 := [Child("c", "a")], [Child("c", "a"), Child("a", "b")];
    PayloadSnoc([], Child("c", "a"));
    assert [] + [Child("c", "a")] == p1;
    PayloadSnoc(p1, Child("a", "b"));
    assert p1 + [Child("a", "b")] == p2;
    PayloadSnoc(p2, Child("b", "a"));
    assert p2 + [Child("b", "a")] == HANGER_ON;
  }

  /** The lineages of the payload: c to a to b to a, for ever. */
  lemma {:induction false} HangerOnLineage(n: nat)
    ensures var edges := map["c" := "a", "a" := "b", "b" := "a"];
            && Ancestor(edges, map[], "a", n) in {"a", "b"}
            && Ancestor(edges, map[], "b", n) in {"a", "b"}
            && Ancestor(edges, map[], "c", n) in {"a", "b", "c"}
  {
    var edges := map["c" := "a", "a" := "b", "b" := "a"];
    if n > 0 {
      HangerOnLineage(n - 1);
      assert Ancestor(edges, map[], "c", n) == Ancestor(edges, map[], "a", n - 1);
      assert Ancestor(edges, map[], "a", n) == Ancestor(edges, map[], "b", n - 1);
      assert Ancestor(edges, map[], "b", n) == Ancestor(edges, map[], "a", n - 1);
    }
  }

  lemma HangerOnCuts(known: set<string>)
    requires known == {"a", "b", "c"}
    ensures var edges := map["c" := "a", "a" := "b", "b" := "a"];
            var updates := [("c", "a"), ("a", "b"), ("b", "a")];
            Cut(updates, edges, map[], known, 0) && Cut(updates, edges, map[], known, 1) &&
            !Cut(updates, edges, map[], known, 2)
  {
    var edges := map["c" := "a", "a" := "b", "b" := "a"];
    var updates := [("c", "a"), ("a", "b"), ("b", "a")];
    forall n: nat
      ensures Ancestor(edges, map[], "a", n) in {"a", "b"} && Ancestor(edges, map[], "c", n) in {"a", "b", "c"}
    {
      HangerOnLineage(n);
    }
    assert !Ends(edges, map[], "c") && !Ends(edges, map[], "a");
    assert updates[0].0 == "c" && updates[1].0 == "a" && updates[2].0 == "b";
    assert Ancestor(edges, map[], "b", 1) == Ancestor(edges, map[], "a", 0) == updates[1].0;
  }

  /** Safety is not maximality: every import of that payload into an empty table drops the hanger-on's edge, although
      with the table the import ends with it would close no cycle. */
  lemma HangerOnIsDetached(final: Parents)
    requires Payload(HANGER_ON) && Outcome(map[], HANGER_ON, final)
    ensures final == map["a" := "", "b" := "a", "c" := ""]
    ensures Acyclic(final) && Acyclic(final["c" := "a"])
  {
    HangerOnEdges();
    assert final.Keys == {"a", "b", "c"};
    HangerOnCuts(final.Keys);
    var updates := NewEdges(map[], HANGER_ON);
    assert updates[0].0 == "c" && updates[1].0 == "a" && updates[2].0 == "b";
    assert Requested(map[], HANGER_ON)["b"] == "a";
    LeafParentAvoids(final, "a", "c");
    AttachKeepsAcyclic(map[], final, "c", "a");
  }

  lemma LeafParentAvoids(db: Parents, root: string, child: string)
    requires root in db && db[root] == "" && root != child && child != ""
    ensures forall n: nat :: Ancestor(map[], db, root, n) != child
  {
    forall n: nat
      ensures Ancestor(map[], db, root, n) != child
    {
      if n > 0 {
        RootStaysRoot(map[], db, n - 1);
      }
    }
  }
}
