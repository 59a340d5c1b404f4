/** Importing sessions: the parent graph stays acyclic.

    A session's parent is a string; "" stands for NULL or the empty string, both of which end a lineage. */
module Lineage {
  type Parents = map<string, string>

  /** The parent the walk moves to: a pending or attached edge of this import first, the stored row otherwise, and
      nothing for an unknown session. */
  function Up(pending: Parents, db: Parents, id: string): string {
    if id == "" then "" else if id in pending then pending[id] else if id in db then db[id] else ""
  }

  function Ancestor(pending: Parents, db: Parents, id: string, n: nat): string
    decreases n
  {
    if n == 0 then id else Ancestor(pending, db, Up(pending, db, id), n - 1)
  }

  /** The lineage of `id` reaches a root. */
  ghost predicate Ends(pending: Parents, db: Parents, id: string) {
    exists n: nat :: Ancestor(pending, db, id, n) == ""
  }

  /** No session is its own ancestor. */
  ghost predicate Acyclic(db: Parents) {
    forall id, n: nat | id in db && id != "" && n > 0 :: Ancestor(map[], db, id, n) != id
  }

  lemma {:induction false} AncestorAdd(pending: Parents, db: Parents, id: string, m: nat, n: nat)
    ensures Ancestor(pending, db, id, m + n) == Ancestor(pending, db, Ancestor(pending, db, id, m), n)
    decreases m
  {
    if m == 0 {
    } else {
      AncestorAdd(pending, db, Up(pending, db, id), m - 1, n);
    }
  }

  lemma {:induction false} RootStaysRoot(pending: Parents, db: Parents, n: nat)
    ensures Ancestor(pending, db, "", n) == ""
  {
    if n == 0 {
    } else {
      RootStaysRoot(pending, db, n - 1);
    }
  }

  /** A lineage that comes back to where it has been never ends. */
  lemma {:induction false} RevisitNeverEnds(pending: Parents, db: Parents, id: string, i: nat, k: nat, n: nat)
    requires i < k && Ancestor(pending, db, id, i) == Ancestor(pending, db, id, k)
    requires forall j: nat | j < k :: Ancestor(pending, db, id, j) != ""
    ensures Ancestor(pending, db, id, n) != ""
    decreases n
  {
    if n < k {
    } else {
      AncestorAdd(pending, db, id, k, n - k);
      AncestorAdd(pending, db, id, i, n - k);
      RevisitNeverEnds(pending, db, id, i, k, i + n - k);
    }
  }

  /** `_would_create_cycle`, for an edge that is itself pending. It terminates, and it answers true exactly when the
      requested parent's lineage never reaches a root: also when that lineage runs into somebody else's cycle. */
  method WouldCreateCycle(pending: Parents, db: Parents, session: string, parent: string)
    returns (cycle: bool)
    requires session != "" && session in pending && pending[session] == parent
    ensures cycle <==> !Ends(pending, db, parent)
    ensures !cycle ==> forall n: nat :: Ancestor(pending, db, parent, n) != session
  {
    ghost var universe := {session} + pending.Keys + db.Keys;
    ghost var k: nat := 0;
    var seen, current := {session}, parent;
    while current != ""
      invariant current == Ancestor(pending, db, parent, k)
      invariant forall j: nat | j < k :: Ancestor(pending, db, parent, j) != ""
      invariant forall j: nat | j < k :: Ancestor(pending, db, parent, j) in seen
      invariant forall j: nat | j < k :: Ancestor(pending, db, parent, j) != session
      invariant forall x | x in seen :: x == session || exists j: nat :: j < k && Ancestor(pending, db, parent, j) == x
      invariant seen <= universe
      decreases universe - seen
    {
      AncestorAdd(pending, db, parent, k, 1);
      assert Ancestor(pending, db, current, 1) == Ancestor(pending, db, Up(pending, db, current), 0);
      if current in seen {
        forall n: nat
          ensures Ancestor(pending, db, parent, n) != ""
        {
          if current == session {
            RevisitNeverEnds(pending, db, parent, 0, k + 1, n);
          } else {
            var j: nat :| j < k && Ancestor(pending, db, parent, j) == current;
            RevisitNeverEnds(pending, db, parent, j, k, n);
          }
        }
        return true;
      }
      if current !in pending && current !in db {
        assert Ancestor(pending, db, parent, k + 1) == "";
        EndedChainAvoids(pending, db, parent, k + 1, session);
        return false;
      }
      seen := seen + {current};
      current := Up(pending, db, current);
      k := k + 1;
    }
    EndedChainAvoids(pending, db, parent, k, session);
    return false;
  }

  lemma EndedChainAvoids(pending: Parents, db: Parents, id: string, k: nat, session: string)
    requires session != "" && Ancestor(pending, db, id, k) == ""
    requires forall j: nat | j < k :: Ancestor(pending, db, id, j) != session
    ensures Ends(pending, db, id)
    ensures forall n: nat :: Ancestor(pending, db, id, n) != session
  {
    forall n: nat
      ensures Ancestor(pending, db, id, n) != session
    {
      if n >= k {
        AncestorAdd(pending, db, id, k, n - k);
        RootStaysRoot(pending, db, n - k);
      }
    }
  }

  // ----- Attaching one edge -----

  /** Every stored edge is one the walk sees: pending edges of sessions that still have no parent come on top. */
  ghost predicate Overlays(pending: Parents, db: Parents) {
    forall id | id in db && id != "" && db[id] != "" :: Up(pending, db, id) == db[id]
  }

  lemma {:induction false} StoredChainIsSeen(pending: Parents, db: Parents, id: string, n: nat)
    requires Overlays(pending, db)
    ensures Ancestor(map[], db, id, n) == "" || Ancestor(map[], db, id, n) == Ancestor(pending, db, id, n)
    decreases n
  {
    if n == 0 {
    } else if Up(map[], db, id) == "" {
      RootStaysRoot(map[], db, n - 1);
    } else {
      StoredChainIsSeen(pending, db, Up(map[], db, id), n - 1);
    }
  }

  lemma {:induction false} ChainAvoidingChild(db: Parents, child: string, parent: string, id: string, n: nat)
    requires forall j: nat | j < n :: Ancestor(map[], db, id, j) != child
    ensures Ancestor(map[], db[child := parent], id, n) == Ancestor(map[], db, id, n)
    decreases n
  {
    if n == 0 {
    } else {
      assert Ancestor(map[], db, id, 0) != child;
      forall j: nat | j < n - 1
        ensures Ancestor(map[], db, Up(map[], db, id), j) != child
      {
        assert Ancestor(map[], db, id, j + 1) != child;
      }
      ChainAvoidingChild(db, child, parent, Up(map[], db, id), n - 1);
    }
  }

  /** An edge the walk lets through closes no cycle. */
  lemma AttachKeepsAcyclic(pending: Parents, db: Parents, child: string, parent: string)
    requires Acyclic(db) && Overlays(pending, db)
    requires child != "" && forall n: nat :: Ancestor(pending, db, parent, n) != child
    ensures Acyclic(db[child := parent])
  {
    var db' := db[child := parent];
    forall n: nat
      ensures Ancestor(map[], db, parent, n) != child
    {
      StoredChainIsSeen(pending, db, parent, n);
    }
    forall n: nat
      ensures Ancestor(map[], db', parent, n) != child
    {
      ChainAvoidingChild(db, child, parent, parent, n);
    }
    forall id, n: nat | id in db' && id != "" && n > 0
      ensures Ancestor(map[], db', id, n) != id
    {
      if id == child {
        assert Ancestor(map[], db', id, n) == Ancestor(map[], db', parent, n - 1);
      } else if Ancestor(map[], db', id, n) == id {
        CycleAvoidsChild(db', child, parent, id, n);
        NoChildInOldChain(db, child, parent, id, n);
        ChainAvoidingChild(db, child, parent, id, n);
      }
    }
  }

  lemma CycleThroughChild(db: Parents, child: string, parent: string, id: string, n: nat, j: nat)
    requires child != "" && Up(map[], db, child) == parent
    requires j < n && Ancestor(map[], db, id, n) == id && Ancestor(map[], db, id, j) == child
    ensures Ancestor(map[], db, parent, n - 1) == child
  {
    AncestorAdd(map[], db, id, j, n - j);
    AncestorAdd(map[], db, child, n - j, j);
    assert Ancestor(map[], db, child, n) == Ancestor(map[], db, parent, n - 1);
  }

  /** A cycle through the new edge would bring the parent's lineage back to the child. */
  lemma CycleAvoidsChild(db: Parents, child: string, parent: string, id: string, n: nat)
    requires child != "" && Up(map[], db, child) == parent
    requires forall m: nat :: Ancestor(map[], db, parent, m) != child
    requires n > 0 && Ancestor(map[], db, id, n) == id
    ensures forall j: nat | j < n :: Ancestor(map[], db, id, j) != child
  {
    forall j: nat | j < n
      ensures Ancestor(map[], db, id, j) != child
    {
      if Ancestor(map[], db, id, j) == child {
        CycleThroughChild(db, child, parent, id, n, j);
      }
    }
  }

  lemma {:induction false} NoChildInOldChain(db: Parents, child: string, parent: string, id: string, n: nat)
    requires var db' := db[child := parent]; forall j: nat | j < n :: Ancestor(map[], db', id, j) != child
    ensures forall j: nat | j < n :: Ancestor(map[], db, id, j) != child
    decreases n
  {
    if n > 0 {
      NoChildInOldChain(db, child, parent, id, n - 1);
      ChainAvoidingChild(db, child, parent, id, n - 1);
      assert Ancestor(map[], db[child := parent], id, n - 1) != child;
    }
  }
}
