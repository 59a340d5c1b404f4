/** Per-session state behind live dictionary views.

    Each view shows one field across all sessions; a session has an entry there when the field holds something other
    than "absent". The views replace what used to be separate dictionaries, and are proved to behave like them. */
module SessionViews {
  import opened Collections

  datatype Value =
    | Nothing | Unset | Num(n: real) | Text(s: string) | Flag(b: bool) | List(items: seq<int>) | Thing(id: nat)

  datatype Field =
    | Agent | StartedTs | Lease | BusyAckTs
    | ModelOverride | OneTurnRestore | ReasoningOverride | ServiceTier | LastModel | QueuedEvents | SidecarNotes
    | EphemeralPin | VcLast
    | Approvals | UpdatePrompt | NativeImages | PendingText | RunGeneration

  const TURN: set<Field> := {Agent, StartedTs, Lease, BusyAckTs}

  const CONVERSATION: set<Field> := {
    ModelOverride, OneTurnRestore, ReasoningOverride, ServiceTier, LastModel, QueuedEvents, SidecarNotes, EphemeralPin,
    VcLast}

  function Default(f: Field): Value {
    match f
    case StartedTs => Num(0.0)
    case BusyAckTs => Num(0.0)
    case RunGeneration => Num(0.0)
    case LastModel => Text("")
    case QueuedEvents => List([])
    case SidecarNotes => List([])
    case NativeImages => List([])
    case UpdatePrompt => Flag(false)
    case ServiceTier => Unset
    case _ => Nothing
  }

  predicate Truthy(v: Value) {
    match v
    case Nothing => false
    case Unset => true
    case Num(n) => n != 0.0
    case Text(s) => s != ""
    case Flag(b) => b
    case List(items) => items != []
    case Thing(_) => true
  }

  datatype Test = NotNone | NonZero | NotUnset

  /** The presence test of each view. */
  function TestOf(f: Field): Test {
    if f in {StartedTs, BusyAckTs, RunGeneration, LastModel, QueuedEvents, SidecarNotes, NativeImages, UpdatePrompt}
    then NonZero
    else if f == ServiceTier then NotUnset
    else NotNone
  }

  predicate Passes(test: Test, v: Value) {
    match test
    case NotNone => v != Nothing
    case NonZero => Truthy(v)
    case NotUnset => v != Unset
  }

  predicate Present(f: Field, v: Value) {
    Passes(TestOf(f), v)
  }

  /** A session: the fields that differ from a new session's, and the held turn lease. */
  datatype Session = Session(fields: map<Field, Value>, token: Value, generation: Option<int>)

  const FRESH := Session(map[], Nothing, None)

  function Get(s: Session, f: Field): Value {
    if f in s.fields then s.fields[f] else Default(f)
  }

  function With(s: Session, f: Field, v: Value): Session {
    s.(fields := s.fields[f := v])
  }

  type Store = map<string, Session>

  function Find(store: Store, key: string): Session {
    if key in store then store[key] else FRESH
  }

  // ----- The operations -----

  predicate Contains(store: Store, f: Field, key: string) {
    key in store && Present(f, Get(store[key], f))
  }

  function SetItem(store: Store, f: Field, key: string, v: Value): Store {
    store[key := With(Find(store, key), f, v)]
  }

  /** None for a KeyError. */
  function DelItem(store: Store, f: Field, key: string): Option<Store> {
    if Contains(store, f, key) then Some(store[key := With(store[key], f, Default(f))]) else None
  }

  function ClearView(store: Store, f: Field): Store {
    map key | key in store :: With(store[key], f, Default(f))
  }

  function Defaults(fs: set<Field>): map<Field, Value> {
    map f | f in fs :: Default(f)
  }

  /** `TurnState.clear` and `ConversationState.clear` of one session. */
  function ClearScope(store: Store, fs: set<Field>, key: string): Store {
    if key in store then store[key := store[key].(fields := store[key].fields + Defaults(fs))] else store
  }

  predicate HoldsToken(store: Store, key: string, generation: int) {
    key in store && store[key].token != Nothing && store[key].generation == Some(generation)
  }

  function SetToken(store: Store, key: string, generation: int, v: Value): Store {
    store[key := Find(store, key).(token := v, generation := Some(generation))]
  }

  function DelToken(store: Store, key: string, generation: int): Option<Store> {
    if HoldsToken(store, key, generation) then Some(store[key := store[key].(token := Nothing, generation := None)])
    else None
  }

  // ----- What the views show -----

  type Plain = map<string, Value>

  /** What one session contributes to a view. */
  function Entry(s: Session, f: Field): Option<Value> {
    if Present(f, Get(s, f)) then Some(Get(s, f)) else None
  }

  function Shown(store: Store, f: Field): Plain {
    map key | key in store && Entry(store[key], f).Some? :: Entry(store[key], f).value
  }

  function Token(s: Session): Option<(int, Value)> {
    if s.token != Nothing && s.generation.Some? then Some((s.generation.value, s.token)) else None
  }

  ghost predicate SameTokens(a: Store, b: Store) {
    forall key :: Token(Find(a, key)) == Token(Find(b, key))
  }

  type Leases = map<(string, int), Value>

  /** The dictionary keyed by session and generation that the slots stand for. */
  ghost predicate Held(store: Store, leases: Leases) {
    forall key, generation ::
      (if (key, generation) in leases then Some((generation, leases[(key, generation)])) else None) ==
      (if HoldsToken(store, key, generation) then Token(Find(store, key)) else None)
  }

  /** Deleting resets to a value that counts as absent. */
  lemma DefaultIsAbsent(f: Field)
    ensures !Present(f, Default(f))
  {
  }

  lemma EntryOfDefault(s: Session, f: Field, fs: set<Field>)
    ensures f !in s.fields ==> Entry(s, f) == None
    ensures f in fs ==> Entry(s.(fields := s.fields + Defaults(fs)), f) == None
    ensures f !in fs ==> Entry(s.(fields := s.fields + Defaults(fs)), f) == Entry(s, f)
    ensures Entry(With(s, f, Default(f)), f) == None
  {
    DefaultIsAbsent(f);
  }

  /** One session of the store replaced: the view differs there and nowhere else. */
  lemma Replaced(store: Store, key: string, s: Session, g: Field)
    ensures Shown(store[key := s], g) ==
            if Entry(s, g).Some? then Shown(store, g)[key := Entry(s, g).value] else Shown(store, g) - {key}
  {
  }

  lemma Unmoved(store: Store, key: string, s: Session, g: Field)
    requires Entry(s, g) == Entry(Find(store, key), g)
    ensures Shown(store[key := s], g) == Shown(store, g)
  {
    EntryOfDefault(FRESH, g, {});
    Replaced(store, key, s, g);
  }

  /** Assignment is dictionary assignment for a present value and removal for an absent one; other views do not move. */
  lemma SetItemShown(store: Store, f: Field, key: string, v: Value, g: Field)
    ensures Shown(SetItem(store, f, key, v), g) ==
            if g != f then Shown(store, g)
            else if Present(f, v) then Shown(store, f)[key := v]
            else Shown(store, f) - {key}
    ensures SameTokens(SetItem(store, f, key, v), store)
  {
    var s := With(Find(store, key), f, v);
    Replaced(store, key, s, g);
    if g != f {
      Unmoved(store, key, s, g);
    }
  }

  lemma DelItemShown(store: Store, f: Field, key: string, g: Field)
    ensures DelItem(store, f, key).Some? <==> key in Shown(store, f)
    ensures DelItem(store, f, key).Some? ==>
              && Shown(DelItem(store, f, key).value, g) == (if g == f then Shown(store, f) - {key} else Shown(store, g))
              && SameTokens(DelItem(store, f, key).value, store)
  {
    if DelItem(store, f, key).Some? {
      DefaultIsAbsent(f);
      SetItemShown(store, f, key, Default(f), g);
    }
  }

  lemma SameEntries(a: Store, b: Store, g: Field)
    requires a.Keys == b.Keys && forall key | key in a :: Entry(a[key], g) == Entry(b[key], g)
    ensures Shown(a, g) == Shown(b, g)
  {
  }

  lemma NoEntries(a: Store, g: Field)
    requires forall key | key in a :: Entry(a[key], g) == None
    ensures Shown(a, g) == map[]
  {
  }

  lemma ClearViewShown(store: Store, f: Field, g: Field)
    ensures Shown(ClearView(store, f), g) == if g == f then map[] else Shown(store, g)
    ensures SameTokens(ClearView(store, f), store)
  {
    var after := ClearView(store, f);
    forall key | key in after
      ensures Entry(after[key], g) == if g == f then None else Entry(store[key], g)
    {
      EntryOfDefault(store[key], g, {});
    }
    if g == f {
      NoEntries(after, g);
    } else {
      SameEntries(after, store, g);
    }
  }

  /** A scope's clear empties exactly its own fields of one session, never the lease. */
  lemma ClearScopeShown(store: Store, fs: set<Field>, key: string, g: Field)
    ensures Shown(ClearScope(store, fs, key), g) == if g in fs then Shown(store, g) - {key} else Shown(store, g)
    ensures SameTokens(ClearScope(store, fs, key), store)
  {
    if key in store {
      var s := store[key].(fields := store[key].fields + Defaults(fs));
      EntryOfDefault(store[key], g, fs);
      Replaced(store, key, s, g);
      if g !in fs {
        Unmoved(store, key, s, g);
      }
    } else if g in fs {
      assert Shown(store, g) - {key} == Shown(store, g);
    }
  }

  /** The leases of all other sessions. */
  function Without(leases: Leases, key: string): Leases {
    map lease | lease in leases && lease.0 != key :: leases[lease]
  }

  /** What a set leaves in the slots: the token alone for its session, and nothing when the token is None. */
  lemma SetTokenLeaves(store: Store, leases: Leases, key: string, generation: int, v: Value)
    requires Held(store, leases)
    ensures Held(SetToken(store, key, generation, v),
                 if v == Nothing then Without(leases, key) else Without(leases, key)[(key, generation) := v])
  {
    var after := SetToken(store, key, generation, v);
    var left := if v == Nothing then Without(leases, key) else Without(leases, key)[(key, generation) := v];
    forall k, n
      ensures (if (k, n) in left then Some((n, left[(k, n)])) else None) ==
              (if HoldsToken(after, k, n) then Token(Find(after, k)) else None)
    {
      if k != key {
        assert HoldsToken(after, k, n) == HoldsToken(store, k, n);
      }
    }
  }

  /** The single slot behaves like the dictionary keyed by session and generation exactly as long as the token is not
      None and no other generation holds the session's. */
  lemma SetTokenHeld(store: Store, leases: Leases, key: string, generation: int, v: Value, f: Field)
    requires Held(store, leases)
    ensures Held(SetToken(store, key, generation, v), leases[(key, generation) := v])
            <==> v != Nothing && forall other | (key, other) in leases :: other == generation
    ensures Shown(SetToken(store, key, generation, v), f) == Shown(store, f)
  {
    var after := SetToken(store, key, generation, v);
    var set' := leases[(key, generation) := v];
    Unmoved(store, key, after[key], f);
    if v == Nothing {
      assert (key, generation) in set' && !HoldsToken(after, key, generation);
    } else if other :| (key, other) in leases && other != generation {
      assert (key, other) in set' && !HoldsToken(after, key, other);
    } else {
      forall k, n
        ensures (if (k, n) in set' then Some((n, set'[(k, n)])) else None) ==
                (if HoldsToken(after, k, n) then Token(Find(after, k)) else None)
      {
        if k != key {
          assert HoldsToken(after, k, n) == HoldsToken(store, k, n);
        }
      }
    }
  }

  /** A release succeeds only for the generation that holds the token; a stale one finds nothing. */
  lemma DelTokenHeld(store: Store, leases: Leases, key: string, generation: int, f: Field)
    requires Held(store, leases)
    ensures DelToken(store, key, generation).Some? <==> (key, generation) in leases
    ensures DelToken(store, key, generation).Some? ==>
              && Held(DelToken(store, key, generation).value, leases - {(key, generation)})
              && Shown(DelToken(store, key, generation).value, f) == Shown(store, f)
  {
    assert HoldsToken(store, key, generation) <==> (key, generation) in leases;
    if DelToken(store, key, generation).Some? {
      var after := DelToken(store, key, generation).value;
      var left := leases - {(key, generation)};
      Unmoved(store, key, after[key], f);
      forall k, n
        ensures (if (k, n) in left then Some((n, left[(k, n)])) else None) ==
                (if HoldsToken(after, k, n) then Token(Find(after, k)) else None)
      {
        assert HoldsToken(store, k, n) <==> (k, n) in leases;
        if k != key {
          assert HoldsToken(after, k, n) == HoldsToken(store, k, n);
        }
      }
    }
  }

  lemma SameTokensHeld(a: Store, b: Store, leases: Leases)
    requires SameTokens(a, b) && Held(a, leases)
    ensures Held(b, leases)
  {
    forall key, generation
      ensures HoldsToken(a, key, generation) == HoldsToken(b, key, generation)
    {
      assert Token(Find(a, key)) == Token(Find(b, key));
    }
  }

  // ----- Runs against plain dictionaries -----

  datatype Op =
    | Put(f: Field, key: string, v: Value)
    | Del(f: Field, key: string)
    | Clear(f: Field)
    | EndTurn(key: string)
    | Boundary(key: string)

  /** A failed delete raises and changes nothing. */
  function Do(store: Store, op: Op): Store {
    match op
    case Put(f, key, v) => SetItem(store, f, key, v)
    case Del(f, key) => if DelItem(store, f, key).Some? then DelItem(store, f, key).value else store
    case Clear(f) => ClearView(store, f)
    case EndTurn(key) => ClearScope(store, TURN, key)
    case Boundary(key) => ClearScope(store, CONVERSATION, key)
  }

  function RunOps(store: Store, ops: seq<Op>): Store
    decreases |ops|
  {
    if ops == [] then store else RunOps(Do(store, ops[0]), ops[1..])
  }

  /** The same on the separate dictionary that one field used to be. */
  function DoPlain(plain: Plain, g: Field, op: Op): Plain {
    match op
    case Put(f, key, v) => if f == g then plain[key := v] else plain
    case Del(f, key) => if f == g then plain - {key} else plain
    case Clear(f) => if f == g then map[] else plain
    case EndTurn(key) => if g in TURN then plain - {key} else plain
    case Boundary(key) => if g in CONVERSATION then plain - {key} else plain
  }

  function RunPlain(plain: Plain, g: Field, ops: seq<Op>): Plain
    decreases |ops|
  {
    if ops == [] then plain else RunPlain(DoPlain(plain, g, ops[0]), g, ops[1..])
  }

  /** One step of a view is one step of its dictionary, except exactly when an absent value is stored. */
  lemma StepRefinesIff(store: Store, op: Op, g: Field)
    ensures Shown(Do(store, op), g) == DoPlain(Shown(store, g), g, op) <==> !(op.Put? && op.f == g && !Present(g, op.v))
    ensures SameTokens(Do(store, op), store)
  {
    match op
    case Put(f, key, v) =>
      SetItemShown(store, f, key, v, g);
      if f == g && !Present(g, v) {
        assert key in DoPlain(Shown(store, g), g, op);
      }
    case Del(f, key) =>
      DelItemShown(store, f, key, g);
      if key !in Shown(store, f) {
        assert Shown(store, f) - {key} == Shown(store, f);
      }
    case Clear(f) => ClearViewShown(store, f, g);
    case EndTurn(key) => ClearScopeShown(store, TURN, key, g);
    case Boundary(key) => ClearScopeShown(store, CONVERSATION, key, g);
  }

  /** Over any run that stores only present values in it, a view equals the dictionary it replaced, whatever happens to
      the other views meanwhile. */
  lemma {:induction false} RunRefines(store: Store, ops: seq<Op>, g: Field)
    requires forall op | op in ops :: op.Put? && op.f == g ==> Present(g, op.v)
    ensures Shown(RunOps(store, ops), g) == RunPlain(Shown(store, g), g, ops)
    decreases |ops|
  {
    if ops != [] {
      StepRefinesIff(store, ops[0], g);
      RunRefines(Do(store, ops[0]), ops[1..], g);
    }
  }

  /** No operation on the views, and no end of a turn or boundary, releases or moves a turn lease. */
  lemma {:induction false} LeasesUntouched(store: Store, ops: seq<Op>, leases: Leases)
    requires Held(store, leases)
    ensures Held(RunOps(store, ops), leases)
    decreases |ops|
  {
    if ops != [] {
      StepRefinesIff(store, ops[0], Agent);
      SameTokensHeld(store, Do(store, ops[0]), leases);
      LeasesUntouched(Do(store, ops[0]), ops[1..], leases);
    }
  }

  datatype LeaseOp =
    | Acquire(key: string, generation: int, v: Value)
    | Release(key: string, generation: int)
    | View(op: Op)

  function DoLease(store: Store, op: LeaseOp): Store {
    match op
    case Acquire(key, generation, v) => SetToken(store, key, generation, v)
    case Release(key, generation) =>
      if DelToken(store, key, generation).Some? then DelToken(store, key, generation).value else store
    case View(op) => Do(store, op)
  }

  /** The same on the dictionary keyed by session and generation. */
  function DoKeyed(leases: Leases, op: LeaseOp): Leases {
    match op
    case Acquire(key, generation, v) => leases[(key, generation) := v]
    case Release(key, generation) => leases - {(key, generation)}
    case View(_) => leases
  }

  /** The slots stand for the dictionary before, between and after the operations. */
  ghost predicate HeldThroughout(store: Store, leases: Leases, ops: seq<LeaseOp>)
    decreases |ops|
  {
    Held(store, leases) && (ops != [] ==> HeldThroughout(DoLease(store, ops[0]), DoKeyed(leases, ops[0]), ops[1..]))
  }

  ghost predicate Free(leases: Leases, op: LeaseOp) {
    op.Acquire? ==> op.v != Nothing && forall other | (op.key, other) in leases :: other == op.generation
  }

  /** No token is set to None, nor while another generation of its session holds one. */
  ghost predicate Uncontended(leases: Leases, ops: seq<LeaseOp>)
    decreases |ops|
  {
    ops == [] || (Free(leases, ops[0]) && Uncontended(DoKeyed(leases, ops[0]), ops[1..]))
  }

  lemma LeaseStepHeldIff(store: Store, leases: Leases, op: LeaseOp)
    requires Held(store, leases)
    ensures Held(DoLease(store, op), DoKeyed(leases, op)) <==> Free(leases, op)
  {
    match op
    case Acquire(key, generation, v) => SetTokenHeld(store, leases, key, generation, v, Agent);
    case Release(key, generation) =>
      DelTokenHeld(store, leases, key, generation, Agent);
      if (key, generation) !in leases {
        assert leases - {(key, generation)} == leases;
      }
    case View(op) =>
      StepRefinesIff(store, op, Agent);
      SameTokensHeld(store, Do(store, op), leases);
  }

  /** Over any run of sets, releases and field operations, one slot a session is as good as the dictionary keyed by
      session and generation exactly if no token is set to None, nor while another generation holds one. */
  lemma {:induction false} LeaseRunsHeldIff(store: Store, leases: Leases, ops: seq<LeaseOp>)
    requires Held(store, leases)
    ensures HeldThroughout(store, leases, ops) <==> Uncontended(leases, ops)
    decreases |ops|
  {
    if ops != [] {
      LeaseStepHeldIff(store, leases, ops[0]);
      if Free(leases, ops[0]) {
        LeaseRunsHeldIff(DoLease(store, ops[0]), DoKeyed(leases, ops[0]), ops[1..]);
      }
    }
  }

  /** A newer generation takes the slot; the older one still has its entry in the dictionary, and can no longer release
      its token. */
  lemma NewerGenerationTakesSlot(key: string, v: Value, w: Value)
    ensures var ops := [Acquire(key, 1, v), Acquire(key, 2, w)];
            !HeldThroughout(map[], map[], ops)
    ensures DelToken(SetToken(SetToken(map[], key, 1, v), key, 2, w), key, 1) == None
  {
    var ops := [Acquire(key, 1, v), Acquire(key, 2, w)];
    LeaseRunsHeldIff(map[], map[], ops);
    var held := DoKeyed(map[], ops[0]);
    assert (key, 1) in held && !Free(held, ops[1..][0]);
  }

  /** Storing the value that counts as absent: the dictionary has an entry, the view does not. */
  lemma StoredAbsentIsNotShown(key: string)
    ensures key !in Shown(Do(map[], Put(LastModel, key, Text(""))), LastModel)
    ensures key in DoPlain(Shown(map[], LastModel), LastModel, Put(LastModel, key, Text("")))
  {
    SetItemShown(map[], LastModel, key, Text(""), LastModel);
  }

  /** Turns ending and boundaries passing never reset the run generation, nor anything else with its own lifecycle. */
  lemma {:induction false} PersistentSurvives(store: Store, ops: seq<Op>, g: Field)
    requires g !in TURN + CONVERSATION
    requires forall op | op in ops :: op.EndTurn? || op.Boundary?
    ensures Shown(RunOps(store, ops), g) == Shown(store, g)
    decreases |ops|
  {
    if ops != [] {
      assert ops[0] in ops;
      StepRefinesIff(store, ops[0], g);
      PersistentSurvives(Do(store, ops[0]), ops[1..], g);
    }
  }

  // ----- The objects -----

  /** The entries of a dictionary that a view can show. */
  function Kept(f: Field, mapping: Plain): Plain {
    map key | key in mapping && Present(f, mapping[key]) :: mapping[key]
  }

  lemma KeptOneMore(f: Field, mapping: Plain, left: set<string>, key: string)
    requires key in left && key in mapping
    ensures Kept(f, mapping - (left - {key})) ==
            if Present(f, mapping[key]) then Kept(f, mapping - left)[key := mapping[key]]
            else Kept(f, mapping - left) - {key}
  {
  }

  class SessionState {
    var fields: map<Field, Value>
    var token: Value
    var generation: Option<int>

    constructor ()
      ensures fields == map[] && token == Nothing && generation == None
    {
      fields, token, generation := map[], Nothing, None;
    }
  }

  class Runner {
    var sessions: map<string, SessionState>

    /** Sessions do not share state. */
    ghost predicate Valid()
      reads this
    {
      forall a, b | a in sessions && b in sessions && a != b :: sessions[a] != sessions[b]
    }

    ghost function Contents(): Store
      reads this, sessions.Values
    {
      map key | key in sessions :: Session(sessions[key].fields, sessions[key].token, sessions[key].generation)
    }

    constructor ()
      ensures Valid() && Contents() == map[]
    {
      sessions := map[];
    }

    /** The session's state, made on first use. */
    method SessionFor(key: string) returns (state: SessionState)
      requires Valid()
      modifies this
      ensures Valid() && key in sessions && sessions[key] == state
      ensures fresh(sessions.Values - old(sessions.Values))
      ensures Contents() == old(Contents())[key := Find(old(Contents()), key)]
    {
      if key !in sessions {
        var made := new SessionState();
        sessions := sessions[key := made];
      }
      state := sessions[key];
    }

    method Assign(f: Field, key: string, v: Value)
      requires Valid()
      modifies this, sessions.Values
      ensures Valid() && fresh(sessions.Values - old(sessions.Values))
      ensures Contents() == SetItem(old(Contents()), f, key, v)
    {
      var state := SessionFor(key);
      state.fields := state.fields[f := v];
    }

    method Delete(f: Field, key: string) returns (found: bool)
      requires Valid()
      modifies sessions.Values
      ensures Valid() && found == DelItem(old(Contents()), f, key).Some?
      ensures Contents() == if found then DelItem(old(Contents()), f, key).value else old(Contents())
    {
      if key !in sessions {
        return false;
      }
      var state := sessions[key];
      if !Present(f, if f in state.fields then state.fields[f] else Default(f)) {
        return false;
      }
      state.fields := state.fields[f := Default(f)];
      found := true;
    }

    /** The loop over every known session. */
    method ClearField(f: Field)
      requires Valid()
      modifies sessions.Values
      ensures Valid() && Contents() == ClearView(old(Contents()), f)
    {
      var left := sessions.Keys;
      while left != {}
        invariant left <= sessions.Keys && sessions == old(sessions)
        invariant forall key | key in left :: sessions[key].fields == old(sessions[key].fields)
        invariant forall key | key in sessions.Keys - left ::
            sessions[key].fields == old(sessions[key].fields)[f := Default(f)]
        invariant forall key | key in sessions ::
            sessions[key].token == old(sessions[key].token) && sessions[key].generation == old(sessions[key].generation)
        decreases left
      {
        ghost var some := MemberOf(left);
        var key :| key in left;
        var state := sessions[key];
        state.fields := state.fields[f := Default(f)];
        left := left - {key};
      }
    }

    /** Assigning a whole dictionary: clear, then the entries one by one. */
    method ReplaceField(f: Field, mapping: Plain)
      requires Valid()
      modifies this, sessions.Values
      ensures Valid() && fresh(sessions.Values - old(sessions.Values))
      ensures Shown(Contents(), f) == Kept(f, mapping)
      ensures forall g | g != f :: Shown(Contents(), g) == old(Shown(Contents(), g))
    {
      ghost var before := Contents();
      ClearField(f);
      forall g
        ensures Shown(Contents(), g) == if g == f then map[] else Shown(before, g)
      {
        ClearViewShown(before, f, g);
      }
      var left := mapping.Keys;
      while left != {}
        invariant Valid() && fresh(sessions.Values - old(sessions.Values)) && left <= mapping.Keys
        invariant Shown(Contents(), f) == Kept(f, mapping - left)
        invariant forall g | g != f :: Shown(Contents(), g) == Shown(before, g)
        decreases left
      {
        ghost var some := MemberOf(left);
        var key :| key in left;
        ghost var prior := Contents();
        Assign(f, key, mapping[key]);
        forall g
          ensures Shown(Contents(), g) == if g == f then Shown(Contents(), f) else Shown(prior, g)
        {
          SetItemShown(prior, f, key, mapping[key], g);
        }
        SetItemShown(prior, f, key, mapping[key], f);
        KeptOneMore(f, mapping, left, key);
        left := left - {key};
      }
      assert mapping - {} == mapping;
    }

    method ClearTurn(key: string)
      requires Valid()
      modifies sessions.Values
      ensures Valid() && Contents() == ClearScope(old(Contents()), TURN, key)
    {
      if key in sessions {
        var state := sessions[key];
        state.fields := state.fields + Defaults(TURN);
      }
    }

    method RebindToken(key: string, generation: int, v: Value)
      requires Valid()
      modifies this, sessions.Values
      ensures Valid() && Contents() == SetToken(old(Contents()), key, generation, v)
    {
      var state := SessionFor(key);
      state.token, state.generation := v, Some(generation);
    }

    method ReleaseToken(key: string, generation: int) returns (released: bool)
      requires Valid()
      modifies sessions.Values
      ensures Valid() && released == DelToken(old(Contents()), key, generation).Some?
      ensures Contents() == if released then DelToken(old(Contents()), key, generation).value else old(Contents())
    {
      if key !in sessions || sessions[key].token == Nothing || sessions[key].generation != Some(generation) {
        return false;
      }
      var state := sessions[key];
      state.token, state.generation := Nothing, None;
      released := true;
    }
  }
}
