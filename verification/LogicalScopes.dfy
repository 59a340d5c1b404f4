/** Lifetime of the logical LLM scopes of a turn, and the registry of active turns.

    Every operation on a turn runs under its finalize lock, so each is one step. Handles are numbered in the order
    the Relay hands them out; `popped` is the log of successful pops. */
module LogicalScopes {
  import opened Collections

  /** `calls` is the insertion-ordered dictionary from request ids to handles, `own` the turn's own scope while it is
      open; `managed` says the lease has a Relay session at all. */
  datatype Turn = Turn(
    managed: bool,
    closed: bool,
    own: Option<nat>,
    calls: seq<(string, nat)>,
    nextHandle: nat,
    popped: seq<nat>)

  /** `begin_turn`: the turn's own scope is pushed first, and the turn goes on without one when that fails. */
  function Fresh(managed: bool, pushOk: bool): Turn {
    if managed && pushOk then Turn(managed, false, Some(0), [], 1, []) else Turn(managed, false, None, [], 0, [])
  }

  function Lookup(calls: seq<(string, nat)>, id: string): Option<nat> {
    var i := IndexOf(calls, id);
    if i < |calls| then Some(calls[i].1) else None
  }

  /** `_logical_parent`: the handle of this request, pushed on first use, and none on a closed turn. */
  function Parent(t: Turn, id: string): (Turn, Option<nat>) {
    if !t.managed || id == "" || t.closed then (t, None)
    else if Lookup(t.calls, id).Some? then (t, Lookup(t.calls, id))
    else (t.(calls := t.calls + [(id, t.nextHandle)], nextHandle := t.nextHandle + 1), Some(t.nextHandle))
  }

  /** `_complete_logical`: pop the handle if it is still the one registered; a failed pop keeps it for later. */
  function Complete(t: Turn, id: string, handle: nat, popOk: bool): Turn {
    if !t.managed || Lookup(t.calls, id) != Some(handle) || !popOk then t
    else
      var i := IndexOf(t.calls, id);
      t.(calls := t.calls[..i] + t.calls[i + 1..], popped := t.popped + [handle])
  }

  /** `_finish_logical_calls` from the newest call down; the first failing pop ends it. `pops` answers the attempts. */
  function FinishCalls(t: Turn, pops: seq<bool>): Turn
    decreases |t.calls|
  {
    if !t.managed || t.calls == [] || pops == [] || !pops[0] then t
    else
      var last := |t.calls| - 1;
      FinishCalls(t.(calls := t.calls[..last], popped := t.popped + [t.calls[last].1]), pops[1..])
  }

  function Finish(t: Turn, pops: seq<bool>): Turn {
    if t.closed then t else FinishCalls(t, pops)
  }

  /** The turn's own scope goes last, whatever became of the calls. */
  function PopOwn(t: Turn, popOk: bool): Turn {
    if t.managed && t.own.Some? && popOk then t.(own := None, popped := t.popped + [t.own.value]) else t
  }

  function EndTurn(t: Turn, pops: seq<bool>, ownPop: bool): Turn {
    if t.closed then t else PopOwn(FinishCalls(t.(closed := true), pops), ownPop)
  }

  function Handles(calls: seq<(string, nat)>): seq<nat> {
    seq(|calls|, i requires 0 <= i < |calls| => calls[i].1)
  }

  function Reversed(s: seq<nat>): seq<nat> {
    seq(|s|, i requires 0 <= i < |s| => s[|s| - 1 - i])
  }

  // ----- Conservation -----

  function OwnScope(t: Turn): multiset<nat> {
    if t.own.Some? then multiset{t.own.value} else multiset{}
  }

  ghost predicate Inv(t: Turn) {
    && (forall i, j | 0 <= i < j < |t.calls| :: t.calls[i].0 != t.calls[j].0)
    && (forall h :: multiset(Handles(t.calls))[h] + multiset(t.popped)[h] + OwnScope(t)[h] ==
                  if 0 <= h < t.nextHandle then 1 else 0)
  }

  /** The handle is open: a registered call's or the turn's own. */
  predicate IsOpen(t: Turn, h: nat) {
    h in Handles(t.calls) || t.own == Some(h)
  }

  /** Handles are conserved: each one ever pushed is either open or was popped, and never both or twice. */
  lemma InvMeansConserved(t: Turn, h: nat)
    requires Inv(t)
    ensures h < t.nextHandle <==> (IsOpen(t, h) || h in t.popped)
    ensures !(IsOpen(t, h) && h in t.popped)
    ensures multiset(t.popped)[h] <= 1
  {
    assert multiset(Handles(t.calls))[h] + multiset(t.popped)[h] + OwnScope(t)[h] == if h < t.nextHandle then 1 else 0;
  }

  lemma HandlesAppend(a: seq<(string, nat)>, b: seq<(string, nat)>)
    ensures Handles(a + b) == Handles(a) + Handles(b)
    ensures multiset(Handles(a + b)) == multiset(Handles(a)) + multiset(Handles(b))
  {
    assert Handles(a + b) == Handles(a) + Handles(b);
  }

  lemma RemoveOne(calls: seq<(string, nat)>, i: nat)
    requires i < |calls|
    ensures multiset(Handles(calls)) == multiset(Handles(calls[..i] + calls[i + 1..])) + multiset{calls[i].1}
  {
    var mid := [calls[i]];
    assert calls == calls[..i] + (mid + calls[i + 1..]);
    HandlesAppend(calls[..i], mid + calls[i + 1..]);
    HandlesAppend(mid, calls[i + 1..]);
    HandlesAppend(calls[..i], calls[i + 1..]);
    assert Handles(mid) == [calls[i].1];
  }

  lemma ParentKeepsInv(t: Turn, id: string)
    requires Inv(t)
    ensures Inv(Parent(t, id).0)
  {
    if !(!t.managed || id == "" || t.closed) && Lookup(t.calls, id).None? {
      HandlesAppend(t.calls, [(id, t.nextHandle)]);
      assert Handles([(id, t.nextHandle)]) == [t.nextHandle];
    }
  }

  lemma PopKeepsInv(t: Turn, i: nat)
    requires Inv(t) && i < |t.calls|
    ensures Inv(t.(calls := t.calls[..i] + t.calls[i + 1..], popped := t.popped + [t.calls[i].1]))
  {
    RemoveOne(t.calls, i);
    var t' := t.(calls := t.calls[..i] + t.calls[i + 1..], popped := t.popped + [t.calls[i].1]);
    assert multiset(t'.popped) == multiset(t.popped) + multiset{t.calls[i].1};
    forall j, k | 0 <= j < k < |t'.calls|
      ensures t'.calls[j].0 != t'.calls[k].0
    {
      assert t'.calls[j] == t.calls[if j < i then j else j + 1] && t'.calls[k] == t.calls[if k < i then k else k + 1];
    }
  }

  lemma {:induction false} FinishCallsKeepsInv(t: Turn, pops: seq<bool>)
    requires Inv(t)
    ensures Inv(FinishCalls(t, pops))
    decreases |t.calls|
  {
    if t.managed && t.calls != [] && pops != [] && pops[0] {
      var last := |t.calls| - 1;
      PopKeepsInv(t, last);
      assert t.calls[..last] + t.calls[last + 1..] == t.calls[..last];
      FinishCallsKeepsInv(t.(calls := t.calls[..last], popped := t.popped + [t.calls[last].1]), pops[1..]);
    }
  }

  lemma PopOwnKeepsInv(t: Turn, popOk: bool)
    requires Inv(t)
    ensures Inv(PopOwn(t, popOk))
  {
    var t' := PopOwn(t, popOk);
    if t.managed && t.own.Some? && popOk {
      assert multiset(t'.popped) == multiset(t.popped) + multiset{t.own.value};
      forall h
        ensures multiset(Handles(t'.calls))[h] + multiset(t'.popped)[h] + OwnScope(t')[h] ==
                if 0 <= h < t'.nextHandle then 1 else 0
      {
        assert multiset(Handles(t.calls))[h] + multiset(t.popped)[h] + OwnScope(t)[h] ==
               if 0 <= h < t.nextHandle then 1 else 0;
      }
    }
  }

  /** Number of successful pops at the start of a series of answers. */
  function Successes(pops: seq<bool>): (n: nat)
    ensures n <= |pops|
  {
    if pops == [] || !pops[0] then 0 else 1 + Successes(pops[1..])
  }

  /** How many calls are left after a series of answers. */
  function Left(t: Turn, pops: seq<bool>): (k: nat)
    ensures k <= |t.calls|
  {
    if Successes(pops) >= |t.calls| then 0 else |t.calls| - Successes(pops)
  }

  /** Finishing pops the newest calls in reverse insertion order and leaves exactly the older ones, in order; it
      leaves none precisely when no attempt failed. */
  lemma {:induction false} FinishPopsNewestFirst(t: Turn, pops: seq<bool>)
    requires t.managed
    ensures var k := Left(t, pops);
            FinishCalls(t, pops) == t.(calls := t.calls[..k], popped := t.popped + Reversed(Handles(t.calls[k..])))
    decreases |t.calls|
  {
    var k := Left(t, pops);
    if t.calls == [] || pops == [] || !pops[0] {
      assert t.calls[..k] == t.calls && t.calls[k..] == [];
      assert t.popped + Reversed(Handles([])) == t.popped;
    } else {
      var last := |t.calls| - 1;
      var call := t.calls[last];
      var next := t.(calls := t.calls[..last], popped := t.popped + [call.1]);
      assert FinishCalls(t, pops) == FinishCalls(next, pops[1..]);
      FinishPopsNewestFirst(next, pops[1..]);
      assert Left(next, pops[1..]) == k;
      assert next.calls[..k] == t.calls[..k];
      assert t.calls[k..] == next.calls[k..] + [call];
      ReversedSnoc(next.calls[k..], call);
      var tail := Reversed(Handles(next.calls[k..]));
      assert (t.popped + [call.1]) + tail == t.popped + ([call.1] + tail);
    }
  }

  lemma ReversedSnoc(calls: seq<(string, nat)>, last: (string, nat))
    ensures Reversed(Handles(calls + [last])) == [last.1] + Reversed(Handles(calls))
  {
  }

  // ----- Whole runs -----

  datatype Event =
    | Open(id: string)
    | Done(id: string, handle: nat, popOk: bool)
    | FinishAll(pops: seq<bool>)
    | End(pops: seq<bool>, ownPop: bool)

  function Step(t: Turn, ev: Event): Turn {
    match ev
    case Open(id) => Parent(t, id).0
    case Done(id, handle, popOk) => Complete(t, id, handle, popOk)
    case FinishAll(pops) => Finish(t, pops)
    case End(pops, ownPop) => EndTurn(t, pops, ownPop)
  }

  function Run(t: Turn, evs: seq<Event>): Turn
    decreases |evs|
  {
    if evs == [] then t else Run(Step(t, evs[0]), evs[1..])
  }

  lemma StepKeepsInv(t: Turn, ev: Event)
    requires Inv(t)
    ensures Inv(Step(t, ev))
  {
    match ev
    case Open(id) => ParentKeepsInv(t, id);
    case Done(id, handle, popOk) =>
      if t.managed && Lookup(t.calls, id) == Some(handle) && popOk {
        PopKeepsInv(t, IndexOf(t.calls, id));
      }
    case FinishAll(pops) => FinishCallsKeepsInv(t, pops);
    case End(pops, ownPop) =>
      FinishCallsKeepsInv(t.(closed := true), pops);
      PopOwnKeepsInv(FinishCalls(t.(closed := true), pops), ownPop);
  }

  lemma {:induction false} RunKeepsInv(t: Turn, evs: seq<Event>)
    requires Inv(t)
    ensures Inv(Run(t, evs))
    decreases |evs|
  {
    if evs != [] {
      StepKeepsInv(t, evs[0]);
      RunKeepsInv(Step(t, evs[0]), evs[1..]);
    }
  }

  /** Over any run every handle the Relay gave out, the turn's own included, is popped successfully at most once, and
      is still open exactly until that pop. */
  lemma HandlesPoppedAtMostOnce(managed: bool, pushOk: bool, evs: seq<Event>, h: nat)
    ensures var t := Run(Fresh(managed, pushOk), evs);
            && multiset(t.popped)[h] <= 1
            && (h < t.nextHandle <==> IsOpen(t, h) || h in t.popped)
            && !(IsOpen(t, h) && h in t.popped)
  {
    assert Handles([]) == [];
    RunKeepsInv(Fresh(managed, pushOk), evs);
    InvMeansConserved(Run(Fresh(managed, pushOk), evs), h);
  }

  /** Nothing is pushed on a closed turn, and a closed turn stays closed. */
  lemma {:induction false} ClosedTurnPushesNothing(t: Turn, evs: seq<Event>)
    requires t.closed
    ensures Run(t, evs).closed && Run(t, evs).nextHandle == t.nextHandle
    decreases |evs|
  {
    if evs != [] {
      ClosedTurnPushesNothing(Step(t, evs[0]), evs[1..]);
    }
  }

  // ----- The objects -----

  class TurnContext {
    const managed: bool
    var closed: bool
    var own: Option<nat>
    var calls: seq<(string, nat)>
    var nextHandle: nat
    ghost var popped: seq<nat>

    ghost function View(): Turn
      reads this
    {
      Turn(managed, closed, own, calls, nextHandle, popped)
    }

    constructor (managed: bool, pushOk: bool)
      ensures View() == Fresh(managed, pushOk)
    {
      this.managed := managed;
      closed, calls, popped := false, [], [];
      own := if managed && pushOk then Some(0) else None;
      nextHandle := if managed && pushOk then 1 else 0;
    }

    method LogicalParent(id: string) returns (handle: Option<nat>)
      modifies this
      ensures (View(), handle) == Parent(old(View()), id)
    {
      if !managed || id == "" || closed {
        return None;
      }
      handle := Lookup(calls, id);
      if handle.None? {
        handle := Some(nextHandle);
        calls := calls + [(id, nextHandle)];
        nextHandle := nextHandle + 1;
      }
    }

    method CompleteLogical(id: string, handle: nat, popOk: bool)
      modifies this
      ensures View() == Complete(old(View()), id, handle, popOk)
    {
      if !managed || Lookup(calls, id) != Some(handle) || !popOk {
        return;
      }
      var i := IndexOf(calls, id);
      calls := calls[..i] + calls[i + 1..];
      popped := popped + [handle];
    }

    /** Clear the dictionary, pop backwards, and put the unclosed prefix back when a pop fails. */
    method FinishLogicalCalls(pops: seq<bool>)
      requires managed ==> |pops| >= |calls|
      modifies this
      ensures View() == FinishCalls(old(View()), pops)
    {
      if !managed {
        return;
      }
      var logicalCalls := calls;
      calls := [];
      var index := |logicalCalls|;
      ghost var before := View().(calls := logicalCalls);
      assert logicalCalls[..index] == logicalCalls && pops[0..] == pops;
      while index > 0
        invariant 0 <= index <= |logicalCalls|
        invariant calls == [] && |pops| >= |logicalCalls|
        invariant FinishCalls(View().(calls := logicalCalls[..index]), pops[|logicalCalls| - index..]) ==
                  FinishCalls(before, pops)
        decreases index
      {
        ghost var here := View().(calls := logicalCalls[..index]);
        ghost var left := pops[|logicalCalls| - index..];
        assert left[0] == pops[|logicalCalls| - index];
        assert left[1..] == pops[|logicalCalls| - (index - 1)..];
        assert logicalCalls[..index][..index - 1] == logicalCalls[..index - 1];
        if !pops[|logicalCalls| - index] {
          calls := logicalCalls[..index];
          return;
        }
        popped := popped + [logicalCalls[index - 1].1];
        index := index - 1;
      }
    }

    /** Close once, finish the calls, then pop the turn's own scope. */
    method EndThisTurn(pops: seq<bool>, ownPop: bool)
      requires managed ==> |pops| >= |calls|
      modifies this
      ensures View() == EndTurn(old(View()), pops, ownPop)
    {
      if closed {
        return;
      }
      closed := true;
      FinishLogicalCalls(pops);
      if managed && own.Some? && ownPop {
        popped := popped + [own.value];
        own := None;
      }
    }
  }

  /** Which turns run under which (profile, session) key, and which keys are delegated conversations, with their
      parents. */
  class TurnRegistry {
    var active: map<string, set<nat>>
    var parents: map<string, string>
    ghost var running: map<nat, string>

    ghost predicate Valid()
      reads this
    {
      && (forall key | key in active :: active[key] != {})
      && (forall key, turn :: (key in active && turn in active[key]) <==> (turn in running && running[turn] == key))
    }

    constructor ()
      ensures Valid() && running == map[] && parents == map[]
    {
      active, parents, running := map[], map[], map[];
    }

    method Register(key: string, turn: nat)
      requires Valid() && turn !in running
      modifies this
      ensures Valid() && running == old(running)[turn := key] && parents == old(parents)
    {
      active := active[key := (if key in active then active[key] else {}) + {turn}];
      running := running[turn := key];
    }

    /** A released lease raises; otherwise the turn starts, with or without a scope of its own, and counts as active. */
    method BeginTurn(key: string, turn: nat, released: bool, managed: bool, pushOk: bool)
      returns (context: Option<TurnContext>)
      requires Valid() && turn !in running
      modifies this
      ensures Valid() && (context.None? <==> released) && parents == old(parents)
      ensures released ==> running == old(running)
      ensures !released ==> && fresh(context.value) && context.value.View() == Fresh(managed, pushOk)
                            && running == old(running)[turn := key]
    {
      if released {
        return None;
      }
      var begun := new TurnContext(managed, pushOk);
      Register(key, turn);
      context := Some(begun);
    }

    /** A conversation without a parent of another name is not delegated. */
    method RegisterChild(key: string, parent: string)
      requires Valid()
      modifies this`parents
      ensures Valid()
      ensures parents == if key == "" || parent in {"", key} then old(parents) else old(parents)[key := parent]
    {
      if key != "" && parent != "" && key != parent {
        parents := parents[key := parent];
      }
    }

    /** Called while the child's own turn still counts as active. A close that raises forgets nothing. */
    method UnregisterChild(key: string, turn: nat, closes: bool)
      requires Valid() && turn in running && running[turn] == key
      modifies this`parents
      ensures Valid() && parents == if key != "" && closes then old(parents) - {key} else old(parents)
    {
      if key != "" && closes {
        parents := parents - {key};
      }
    }

    /** Ending the same turn again does not touch the registry. The first time the turn goes after its scopes, and
        after the conversation if that was delegated, whether or not closing it raised. */
    method EndRegisteredTurn(context: TurnContext, key: string, turn: nat, pops: seq<bool>, ownPop: bool,
                             delegated: bool, closes: bool)
      requires Valid() && (turn in running ==> running[turn] == key) && (!context.closed ==> turn in running)
      requires context.managed ==> |pops| >= |context.calls|
      modifies this, context
      ensures Valid() && context.View() == EndTurn(old(context.View()), pops, ownPop)
      ensures running == if old(context.closed) then old(running) else old(running) - {turn}
      ensures parents == if !old(context.closed) && delegated && context.managed && closes && key != "" then
                           old(parents) - {key}
                         else old(parents)
    {
      if context.closed {
        return;
      }
      context.EndThisTurn(pops, ownPop);
      if delegated && context.managed {
        UnregisterChild(key, turn, closes);
      }
      Unregister(key, turn);
    }

    /** Unregistering an unknown turn changes nothing. */
    method Unregister(key: string, turn: nat)
      requires Valid() && (turn in running ==> running[turn] == key)
      modifies this
      ensures Valid() && running == old(running) - {turn} && parents == old(parents)
    {
      if key in active {
        var left := active[key] - {turn};
        if left == {} {
          active := active - {key};
        } else {
          active := active[key := left];
        }
      }
      running := running - {turn};
    }

    /** A key counts as active exactly while one of its turns runs. */
    method HasActiveTurn(key: string) returns (busy: bool)
      requires Valid()
      ensures busy <==> exists turn :: turn in running && running[turn] == key
    {
      busy := key in active && active[key] != {};
      if busy {
        ghost var turn := MemberOf(active[key]);
        assert turn in running && running[turn] == key;
      }
    }
  }
}
