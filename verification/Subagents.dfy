/** The lifecycle of delegated subagents: launch, run, cancel, result and retention. */
module Subagents {
  import opened Collections

  datatype State = Pending | Running | CancelRequested | Succeeded | Failed | Interrupted | Cancelled

  /** Parent session and correlation id. */
  type Key = (string, string)

  /** `verdict` is the terminal state the worker has computed but not published yet; `asked` remembers whether a
      cancellation was ever recorded. */
  datatype Record = Record(
    key: Option<Key>,
    state: State,
    started: bool,
    verdict: Option<State>,
    result: Option<State>,
    completedAt: int,
    asked: bool)

  /** How the child's run ends: the status it reports, or an exception. */
  datatype Status = Completed | WasInterrupted | OtherStatus | Raised

  datatype CancelAnswer = Accepted | AlreadyTerminal | Unsupported | UnknownHandle

  const RETENTION := 3600

  predicate Terminal(s: State) {
    s in {Succeeded, Failed, Interrupted, Cancelled}
  }

  function New(key: Option<Key>): Record {
    Record(key, Pending, false, None, None, 0, false)
  }

  /** The worker picks the record up. */
  function StartRun(r: Record): Record {
    if r.started then r
    else r.(started := true, state := if r.state.CancelRequested? then r.state else Running)
  }

  /** The child returned; the worker reads the state once to tell a cancellation from an interruption. */
  function Conclude(r: Record, status: Status): Record {
    if !r.started || r.verdict.Some? then r
    else
      r.(verdict := Some(match status
                         case Completed => Succeeded
                         case WasInterrupted => if r.state.CancelRequested? then Cancelled else Interrupted
                         case OtherStatus => Failed
                         case Raised => Failed))
  }

  function Publish(r: Record, now: int): Record {
    if r.verdict.None? || r.result.Some? then r
    else r.(result := r.verdict, state := r.verdict.value, completedAt := now)
  }

  /** The flag says the request was recorded; it is refused exactly for a record with a result. */
  function Cancel(r: Record): (Record, bool) {
    if r.result.Some? then (r, false) else (r.(state := CancelRequested, asked := true), true)
  }

  // ----- One record -----

  ghost predicate RecordOk(r: Record) {
    && (r.result.Some? ==> r.verdict == r.result && r.state == r.result.value)
    && (r.result.None? ==> !Terminal(r.state))
    && (r.verdict.Some? ==> r.started && Terminal(r.verdict.value))
    && (r.state.CancelRequested? ==> r.asked)
    && (r.asked && r.result.None? ==> r.state.CancelRequested?)
    && (r.verdict == Some(Cancelled) ==> r.asked)
    && (r.state.Pending? ==> !r.started)
    && (r.state.Running? ==> r.started)
  }

  function Rank(s: State): nat {
    match s
    case Pending => 0
    case Running => 1
    case CancelRequested => 2
    case _ => 3
  }

  /** A record only moves forward, and a published result is final. */
  ghost predicate Forward(r: Record, r': Record) {
    && r'.key == r.key
    && Rank(r.state) <= Rank(r'.state)
    && (r.result.Some? ==> r'.result == r.result && r'.state == r.state && r'.completedAt == r.completedAt)
    && (r.asked ==> r'.asked)
    && (r.state.CancelRequested? && r'.result.None? ==> r'.state.CancelRequested?)
  }

  // ----- The registry -----

  datatype Registry = Registry(
    records: map<string, Record>,
    correlations: map<Key, string>,
    checked: map<nat, Option<Key>>)

  const EMPTY := Registry(map[], map[], map[])

  function Expired(g: Registry, now: int): set<string> {
    set id | id in g.records && g.records[id].result.Some? && g.records[id].completedAt < now - RETENTION
  }

  function DroppedKeys(g: Registry, ids: set<string>): set<Key> {
    set id | id in ids && id in g.records && g.records[id].key.Some? :: g.records[id].key.value
  }

  function Cleanup(g: Registry, now: int): Registry {
    var gone := Expired(g, now);
    g.(records := g.records - gone, correlations := g.correlations - DroppedKeys(g, gone))
  }

  /** First critical section of `launch`: clean up, then refuse a correlation id already in use. A launcher stands for
      one call, so a refused one has nothing left to register. */
  function CheckLaunch(g: Registry, launcher: nat, key: Option<Key>, now: int): (Registry, bool) {
    var c := Cleanup(g, now);
    if key.Some? && key.value in c.correlations then (c.(checked := c.checked - {launcher}), false)
    else (c.(checked := c.checked[launcher := key]), true)
  }

  /** Second critical section: the child exists under a new id and is registered. */
  function RegisterLaunch(g: Registry, launcher: nat, id: string): Registry {
    if launcher !in g.checked || id in g.records then g
    else
      var key := g.checked[launcher];
      g.(records := g.records[id := New(key)],
         correlations := if key.Some? then g.correlations[key.value := id] else g.correlations,
         checked := g.checked - {launcher})
  }

  function Update(g: Registry, id: string, r: Record): Registry {
    g.(records := g.records[id := r])
  }

  datatype Event =
    | Check(launcher: nat, key: Option<Key>, now: int)
    | Register(launcher: nat, id: string)
    | Begin(id: string)
    | Return(id: string, status: Status)
    | Finish(id: string, at: int)
    | CancelIt(id: string)

  function Step(g: Registry, ev: Event): Registry {
    match ev
    case Check(launcher, key, now) => CheckLaunch(g, launcher, key, now).0
    case Register(launcher, id) => RegisterLaunch(g, launcher, id)
    case Begin(id) => if id in g.records then Update(g, id, StartRun(g.records[id])) else g
    case Return(id, status) => if id in g.records then Update(g, id, Conclude(g.records[id], status)) else g
    case Finish(id, at) => if id in g.records then Update(g, id, Publish(g.records[id], at)) else g
    case CancelIt(id) => if id in g.records then Update(g, id, Cancel(g.records[id]).0) else g
  }

  function Run(g: Registry, evs: seq<Event>): Registry
    decreases |evs|
  {
    if evs == [] then g else Run(Step(g, evs[0]), evs[1..])
  }

  ghost predicate Inv(g: Registry) {
    && (forall id | id in g.records :: RecordOk(g.records[id]))
    && (forall key | key in g.correlations ::
          g.correlations[key] in g.records && g.records[g.correlations[key]].key == Some(key))
  }

  lemma RecordStepForward(r: Record, status: Status, at: int)
    requires RecordOk(r)
    ensures RecordOk(StartRun(r)) && Forward(r, StartRun(r))
    ensures RecordOk(Conclude(r, status)) && Forward(r, Conclude(r, status))
    ensures RecordOk(Publish(r, at)) && Forward(r, Publish(r, at))
    ensures RecordOk(Cancel(r).0) && Forward(r, Cancel(r).0)
  {
  }

  lemma KeyIsDropped(g: Registry, ids: set<string>, id: string)
    requires id in g.records && g.records[id].key.Some?
    ensures id in ids ==> g.records[id].key.value in DroppedKeys(g, ids)
  {
  }

  lemma CleanupKeepsInv(g: Registry, now: int)
    requires Inv(g)
    ensures Inv(Cleanup(g, now))
  {
    var gone := Expired(g, now);
    forall key | key in Cleanup(g, now).correlations
      ensures g.correlations[key] in g.records - gone
    {
      KeyIsDropped(g, gone, g.correlations[key]);
    }
  }

  lemma StepKeepsInv(g: Registry, ev: Event)
    requires Inv(g)
    ensures Inv(Step(g, ev))
  {
    match ev
    case Check(launcher, key, now) => CleanupKeepsInv(g, now);
    case Register(_, _) =>
    case Begin(id) =>
      if id in g.records {
        RecordStepForward(g.records[id], Completed, 0);
      }
    case Return(id, status) =>
      if id in g.records {
        RecordStepForward(g.records[id], status, 0);
      }
    case Finish(id, at) =>
      if id in g.records {
        RecordStepForward(g.records[id], Completed, at);
      }
    case CancelIt(id) =>
      if id in g.records {
        RecordStepForward(g.records[id], Completed, 0);
      }
  }

  lemma {:induction false} RunKeepsInv(g: Registry, evs: seq<Event>)
    requires Inv(g)
    ensures Inv(Run(g, evs))
    decreases |evs|
  {
    if evs != [] {
      StepKeepsInv(g, evs[0]);
      RunKeepsInv(Step(g, evs[0]), evs[1..]);
    }
  }

  /** Launching anything cleans this record up: it has a result, and the retention period is over. */
  predicate Expires(g: Registry, ev: Event, id: string) {
    && ev.Check? && id in g.records && g.records[id].result.Some?
    && g.records[id].completedAt < ev.now - RETENTION
  }

  /** A step moves a record forward, and takes it away exactly when it expires. */
  lemma StepIsForward(g: Registry, ev: Event, id: string)
    requires Inv(g) && id in g.records
    ensures id in Step(g, ev).records ==> Forward(g.records[id], Step(g, ev).records[id])
    ensures id in Step(g, ev).records <==> !Expires(g, ev, id)
  {
    var r := g.records[id];
    if ev.Return? {
      RecordStepForward(r, ev.status, 0);
    } else if ev.Finish? {
      RecordStepForward(r, Completed, ev.at);
    } else {
      RecordStepForward(r, Completed, 0);
    }
  }

  /** The record `id` is present before every one of the events and after the last. */
  ghost predicate Stays(g: Registry, evs: seq<Event>, id: string)
    decreases |evs|
  {
    id in g.records && (evs == [] || Stays(Step(g, evs[0]), evs[1..], id))
  }

  /** The record `id` never expires under one of the events. */
  ghost predicate NeverExpires(g: Registry, evs: seq<Event>, id: string)
    decreases |evs|
  {
    evs == [] || (!Expires(g, evs[0], id) && NeverExpires(Step(g, evs[0]), evs[1..], id))
  }

  /** Over any run a record stays exactly as long as no launch finds it with a result past the retention period. */
  lemma {:induction false} RecordStaysIffNeverExpired(g: Registry, evs: seq<Event>, id: string)
    requires Inv(g) && id in g.records
    ensures Stays(g, evs, id) <==> NeverExpires(g, evs, id)
    decreases |evs|
  {
    if evs != [] {
      StepIsForward(g, evs[0], id);
      StepKeepsInv(g, evs[0]);
      if !Expires(g, evs[0], id) {
        RecordStaysIffNeverExpired(Step(g, evs[0]), evs[1..], id);
      }
    }
  }

  /** Live work is never cleaned up: whenever a record goes missing in a run, it had a result at some moment before. */
  lemma {:induction false} LiveRecordsNeverLeave(g: Registry, evs: seq<Event>, id: string)
    requires Inv(g) && id in g.records && id !in Run(g, evs).records
    ensures exists k :: && 0 <= k < |evs| && Expires(Run(g, evs[..k]), evs[k], id)
    decreases |evs|
  {
    assert evs[..0] == [];
    if Expires(g, evs[0], id) {
      assert Expires(Run(g, evs[..0]), evs[0], id);
    } else {
      var next := Step(g, evs[0]);
      StepIsForward(g, evs[0], id);
      StepKeepsInv(g, evs[0]);
      LiveRecordsNeverLeave(next, evs[1..], id);
      var k :| 0 <= k < |evs[1..]| && Expires(Run(next, evs[1..][..k]), evs[1..][k], id);
      assert evs[..k + 1][1..] == evs[1..][..k];
      assert Expires(Run(g, evs[..k + 1]), evs[k + 1], id);
    }
  }

  /** Over any run, for as long as a record is kept: its state never moves back, a published result and the terminal
      state it sets are final, and a recorded cancellation is not lost before a result is published. */
  lemma {:induction false} RecordsOnlyMoveForward(g: Registry, evs: seq<Event>, id: string)
    requires Inv(g) && Stays(g, evs, id)
    ensures id in Run(g, evs).records && Forward(g.records[id], Run(g, evs).records[id])
    decreases |evs|
  {
    if evs != [] {
      StepKeepsInv(g, evs[0]);
      StepIsForward(g, evs[0], id);
      RecordsOnlyMoveForward(Step(g, evs[0]), evs[1..], id);
    }
  }

  /** In every reachable registry: a result agrees with the state and refuses cancellation, a record without one is
      not terminal and takes it, and CANCELLED was asked for. */
  lemma ReachableRecords(evs: seq<Event>, id: string)
    requires id in Run(EMPTY, evs).records
    ensures var r := Run(EMPTY, evs).records[id];
            && (Terminal(r.state) <==> r.result.Some?)
            && (r.result.Some? ==> r.result == Some(r.state))
            && (Cancel(r).1 <==> !Terminal(r.state))
            && (r.state.Cancelled? ==> r.asked)
            && (r.asked && !Terminal(r.state) ==> StartRun(r).state.CancelRequested?)
  {
    RunKeepsInv(EMPTY, evs);
  }

  // ----- Correlation ids -----

  /** Every stored record with a correlation id owns that id. */
  ghost predicate Owned(g: Registry) {
    forall id | id in g.records && g.records[id].key.Some? ::
      g.records[id].key.value in g.correlations && g.correlations[g.records[id].key.value] == id
  }

  lemma DroppedKeyHasDroppedOwner(g: Registry, ids: set<string>, key: Key)
    requires Owned(g)
    ensures key in DroppedKeys(g, ids) ==> key in g.correlations && g.correlations[key] in ids
  {
    if key in DroppedKeys(g, ids) {
      var id :| id in ids && id in g.records && g.records[id].key == Some(key);
    }
  }

  /** Registering takes a correlation id that is in use: the second critical section does not look. */
  predicate TakesUsedKey(g: Registry, ev: Event) {
    && ev.Register? && ev.launcher in g.checked && ev.id !in g.records
    && g.checked[ev.launcher].Some? && g.checked[ev.launcher].value in g.correlations
  }

  lemma CleanupKeepsOwned(g: Registry, now: int)
    requires Inv(g) && Owned(g)
    ensures Owned(Cleanup(g, now))
  {
    var c := Cleanup(g, now);
    forall i | i in c.records && c.records[i].key.Some?
      ensures c.records[i].key.value in c.correlations && c.correlations[c.records[i].key.value] == i
    {
      DroppedKeyHasDroppedOwner(g, Expired(g, now), c.records[i].key.value);
    }
  }

  lemma RegisterOwnedIff(g: Registry, launcher: nat, id: string)
    requires Inv(g) && Owned(g)
    ensures Owned(RegisterLaunch(g, launcher, id)) <==> !TakesUsedKey(g, Register(launcher, id))
  {
    if launcher in g.checked && id !in g.records && g.checked[launcher].Some? {
      var key := g.checked[launcher].value;
      var after := RegisterLaunch(g, launcher, id);
      if key in g.correlations {
        var other := g.correlations[key];
        assert other in after.records && after.records[other].key == Some(key) && after.correlations[key] == id;
      }
    }
  }

  /** Of all events, only a registration that takes a used correlation id breaks ownership. */
  lemma StepOwnedIff(g: Registry, ev: Event)
    requires Inv(g) && Owned(g)
    ensures Owned(Step(g, ev)) <==> !TakesUsedKey(g, ev)
  {
    match ev
    case Check(_, _, now) => CleanupKeepsOwned(g, now);
    case Register(launcher, id) => RegisterOwnedIff(g, launcher, id);
    case Begin(_) =>
    case Return(_, _) =>
    case Finish(_, _) =>
    case CancelIt(_) =>
  }

  lemma {:induction false} RunSnoc(g: Registry, evs: seq<Event>, ev: Event)
    ensures Run(g, evs + [ev]) == Step(Run(g, evs), ev)
    decreases |evs|
  {
    if evs == [] {
      assert Run(Step(g, ev), []) == Step(g, ev);
    } else {
      assert (evs + [ev])[1..] == evs[1..] + [ev];
      RunSnoc(Step(g, evs[0]), evs[1..], ev);
    }
  }

  lemma PrefixStep(evs: seq<Event>, k: nat)
    requires k < |evs|
    ensures Inv(Run(EMPTY, evs[..k]))
    ensures Run(EMPTY, evs[..k + 1]) == Step(Run(EMPTY, evs[..k]), evs[k])
    ensures Owned(Run(EMPTY, evs[..k])) ==>
              (Owned(Run(EMPTY, evs[..k + 1])) <==> !TakesUsedKey(Run(EMPTY, evs[..k]), evs[k]))
  {
    RunKeepsInv(EMPTY, evs[..k]);
    assert evs[..k + 1] == evs[..k] + [evs[k]];
    RunSnoc(EMPTY, evs[..k], evs[k]);
    if Owned(Run(EMPTY, evs[..k])) {
      StepOwnedIff(Run(EMPTY, evs[..k]), evs[k]);
    }
  }

  /** Over every run: each correlation id belongs to one stored child throughout if and only if no registration ever
      takes an id in use. */
  lemma OwnedThroughoutIff(evs: seq<Event>)
    ensures (forall k | 0 <= k <= |evs| :: Owned(Run(EMPTY, evs[..k])))
            <==> (forall k | 0 <= k < |evs| :: !TakesUsedKey(Run(EMPTY, evs[..k]), evs[k]))
  {
    if forall k | 0 <= k <= |evs| :: Owned(Run(EMPTY, evs[..k])) {
      forall k | 0 <= k < |evs|
        ensures !TakesUsedKey(Run(EMPTY, evs[..k]), evs[k])
      {
        assert Owned(Run(EMPTY, evs[..k])) && Owned(Run(EMPTY, evs[..k + 1]));
        PrefixStep(evs, k);
      }
    }
    if forall k | 0 <= k < |evs| :: !TakesUsedKey(Run(EMPTY, evs[..k]), evs[k]) {
      forall k | 0 <= k <= |evs|
        ensures Owned(Run(EMPTY, evs[..k]))
      {
        OwnedUpTo(evs, k);
      }
    }
  }

  lemma {:induction false} OwnedUpTo(evs: seq<Event>, k: nat)
    requires k <= |evs|
    requires forall i | 0 <= i < |evs| :: !TakesUsedKey(Run(EMPTY, evs[..i]), evs[i])
    ensures Owned(Run(EMPTY, evs[..k]))
  {
    if k > 0 {
      OwnedUpTo(evs, k - 1);
      PrefixStep(evs, k - 1);
    }
  }

  /** Launches do not overlap: each registration directly follows its own check. */
  predicate Sequential(evs: seq<Event>) {
    forall k | 0 <= k < |evs| && evs[k].Register? ::
      k > 0 && evs[k - 1].Check? && evs[k - 1].launcher == evs[k].launcher
  }

  /** Runs of launches that do not overlap keep correlation ids unique throughout. */
  lemma SequentialRunsKeepOwnership(evs: seq<Event>, k: nat)
    requires Sequential(evs) && k <= |evs|
    ensures Owned(Run(EMPTY, evs[..k]))
  {
    forall i | 0 <= i < |evs|
      ensures !TakesUsedKey(Run(EMPTY, evs[..i]), evs[i])
    {
      if evs[i].Register? {
        PrefixStep(evs, i - 1);
      }
    }
    OwnedThroughoutIff(evs);
  }

  /** Overlapping launches do not: two children end up under one correlation id. */
  lemma OverlappingLaunchesShareAKey(key: Key)
    ensures var g := Run(EMPTY, [Check(1, Some(key), 0), Check(2, Some(key), 0), Register(1, "a"), Register(2, "b")]);
            && "a" in g.records && "b" in g.records
            && g.records["a"].key == g.records["b"].key == Some(key)
            && !Owned(g)
  {
    var g1 := Step(EMPTY, Check(1, Some(key), 0));
    assert g1 == EMPTY.(checked := map[1 := Some(key)]);
    var g2 := Step(g1, Check(2, Some(key), 0));
    assert g2 == EMPTY.(checked := map[1 := Some(key), 2 := Some(key)]);
    var g3 := Step(g2, Register(1, "a"));
    var g4 := Step(g3, Register(2, "b"));
    assert Run(g4, []) == g4;
    assert Run(g3, [Register(2, "b")]) == g4;
    assert Run(g2, [Register(1, "a"), Register(2, "b")]) == g4;
    assert Run(g1, [Check(2, Some(key), 0), Register(1, "a"), Register(2, "b")]) == g4;
    assert g4.correlations[key] == "b";
  }

  // ----- The object -----

  lemma DropOne(g: Registry, ids: set<string>, id: string)
    requires id in g.records
    ensures var key := g.records[id].key;
            && g.records - (ids + {id}) == g.records - ids - {id}
            && g.correlations - DroppedKeys(g, ids + {id}) ==
               g.correlations - DroppedKeys(g, ids) - (if key.Some? then {key.value} else {})
  {
    var key := g.records[id].key;
    var dropped := if key.Some? then {key.value} else {};
    assert DroppedKeys(g, ids + {id}) == DroppedKeys(g, ids) + dropped;
    Minus(g.correlations, DroppedKeys(g, ids), dropped);
    Minus(g.records, ids, {id});
  }

  lemma Minus<K, V>(m: map<K, V>, a: set<K>, b: set<K>)
    ensures m - (a + b) == m - a - b
  {
  }

  class LifecycleRegistry {
    var records: map<string, Record>
    var correlations: map<Key, string>
    var checked: map<nat, Option<Key>>

    ghost function View(): Registry
      reads this
    {
      Registry(records, correlations, checked)
    }

    ghost predicate Valid()
      reads this
    {
      Inv(View())
    }

    constructor ()
      ensures Valid() && View() == EMPTY
    {
      records, correlations, checked := map[], map[], map[];
    }

    /** The loop over the expired records, each with its correlation entry. */
    method CleanupLocked(now: int)
      requires Valid()
      modifies this
      ensures Valid() && View() == Cleanup(old(View()), now)
    {
      CleanupKeepsInv(View(), now);
      var expired := set id | id in records && records[id].result.Some? && records[id].completedAt < now - RETENTION;
      var left := expired;
      ghost var g := View();
      while left != {}
        invariant left <= expired && checked == g.checked
        invariant records == g.records - (expired - left)
        invariant correlations == g.correlations - DroppedKeys(g, expired - left)
        decreases left
      {
        ghost var some := MemberOf(left);
        var id :| id in left;
        var key := records[id].key;
        assert expired - (left - {id}) == (expired - left) + {id};
        DropOne(g, expired - left, id);
        records := records - {id};
        if key.Some? {
          correlations := correlations - {key.value};
        }
        left := left - {id};
      }
      assert expired - {} == expired;
    }

    method Launch(launcher: nat, key: Option<Key>, now: int) returns (ok: bool)
      requires Valid()
      modifies this
      ensures Valid() && (View(), ok) == CheckLaunch(old(View()), launcher, key, now)
    {
      CleanupLocked(now);
      if key.Some? && key.value in correlations {
        checked := checked - {launcher};
        return false;
      }
      checked := checked[launcher := key];
      ok := true;
    }

    method RegisterChild(launcher: nat, id: string)
      requires Valid()
      modifies this
      ensures Valid() && View() == RegisterLaunch(old(View()), launcher, id)
    {
      StepKeepsInv(View(), Register(launcher, id));
      if launcher !in checked || id in records {
        return;
      }
      var key := checked[launcher];
      records := records[id := New(key)];
      if key.Some? {
        correlations := correlations[key.value := id];
      }
      checked := checked - {launcher};
    }

    /** Whether the agent can be interrupted decides what the caller is told, not what is recorded. */
    method CancelChild(id: string, interruptible: bool) returns (answer: CancelAnswer)
      requires Valid()
      modifies this
      ensures Valid() && View() == Step(old(View()), CancelIt(id))
      ensures answer == if id !in old(records) then UnknownHandle
                        else if Terminal(old(records)[id].state) then AlreadyTerminal
                        else if interruptible then Accepted
                        else Unsupported
      ensures answer in {Accepted, Unsupported} <==> id in old(records) && Cancel(old(records)[id]).1
    {
      StepKeepsInv(View(), CancelIt(id));
      if id !in records {
        return UnknownHandle;
      }
      if records[id].result.Some? {
        assert View().records == View().records[id := records[id]];
        return AlreadyTerminal;
      }
      records := records[id := records[id].(state := CancelRequested, asked := true)];
      answer := if interruptible then Accepted else Unsupported;
    }

    method StartChild(id: string)
      requires Valid() && id in records && !records[id].started
      modifies this
      ensures Valid() && View() == Step(old(View()), Begin(id))
    {
      StepKeepsInv(View(), Begin(id));
      var r := records[id];
      if !r.state.CancelRequested? {
        r := r.(state := Running);
      }
      records := records[id := r.(started := true)];
    }

    method ResultOf(id: string) returns (ready: bool, state: State)
      requires Valid() && id in records
      ensures ready <==> Terminal(records[id].state)
      ensures state == records[id].state
    {
      ready := records[id].result.Some?;
      state := if ready then records[id].result.value else records[id].state;
    }
  }
}
