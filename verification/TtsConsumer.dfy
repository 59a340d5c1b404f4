/** Streaming speech: a bounded queue between the agent thread and the drain task, with sentinels, eviction and the
    flags the gateway reads afterwards. Clauses are named by their ordinal among all clauses the chunker emitted. */
module TtsConsumer {
  import opened Collections

  const CAPACITY := 256

  datatype Item = Clause(n: nat) | Done | Abort

  datatype Handle = NoHandle | Handle(audible: bool, aborted: bool)

  /** Where the drain task stands. `Finishing` is the wait inside `finish_streaming_tts`. */
  datatype Phase = NotBegun | Loop | Synthesising | Finishing | Ended

  datatype Consumer = Consumer(
    active: bool,
    queue: seq<Item>,
    handle: Handle,
    phase: Phase,
    completed: bool,
    partial: bool,
    aborted: bool,
    finished: bool,
    dropped: bool,
    suppress: bool,
    emitted: nat,
    taken: seq<nat>,
    truncated: bool)

  function New(active: bool): Consumer {
    Consumer(active, [], NoHandle, NotBegun, false, false, false, false, false, false, 0, [], false)
  }

  predicate Audible(s: Consumer) {
    s.handle.Handle? && s.handle.audible
  }

  function Clauses(base: nat, count: nat): seq<Item> {
    seq(count, i requires 0 <= i < count => Clause(base + i))
  }

  /** Free places in the queue. */
  function Room(s: Consumer): nat {
    if |s.queue| < CAPACITY then CAPACITY - |s.queue| else 0
  }

  /** Queue `count` new clauses; the first one that does not fit ends the attempt. */
  function PushClauses(s: Consumer, count: nat): Consumer {
    var fit := Min(count, Room(s));
    s.(queue := s.queue + Clauses(s.emitted, fit),
       emitted := s.emitted + count,
       dropped := s.dropped || fit < count)
  }

  function OnDelta(s: Consumer, count: nat): Consumer {
    if s.aborted || !s.active || s.finished then s else PushClauses(s, count)
  }

  /** The sentinel always gets in, at the cost of the oldest item when the queue is full. */
  function EnqueueDone(s: Consumer): Consumer {
    if |s.queue| < CAPACITY then s.(queue := s.queue + [Done])
    else s.(queue := s.queue[1..] + [Done], dropped := true)
  }

  function Finish(s: Consumer, tail: nat): Consumer {
    if s.finished then s
    else
      var f := s.(finished := true);
      if s.aborted || !s.active then f else EnqueueDone(PushClauses(f, tail))
  }

  function AbortConsumer(s: Consumer): Consumer {
    if s.aborted then s
    else
      var a := s.(aborted := true);
      if |s.queue| < CAPACITY then a.(queue := s.queue + [Abort]) else a.(queue := s.queue[1..] + [Abort])
  }

  /** `_safe_abort` */
  function AbortHandle(s: Consumer): Consumer {
    if s.handle.Handle? then s.(handle := s.handle.(aborted := true)) else s
  }

  function End(s: Consumer): Consumer {
    s.(phase := Ended, queue := [])
  }

  /** The drain task starts; `accepted` says the adapter supports the format and opened a handle. */
  function Begin(s: Consumer, accepted: bool): Consumer {
    if !s.phase.NotBegun? then s
    else if !s.active || !accepted then s.(phase := Ended)
    else s.(handle := Handle(false, false), phase := Loop, suppress := false)
  }

  /** One round of the drain loop up to the point where a clause is handed to synthesis. */
  function Take(s: Consumer): Consumer {
    if !s.phase.Loop? then s
    else if s.aborted then End(s)
    else if s.queue == [] then s
    else
      var rest := s.(queue := s.queue[1..]);
      if s.queue[0].Abort? then End(rest)
      else if s.queue[0].Done? then rest.(phase := Finishing)
      else rest.(phase := Synthesising, taken := s.taken + [s.queue[0].n])
  }

  /** One chunk of the current clause arrives and, unless the turn is aborted, is written. */
  function WriteChunk(s: Consumer, empty: bool): Consumer {
    if !s.phase.Synthesising? || s.handle.NoHandle? then s
    else if s.aborted || s.handle.aborted then s.(phase := Loop, truncated := true)
    else if empty then s
    else s.(handle := s.handle.(audible := true), suppress := true)
  }

  function ClauseDone(s: Consumer): Consumer {
    if s.phase.Synthesising? then s.(phase := Loop) else s
  }

  function ClauseFailed(s: Consumer): Consumer {
    if !s.phase.Synthesising? then s
    else
      var flagged := s.(partial := s.partial || Audible(s), suppress := Audible(s), completed := false);
      End(AbortHandle(flagged))
  }

  /** `finish_streaming_tts` returns or raises. */
  function FinishReturns(s: Consumer, ok: bool): Consumer {
    if !s.phase.Finishing? then s
    else
      var outcome := s.(suppress := Audible(s), completed := ok && Audible(s) && !s.dropped,
                        partial := s.partial || (Audible(s) && (!ok || s.dropped)));
      End(if ok then outcome else AbortHandle(outcome))
  }

  /** Any other error inside the task: flags stay, the handle is aborted. */
  function TaskError(s: Consumer): Consumer {
    if s.phase in {Loop, Synthesising, Finishing} then End(AbortHandle(s)) else s
  }

  /** The abort a call of `abort` scheduled on the event loop. */
  function ScheduledAbort(s: Consumer): Consumer {
    if s.aborted then AbortHandle(s) else s
  }

  datatype Event =
    | Delta(clauses: nat) | FinishText(tail: nat) | Cancel | StartTask(accepted: bool)
    | TakeNext | Chunk(empty: bool) | ClauseEnds | ClauseRaises | FinishDone(ok: bool) | Error | AbortTask

  function Step(s: Consumer, ev: Event): Consumer {
    match ev
    case Delta(clauses) => OnDelta(s, clauses)
    case FinishText(tail) => Finish(s, tail)
    case Cancel => AbortConsumer(s)
    case StartTask(accepted) => Begin(s, accepted)
    case TakeNext => Take(s)
    case Chunk(empty) => WriteChunk(s, empty)
    case ClauseEnds => ClauseDone(s)
    case ClauseRaises => ClauseFailed(s)
    case FinishDone(ok) => FinishReturns(s, ok)
    case Error => TaskError(s)
    case AbortTask => ScheduledAbort(s)
  }

  // ----- Invariant -----

  function Ordinals(queue: seq<Item>): seq<nat> {
    if queue == [] then []
    else (if queue[0].Clause? then [queue[0].n] else []) + Ordinals(queue[1..])
  }

  predicate Increasing(ns: seq<nat>, bound: nat) {
    && (forall i, j | 0 <= i < j < |ns| :: ns[i] < ns[j])
    && (forall i | 0 <= i < |ns| :: ns[i] < bound)
  }

  predicate AllUpTo(ns: seq<nat>, bound: nat) {
    |ns| == bound && forall i | 0 <= i < |ns| :: ns[i] == i
  }

  /** Nothing but abort sentinels follows the end sentinel. */
  predicate SentinelsLast(queue: seq<Item>) {
    forall i, j | 0 <= i < j < |queue| && queue[i].Done? :: queue[j].Abort?
  }

  ghost predicate Inv(s: Consumer) {
    && |s.queue| <= CAPACITY
    && s.suppress == Audible(s)
    && Increasing(s.taken + Ordinals(s.queue), s.emitted)
    && (!s.dropped && !s.aborted && !s.phase.Ended? && !s.phase.Finishing? ==>
          AllUpTo(s.taken + Ordinals(s.queue), s.emitted))
    && SentinelsLast(s.queue)
    && (Done in s.queue ==> s.finished)
    && (Abort in s.queue ==> s.aborted)
    && (s.phase.NotBegun? <==> s.handle.NoHandle? && !s.phase.Ended?)
    && (s.phase.Synthesising? || s.phase.Loop? || s.phase.Finishing? ==> s.handle.Handle?)
    && (s.handle.Handle? && s.handle.aborted ==> s.aborted || s.phase.Ended?)
    && (s.truncated ==> s.aborted)
    && (s.phase.Finishing? ==>
          s.finished && !s.truncated && Ordinals(s.queue) == [] && (!s.dropped ==> AllUpTo(s.taken, s.emitted)))
    && (s.completed ==>
          && s.phase.Ended? && s.finished && !s.dropped && !s.truncated && Audible(s)
          && AllUpTo(s.taken, s.emitted))
  }

  lemma {:induction false} OrdinalsAppend(a: seq<Item>, b: seq<Item>)
    ensures Ordinals(a + b) == Ordinals(a) + Ordinals(b)
    decreases |a|
  {
    if a == [] {
      assert a + b == b;
    } else {
      OrdinalsAppend(a[1..], b);
      assert (a + b)[0] == a[0] && (a + b)[1..] == a[1..] + b;
      var head := if a[0].Clause? then [a[0].n] else [];
      assert Ordinals(a + b) == head + (Ordinals(a[1..]) + Ordinals(b));
      assert Ordinals(a) + Ordinals(b) == head + Ordinals(a[1..]) + Ordinals(b);
    }
  }

  lemma {:induction false} OrdinalsOfClauses(base: nat, count: nat)
    ensures Ordinals(Clauses(base, count)) == seq(count, i requires 0 <= i < count => base + i)
    decreases count
  {
    if count > 0 {
      OrdinalsOfClauses(base, count - 1);
      var init := Clauses(base, count - 1);
      assert Clauses(base, count) == init + [Clause(base + count - 1)];
      OrdinalsAppend(init, [Clause(base + count - 1)]);
      assert Ordinals([Clause(base + count - 1)]) == [base + count - 1];
    }
  }

  lemma {:induction false} NoClausesNoOrdinals(queue: seq<Item>)
    requires forall i | 0 <= i < |queue| :: !queue[i].Clause?
    ensures Ordinals(queue) == []
    decreases |queue|
  {
    if queue != [] {
      NoClausesNoOrdinals(queue[1..]);
    }
  }

  lemma AppendRange(ns: seq<nat>, base: nat, fit: nat, count: nat)
    requires Increasing(ns, base) && fit <= count
    ensures var all := ns + seq(fit, i requires 0 <= i < fit => base + i);
            Increasing(all, base + count) && (AllUpTo(ns, base) && fit == count ==> AllUpTo(all, base + count))
  {
  }

  lemma ClausesAreNoSentinels(queue: seq<Item>, base: nat, count: nat)
    requires SentinelsLast(queue) && Done !in queue
    ensures SentinelsLast(queue + Clauses(base, count)) && Done !in queue + Clauses(base, count)
    ensures Abort in queue + Clauses(base, count) ==> Abort in queue
  {
  }

  lemma PushKeepsInv(s: Consumer, count: nat)
    requires Inv(s) && !s.aborted && Done !in s.queue && !s.phase.Finishing? && !s.completed
    ensures Inv(PushClauses(s, count)) && Done !in PushClauses(s, count).queue
  {
    var fit := Min(count, Room(s));
    var before := s.taken + Ordinals(s.queue);
    OrdinalsAppend(s.queue, Clauses(s.emitted, fit));
    OrdinalsOfClauses(s.emitted, fit);
    ClausesAreNoSentinels(s.queue, s.emitted, fit);
    AppendRange(before, s.emitted, fit, count);
    assert s.taken + Ordinals(s.queue + Clauses(s.emitted, fit)) ==
           before + seq(fit, i requires 0 <= i < fit => s.emitted + i);
  }

  lemma IncreasingWithout(a: seq<nat>, n: nat, b: seq<nat>, bound: nat)
    requires Increasing(a + ([n] + b), bound)
    ensures Increasing(a + b, bound)
  {
    var whole, rest := a + ([n] + b), a + b;
    forall i | 0 <= i < |rest|
      ensures rest[i] == whole[if i < |a| then i else i + 1] && rest[i] < bound
    {
    }
    forall i, j | 0 <= i < j < |rest|
      ensures rest[i] < rest[j]
    {
      assert whole[if i < |a| then i else i + 1] < whole[if j < |a| then j else j + 1];
    }
  }

  lemma EvictKeepsOrder(s: Consumer)
    requires Inv(s) && s.queue != []
    ensures Increasing(s.taken + Ordinals(s.queue[1..]), s.emitted)
    ensures SentinelsLast(s.queue[1..])
  {
    if s.queue[0].Clause? {
      IncreasingWithout(s.taken, s.queue[0].n, Ordinals(s.queue[1..]), s.emitted);
    } else {
      assert Ordinals(s.queue) == Ordinals(s.queue[1..]);
    }
  }

  /** A sentinel at the end changes no clause order. */
  lemma AppendSentinel(queue: seq<Item>, sentinel: Item)
    requires !sentinel.Clause?
    ensures Ordinals(queue + [sentinel]) == Ordinals(queue)
  {
    OrdinalsAppend(queue, [sentinel]);
    assert Ordinals([sentinel]) == [];
  }

  lemma EnqueueDoneKeepsInv(s: Consumer)
    requires Inv(s) && s.finished && !s.aborted && Done !in s.queue && !s.phase.Finishing? && !s.completed
    ensures Inv(EnqueueDone(s)) && Done in EnqueueDone(s).queue
  {
    if |s.queue| < CAPACITY {
      AppendSentinel(s.queue, Done);
    } else {
      EvictKeepsOrder(s);
      AppendSentinel(s.queue[1..], Done);
    }
  }

  /** An aborted turn only has to keep its order. */
  lemma AbortedInv(s: Consumer, queue: seq<Item>)
    requires Inv(s) && |queue| < CAPACITY && SentinelsLast(queue)
    requires Increasing(s.taken + Ordinals(queue), s.emitted)
    requires forall i | 0 <= i < |queue| :: queue[i] in s.queue
    requires s.phase.Finishing? ==> Ordinals(queue) == []
    ensures Inv(s.(aborted := true, queue := queue + [Abort]))
  {
    AppendSentinel(queue, Abort);
  }

  lemma CancelKeepsInv(s: Consumer)
    requires Inv(s)
    ensures Inv(AbortConsumer(s))
  {
    if !s.aborted {
      if |s.queue| < CAPACITY {
        AbortedInv(s, s.queue);
      } else {
        EvictKeepsOrder(s);
        AbortedInv(s, s.queue[1..]);
      }
    }
  }

  lemma TakeKeepsInv(s: Consumer)
    requires Inv(s)
    ensures Inv(Take(s))
  {
    if s.phase.Loop? && !s.aborted && s.queue != [] {
      EvictKeepsOrder(s);
      match s.queue[0]
      case Abort =>
        EndKeepsOrder(s);
      case Done =>
        NoClausesNoOrdinals(s.queue[1..]);
        assert s.taken + Ordinals(s.queue) == s.taken;
      case Clause(n) =>
        assert s.taken + Ordinals(s.queue) == (s.taken + [n]) + Ordinals(s.queue[1..]);
    } else {
      EndKeepsOrder(s);
    }
  }

  lemma EndKeepsOrder(s: Consumer)
    requires Increasing(s.taken + Ordinals(s.queue), s.emitted)
    ensures Increasing(s.taken + Ordinals([]), s.emitted)
  {
    assert s.taken + Ordinals([]) == (s.taken + Ordinals(s.queue))[..|s.taken|];
  }

  lemma FinishKeepsInv(s: Consumer, tail: nat)
    requires Inv(s)
    ensures Inv(Finish(s, tail))
  {
    if !s.finished && !s.aborted && s.active {
      PushKeepsInv(s.(finished := true), tail);
      EnqueueDoneKeepsInv(PushClauses(s.(finished := true), tail));
    }
  }

  /** Ending the task drops the queue and keeps what was taken. */
  lemma EndKeepsInv(s: Consumer, s': Consumer)
    requires Inv(s) && !s.phase.NotBegun? && s'.phase.Ended? && s'.queue == []
    requires s' == s.(phase := Ended, queue := [], handle := s'.handle, completed := s'.completed,
                      partial := s'.partial, suppress := s'.suppress)
    requires s'.suppress == Audible(s')
    requires s'.completed ==> s.finished && !s.dropped && !s.truncated && Audible(s') && AllUpTo(s.taken, s.emitted)
    ensures Inv(s')
  {
    EndKeepsOrder(s);
  }

  lemma TaskEndKeepsInv(s: Consumer, ev: Event)
    requires Inv(s) && (ev.ClauseRaises? || ev.FinishDone? || ev.Error?)
    ensures Inv(Step(s, ev))
  {
    if ev.ClauseRaises? {
      if s.phase.Synthesising? {
        EndKeepsInv(s, ClauseFailed(s));
      }
    } else if ev.FinishDone? {
      if s.phase.Finishing? {
        EndKeepsInv(s, FinishReturns(s, ev.ok));
      }
    } else if s.phase in {Loop, Synthesising, Finishing} {
      EndKeepsInv(s, TaskError(s));
    }
  }

  lemma TaskStepKeepsInv(s: Consumer, ev: Event)
    requires Inv(s) && (ev.StartTask? || ev.Chunk? || ev.ClauseEnds? || ev.AbortTask?)
    ensures Inv(Step(s, ev))
  {
    if ev.StartTask? {
      assert s.phase.NotBegun? ==> !Audible(s);
    } else if ev.Chunk? {
    } else if ev.ClauseEnds? {
    } else {
    }
  }

  lemma StepKeepsInv(s: Consumer, ev: Event)
    requires Inv(s)
    ensures Inv(Step(s, ev))
  {
    if ev.Delta? {
      if !s.aborted && s.active && !s.finished {
        PushKeepsInv(s, ev.clauses);
      }
    } else if ev.FinishText? {
      FinishKeepsInv(s, ev.tail);
    } else if ev.Cancel? {
      CancelKeepsInv(s);
    } else if ev.TakeNext? {
      TakeKeepsInv(s);
    } else if ev.ClauseRaises? || ev.FinishDone? || ev.Error? {
      TaskEndKeepsInv(s, ev);
    } else {
      TaskStepKeepsInv(s, ev);
    }
  }

  // ----- Whole runs -----

  function Run(active: bool, evs: seq<Event>): Consumer
    decreases |evs|
  {
    if evs == [] then New(active) else Step(Run(active, evs[..|evs| - 1]), evs[|evs| - 1])
  }

  lemma {:induction false} RunKeepsInv(active: bool, evs: seq<Event>)
    ensures Inv(Run(active, evs))
    decreases |evs|
  {
    if evs != [] {
      RunKeepsInv(active, evs[..|evs| - 1]);
      StepKeepsInv(Run(active, evs[..|evs| - 1]), evs[|evs| - 1]);
    }
  }

  /** At every moment of every run: clauses go to synthesis in emission order and at most once, and the whole-file
      fallback is suppressed exactly when something was audible. */
  lemma ClausesInOrderAndSuppressionIsAudibility(active: bool, evs: seq<Event>)
    ensures var s := Run(active, evs);
            && (forall i, j | 0 <= i < j < |s.taken| :: s.taken[i] < s.taken[j])
            && (forall i | 0 <= i < |s.taken| :: s.taken[i] < s.emitted)
            && s.suppress == Audible(s)
            && |s.queue| <= CAPACITY
  {
    var s := Run(active, evs);
    RunKeepsInv(active, evs);
    var ns := s.taken + Ordinals(s.queue);
    assert forall i | 0 <= i < |s.taken| :: ns[i] == s.taken[i];
  }

  /** A cancellation that arrives before the stream is being finished. */
  ghost predicate CancelledEarly(active: bool, evs: seq<Event>)
    decreases |evs|
  {
    evs != [] && (CancelledEarly(active, evs[..|evs| - 1]) ||
                  (evs[|evs| - 1].Cancel? && !(Run(active, evs[..|evs| - 1]).phase in {Finishing, Ended})))
  }

  lemma AgentSideKeepsPhase(s: Consumer, ev: Event)
    requires ev.Delta? || ev.FinishText? || ev.Cancel? || ev.AbortTask?
    ensures var s' := Step(s, ev);
            s'.phase == s.phase && s'.completed == s.completed && s'.aborted == (s.aborted || ev.Cancel?)
  {
    if ev.Delta? {
    } else if ev.FinishText? {
    } else if ev.Cancel? {
    } else {
    }
  }

  lemma AbortedTaskNeverFinishes(s: Consumer, ev: Event)
    requires !s.phase.Finishing? && !s.completed && s.aborted
    requires !(ev.Delta? || ev.FinishText? || ev.Cancel? || ev.AbortTask?)
    ensures var s' := Step(s, ev); s'.aborted && !s'.phase.Finishing? && !s'.completed
  {
    if ev.TakeNext? {
      assert Take(s) == if s.phase.Loop? then End(s) else s;
    } else if ev.FinishDone? {
      assert FinishReturns(s, ev.ok) == s;
    } else if ev.StartTask? {
    } else if ev.Chunk? {
    } else if ev.ClauseEnds? {
    } else if ev.ClauseRaises? {
    } else {
    }
  }

  lemma AbortedStepNeverFinishes(s: Consumer, ev: Event)
    requires !s.phase.Finishing? && !s.completed
    requires s.aborted || ev.Cancel?
    ensures var s' := Step(s, ev); s'.aborted && !s'.phase.Finishing? && !s'.completed
  {
    if ev.Delta? || ev.FinishText? || ev.Cancel? || ev.AbortTask? {
      AgentSideKeepsPhase(s, ev);
    } else {
      AbortedTaskNeverFinishes(s, ev);
    }
  }

  lemma {:induction false} EarlyCancelNeverFinishes(active: bool, evs: seq<Event>)
    requires CancelledEarly(active, evs)
    ensures var s := Run(active, evs); s.aborted && !s.phase.Finishing? && !s.completed
    decreases |evs|
  {
    var init, ev := evs[..|evs| - 1], evs[|evs| - 1];
    if CancelledEarly(active, init) {
      EarlyCancelNeverFinishes(active, init);
    }
    RunKeepsInv(active, init);
    AbortedStepNeverFinishes(Run(active, init), ev);
  }

  /** The adapter's finish returns at event `k`, with something heard and nothing dropped. */
  ghost predicate FinishesWell(active: bool, evs: seq<Event>, k: nat) {
    && k < |evs| && evs[k] == FinishDone(true)
    && var s := Run(active, evs[..k]); s.phase.Finishing? && Audible(s) && !s.dropped
  }

  lemma StepCompleted(s: Consumer, ev: Event)
    requires Inv(s)
    ensures Step(s, ev).completed <==>
            s.completed || (ev == FinishDone(true) && s.phase.Finishing? && Audible(s) && !s.dropped)
  {
    if ev.Delta? || ev.FinishText? || ev.Cancel? || ev.AbortTask? {
      AgentSideKeepsPhase(s, ev);
    } else if ev.TakeNext? {
      assert Take(s).completed == s.completed;
    } else if ev.FinishDone? {
    } else if ev.ClauseRaises? {
    } else if ev.StartTask? {
    } else if ev.Chunk? {
    } else if ev.ClauseEnds? {
    } else {
    }
  }

  /** The completed flag is set exactly by such a return, and nothing takes it back. */
  lemma {:induction false} CompletedIffFinishedWell(active: bool, evs: seq<Event>)
    ensures Run(active, evs).completed <==> exists k :: FinishesWell(active, evs, k)
    decreases |evs|
  {
    if evs != [] {
      var n := |evs| - 1;
      var init := evs[..n];
      CompletedIffFinishedWell(active, init);
      RunKeepsInv(active, init);
      StepCompleted(Run(active, init), evs[n]);
      forall k: nat | k < n
        ensures FinishesWell(active, evs, k) <==> FinishesWell(active, init, k)
      {
        assert init[..k] == evs[..k];
      }
      if Run(active, evs).completed && !Run(active, init).completed {
        assert FinishesWell(active, evs, n);
      }
      if Run(active, init).completed {
        var k :| FinishesWell(active, init, k);
        assert FinishesWell(active, evs, k);
      }
    }
  }

  lemma StepAborted(s: Consumer, ev: Event)
    ensures Step(s, ev).aborted <==> s.aborted || ev.Cancel?
  {
    if ev.Delta? || ev.FinishText? || ev.Cancel? || ev.AbortTask? {
      AgentSideKeepsPhase(s, ev);
    } else if ev.TakeNext? {
      assert Take(s).aborted == s.aborted;
    } else if ev.FinishDone? {
    } else if ev.ClauseRaises? {
    } else if ev.StartTask? {
    } else if ev.Chunk? {
    } else if ev.ClauseEnds? {
    } else {
    }
  }

  lemma {:induction false} AbortedIffCancelled(active: bool, evs: seq<Event>)
    ensures Run(active, evs).aborted <==> Cancel in evs
    decreases |evs|
  {
    if evs != [] {
      var n := |evs| - 1;
      AbortedIffCancelled(active, evs[..n]);
      StepAborted(Run(active, evs[..n]), evs[n]);
      assert evs == evs[..n] + [evs[n]];
    }
  }

  lemma {:induction false} NoEarlyCancelAt(active: bool, evs: seq<Event>, k: nat)
    requires !CancelledEarly(active, evs) && k < |evs| && evs[k].Cancel?
    ensures Run(active, evs[..k]).phase in {Finishing, Ended}
    decreases |evs|
  {
    var n := |evs| - 1;
    if k < n {
      assert evs[..n][..k] == evs[..k];
      NoEarlyCancelAt(active, evs[..n], k);
    }
  }

  /** Full success means what it says: the text ended, the adapter's finish returned, nothing was dropped or cut
      short, every emitted clause was processed in order and something was heard. The turn is also aborted exactly if
      it was cancelled at all, and every cancellation came when the adapter was already finishing or later. */
  lemma CompletedMeansEverythingPlayed(active: bool, evs: seq<Event>)
    requires Run(active, evs).completed
    ensures var s := Run(active, evs);
            && s.finished && !s.dropped && !s.truncated && s.suppress
            && AllUpTo(s.taken, s.emitted)
            && (exists k :: FinishesWell(active, evs, k))
            && (s.aborted <==> Cancel in evs)
    ensures forall k | 0 <= k < |evs| && evs[k].Cancel? :: Run(active, evs[..k]).phase in {Finishing, Ended}
  {
    RunKeepsInv(active, evs);
    CompletedIffFinishedWell(active, evs);
    AbortedIffCancelled(active, evs);
    if CancelledEarly(active, evs) {
      EarlyCancelNeverFinishes(active, evs);
    }
    forall k | 0 <= k < |evs| && evs[k].Cancel?
      ensures Run(active, evs[..k]).phase in {Finishing, Ended}
    {
      NoEarlyCancelAt(active, evs, k);
    }
  }

  /** Both flags at once, over every run: exactly when the adapter's finish returned well and a cancellation is part
      of the run. */
  lemma CompletedAndAbortedIff(active: bool, evs: seq<Event>)
    ensures Run(active, evs).completed && Run(active, evs).aborted <==>
            (exists k :: FinishesWell(active, evs, k)) && Cancel in evs
  {
    CompletedIffFinishedWell(active, evs);
    AbortedIffCancelled(active, evs);
  }

  lemma RunSnoc(active: bool, evs: seq<Event>, ev: Event)
    ensures Run(active, evs + [ev]) == Step(Run(active, evs), ev)
  {
    assert (evs + [ev])[..|evs + [ev]| - 1] == evs;
  }

  lemma CancelThenFinish(s: Consumer)
    requires s.phase.Finishing? && Audible(s) && !s.dropped
    ensures var t := Step(Step(s, Cancel), FinishDone(true)); t.completed && t.aborted
  {
    var c := AbortConsumer(s);
    assert c.phase == s.phase && c.aborted && c.handle == s.handle && c.dropped == s.dropped;
    assert Step(c, FinishDone(true)) == FinishReturns(c, true);
  }

  /** The flag is settled without another look at the abort flag: a cancellation during the wait for the adapter
      leaves the turn both aborted and completed. */
  lemma CancelDuringFinishStillCompletes(active: bool, evs: seq<Event>)
    requires var s := Run(active, evs); s.phase.Finishing? && Audible(s) && !s.dropped
    ensures var s := Run(active, evs + [Cancel] + [FinishDone(true)]); s.completed && s.aborted
  {
    RunSnoc(active, evs, Cancel);
    RunSnoc(active, evs + [Cancel], FinishDone(true));
    CancelThenFinish(Run(active, evs));
  }

  /** So does one after the turn has ended. */
  lemma CancelAfterEndKeepsCompleted(active: bool, evs: seq<Event>)
    requires Run(active, evs).completed
    ensures var s := Run(active, evs + [Cancel]); s.completed && s.aborted
  {
    RunSnoc(active, evs, Cancel);
    AgentSideKeepsPhase(Run(active, evs), Cancel);
  }

  /** Both failing inputs exist. */
  lemma BothFlagsReachable() returns (during: seq<Event>, after: seq<Event>)
    ensures |during| >= 2 && during[|during| - 2..] == [Cancel, FinishDone(true)]
    ensures |after| >= 2 && after[|after| - 2..] == [FinishDone(true), Cancel]
    ensures Run(true, during).completed && Run(true, during).aborted
    ensures Run(true, after).completed && Run(true, after).aborted
  {
    var evs := FinishingIsReachable();
    CancelDuringFinishStillCompletes(true, evs);
    during := evs + [Cancel] + [FinishDone(true)];
    RunSnoc(true, evs, FinishDone(true));
    RunKeepsInv(true, evs);
    StepCompleted(Run(true, evs), FinishDone(true));
    CancelAfterEndKeepsCompleted(true, evs + [FinishDone(true)]);
    after := evs + [FinishDone(true)] + [Cancel];
  }

  /** Such a run exists. */
  lemma FinishingIsReachable() returns (evs: seq<Event>)
    ensures var s := Run(true, evs); s.phase.Finishing? && !s.aborted && Audible(s) && !s.dropped
  {
    var s0 := New(true);
    var s1 := s0.(handle := Handle(false, false), phase := Loop);
    var s2 := s1.(queue := [Clause(0)], emitted := 1);
    var s3 := s2.(queue := [Clause(0), Done], finished := true);
    var s4 := s3.(queue := [Done], phase := Synthesising, taken := [0]);
    var s5 := s4.(handle := Handle(true, false), suppress := true);
    var s6 := s5.(phase := Loop);
    assert Step(s0, StartTask(true)) == s1;
    assert Step(s1, Delta(1)) == s2;
    assert PushClauses(s2.(finished := true), 0) == s2.(finished := true);
    assert Step(s2, FinishText(0)) == s3;
    assert Step(s3, TakeNext) == s4;
    assert Step(s4, Chunk(false)) == s5 && Step(s5, ClauseEnds) == s6;
    assert Step(s6, TakeNext) == s6.(queue := [], phase := Finishing);
    evs := [];
    RunSnoc(true, evs, StartTask(true));
    evs := evs + [StartTask(true)];
    RunSnoc(true, evs, Delta(1));
    evs := evs + [Delta(1)];
    RunSnoc(true, evs, FinishText(0));
    evs := evs + [FinishText(0)];
    RunSnoc(true, evs, TakeNext);
    evs := evs + [TakeNext];
    RunSnoc(true, evs, Chunk(false));
    evs := evs + [Chunk(false)];
    RunSnoc(true, evs, ClauseEnds);
    evs := evs + [ClauseEnds];
    RunSnoc(true, evs, TakeNext);
    evs := evs + [TakeNext];
  }

  /** The first `finish` of a live turn leaves the end sentinel last in the queue, full or not. */
  lemma EndSentinelAlwaysFits(s: Consumer, tail: nat)
    requires Inv(s) && !s.finished && !s.aborted && s.active
    ensures var f := Finish(s, tail);
            f.queue != [] && f.queue[|f.queue| - 1] == Done && |f.queue| <= CAPACITY
  {
  }

  lemma TakeShrinks(s: Consumer)
    requires s.phase.Loop? && s.queue != []
    ensures |ClauseDone(Take(s)).queue| < |s.queue|
  {
    if s.aborted {
    } else if s.queue[0].Clause? {
    } else if s.queue[0].Done? {
    } else {
    }
  }

  /** Clauses taken one after another without failures. */
  function Drain(s: Consumer): Consumer
    decreases |s.queue|
  {
    if !s.phase.Loop? || s.aborted || s.queue == [] then s
    else
      TakeShrinks(s);
      Drain(ClauseDone(Take(s)))
  }

  lemma DrainAtSentinel(s: Consumer)
    requires s.phase.Loop? && !s.aborted && s.queue != [] && s.queue[0].Done? && SentinelsLast(s.queue)
    ensures Drain(s).phase.Finishing? && Drain(s).taken == s.taken + Ordinals(s.queue)
  {
    NoClausesNoOrdinals(s.queue[1..]);
    var next := s.(queue := s.queue[1..], phase := Finishing);
    assert ClauseDone(Take(s)) == next && Drain(next) == next;
    assert s.taken + Ordinals(s.queue) == s.taken;
  }

  lemma DrainAtClause(s: Consumer)
    requires s.phase.Loop? && !s.aborted && s.queue != [] && s.queue[0].Clause?
    ensures Drain(s) == Drain(s.(queue := s.queue[1..], taken := s.taken + [s.queue[0].n]))
  {
    assert ClauseDone(Take(s)) == s.(queue := s.queue[1..], taken := s.taken + [s.queue[0].n]);
  }

  /** From there the drain loop reaches the finishing call, having processed every queued clause. */
  lemma {:induction false} DrainReachesFinish(s: Consumer)
    requires s.phase.Loop? && !s.aborted && Done in s.queue && Abort !in s.queue && SentinelsLast(s.queue)
    ensures Drain(s).phase.Finishing? && Drain(s).taken == s.taken + Ordinals(s.queue)
    decreases |s.queue|
  {
    assert s.queue[0] in s.queue;
    if s.queue[0].Done? {
      DrainAtSentinel(s);
    } else {
      DrainAtClause(s);
      DrainReachesFinish(s.(queue := s.queue[1..], taken := s.taken + [s.queue[0].n]));
      assert s.taken + [s.queue[0].n] + Ordinals(s.queue[1..]) == s.taken + ([s.queue[0].n] + Ordinals(s.queue[1..]));
    }
  }

  // ----- The object -----

  class StreamingConsumer {
    const active: bool
    var queue: seq<Item>
    var handle: Handle
    var phase: Phase
    var completed: bool
    var partial: bool
    var aborted: bool
    var finished: bool
    var dropped: bool
    var suppress: bool
    ghost var emitted: nat
    ghost var taken: seq<nat>
    ghost var truncated: bool
    var nextClause: nat

    ghost function View(): Consumer
      reads this
    {
      Consumer(active, queue, handle, phase, completed, partial, aborted, finished, dropped, suppress, emitted, taken,
               truncated)
    }

    ghost predicate Valid()
      reads this
    {
      Inv(View()) && nextClause == emitted
    }

    constructor (active: bool)
      ensures Valid() && View() == New(active)
    {
      this.active := active;
      queue, handle, phase := [], NoHandle, NotBegun;
      completed, partial, aborted, finished, dropped, suppress := false, false, false, false, false, false;
      emitted, taken, truncated, nextClause := 0, [], false, 0;
    }

    /** The loop that queues clauses until one does not fit. */
    method PutClauses(count: nat)
      requires |queue| <= CAPACITY && nextClause == emitted
      modifies `queue, `dropped, `emitted, `nextClause
      ensures var fit := Min(count, CAPACITY - old(|queue|));
              queue == old(queue) + Clauses(old(emitted), fit) && dropped == (old(dropped) || fit < count)
      ensures emitted == nextClause == old(emitted) + count
    {
      var i := 0;
      while i < count && |queue| < CAPACITY
        invariant 0 <= i <= count && |queue| <= CAPACITY
        invariant queue == old(queue) + Clauses(old(emitted), i)
        invariant dropped == old(dropped) && nextClause == emitted == old(emitted)
      {
        assert Clauses(emitted, i + 1) == Clauses(emitted, i) + [Clause(emitted + i)];
        queue := queue + [Clause(nextClause + i)];
        i := i + 1;
      }
      if i < count {
        dropped := true;
      }
      nextClause := nextClause + count;
      emitted := emitted + count;
    }

    method OnTextDelta(count: nat)
      requires Valid()
      modifies this
      ensures Valid() && View() == OnDelta(old(View()), count)
    {
      StepKeepsInv(View(), Delta(count));
      if aborted || !active || finished {
        return;
      }
      PutClauses(count);
    }

    /** Try to enqueue the sentinel, evicting one item whenever the queue is full. */
    method PutDone()
      requires |queue| <= CAPACITY
      modifies `queue, `dropped
      ensures if old(|queue|) < CAPACITY then queue == old(queue) + [Done] && dropped == old(dropped)
              else queue == old(queue)[1..] + [Done] && dropped
    {
      var placed := false;
      ghost var evicted := false;
      while !placed
        invariant evicted ==> old(|queue|) == CAPACITY
        invariant !placed ==> queue == if evicted then old(queue)[1..] else old(queue)
        invariant placed ==> queue == (if evicted then old(queue)[1..] else old(queue)) + [Done]
        invariant placed ==> evicted == (old(|queue|) == CAPACITY)
        invariant dropped == (old(dropped) || evicted)
        decreases !placed, !evicted
      {
        if |queue| < CAPACITY {
          queue := queue + [Done];
          placed := true;
        } else {
          queue := queue[1..];
          dropped := true;
          evicted := true;
        }
      }
    }

    /** Flush the tail and place the end sentinel. */
    method PutTailAndDone(tail: nat)
      requires |queue| <= CAPACITY && nextClause == emitted
      modifies `queue, `dropped, `emitted, `nextClause
      ensures View() == EnqueueDone(PushClauses(old(View()), tail)) && nextClause == emitted
    {
      PutClauses(tail);
      assert View() == PushClauses(old(View()), tail);
      PutDone();
    }

    method FinishStream(tail: nat)
      requires Valid()
      modifies this
      ensures Valid() && View() == Finish(old(View()), tail)
    {
      FinishKeepsInv(View(), tail);
      if finished {
        return;
      }
      finished := true;
      if aborted || !active {
        return;
      }
      PutTailAndDone(tail);
    }

    /** At most three attempts to place the abort sentinel; the second one already succeeds. */
    method PutAbort()
      requires |queue| <= CAPACITY
      modifies `queue
      ensures queue == (if old(|queue|) < CAPACITY then old(queue) else old(queue)[1..]) + [Abort]
    {
      for attempt := 0 to 3
        invariant attempt <= 1
        invariant attempt == 1 ==> old(|queue|) == CAPACITY
        invariant queue == if attempt == 0 then old(queue) else old(queue)[1..]
      {
        if |queue| < CAPACITY {
          queue := queue + [Abort];
          return;
        }
        queue := queue[1..];
      }
    }

    method AbortStream()
      requires Valid()
      modifies this
      ensures Valid() && View() == AbortConsumer(old(View()))
    {
      StepKeepsInv(View(), Cancel);
      if aborted {
        return;
      }
      aborted := true;
      PutAbort();
    }

    /** One round of the drain loop. */
    method TakeOne()
      modifies this
      ensures View() == Take(old(View())) && (old(Valid()) ==> Valid())
    {
      if Valid() {
        StepKeepsInv(View(), TakeNext);
      }
      if !phase.Loop? {
        return;
      }
      if aborted {
        phase, queue := Ended, [];
        return;
      }
      if queue == [] {
        return;
      }
      var item := queue[0];
      queue := queue[1..];
      match item
      case Abort => phase, queue := Ended, [];
      case Done => phase := Finishing;
      case Clause(n) =>
        phase := Synthesising;
        taken := taken + [n];
    }

    method WriteOneChunk(empty: bool)
      requires Valid()
      modifies this
      ensures Valid() && View() == WriteChunk(old(View()), empty)
    {
      StepKeepsInv(View(), Chunk(empty));
      if !phase.Synthesising? || handle.NoHandle? {
        return;
      }
      if aborted || handle.aborted {
        phase, truncated := Loop, true;
        return;
      }
      if !empty && !handle.audible {
        handle := handle.(audible := true);
        suppress := true;
      }
    }

    /** The outcome branches after `finish_streaming_tts`. */
    method FinishOutcome(failed: bool)
      requires Valid() && phase.Finishing?
      modifies this
      ensures Valid() && View() == FinishReturns(old(View()), !failed)
    {
      StepKeepsInv(View(), FinishDone(!failed));
      if failed {
        if handle.audible {
          partial, completed, suppress := true, false, true;
        } else {
          completed, suppress := false, false;
        }
        handle := handle.(aborted := true);
      } else if handle.audible && !dropped {
        completed, suppress := true, true;
      } else if handle.audible && dropped {
        partial, completed, suppress := true, false, true;
      } else {
        completed, suppress := false, false;
      }
      phase, queue := Ended, [];
    }
  }
}
