/** A provider stream driven through the Relay: aligning what the Relay emits with the raw chunks the provider
    produced, and falling back to those chunks when the Relay fails after the provider succeeded.

    `E` is the JSON form of a chunk, compared by value; `R` is the provider's own object. */
module RelayStream {
  import opened Collections

  /** What the caller receives: a provider object, or an emitted chunk wrapped by the adapter. */
  datatype Out<E, R> = Raw(raw: R) | Adapted(chunk: E)

  /** Where the iterator stands: reading from the Relay, draining what the provider left, or closed. */
  datatype Phase<R> = Managed | Fallback(pending: seq<R>) | Closed

  datatype Stream<E, R> = Stream(queue: seq<(E, R)>, modified: bool, completed: bool, failed: bool, phase: Phase<R>)

  /** How one read from the Relay ends. `ordinary` separates exceptions from cancellation. */
  datatype Answer<E> = Chunk(chunk: E) | Ended | Failed(ordinary: bool)

  datatype Next<E, R> = Item(out: Out<E, R>) | Stop | Raised

  function Raws<E, R>(pairs: seq<(E, R)>): seq<R> {
    seq(|pairs|, i requires 0 <= i < |pairs| => pairs[i].1)
  }

  /** `provider_stream` queues a chunk before handing it to the Relay. */
  function Produce<E, R>(s: Stream<E, R>, chunk: E, raw: R): Stream<E, R> {
    s.(queue := s.queue + [(chunk, raw)])
  }

  /** Align an emitted chunk: hand over the matching raw chunk and forget everything queued before it. */
  function Align<E(==), R>(s: Stream<E, R>, chunk: E): (Stream<E, R>, Out<E, R>) {
    var i := IndexOf(s.queue, chunk);
    if i < |s.queue| then
      (s.(queue := s.queue[i + 1..], modified := s.modified || i > 0), Raw(s.queue[i].1))
    else
      (s.(modified := true), Adapted(chunk))
  }

  function DrainOne<E, R>(s: Stream<E, R>): (Stream<E, R>, Next<E, R>)
    requires s.phase.Fallback?
  {
    if s.phase.pending == [] then (s.(phase := Closed), Stop)
    else (s.(phase := Fallback(s.phase.pending[1..])), Item(Raw(s.phase.pending[0])))
  }

  function PreservePending<E, R>(s: Stream<E, R>): Stream<E, R> {
    s.(queue := [], phase := Fallback(Raws(s.queue)))
  }

  /** `__next__`; `answer` is what the Relay says if it is asked. */
  function NextItem<E(==), R>(s: Stream<E, R>, answer: Answer<E>): (Stream<E, R>, Next<E, R>) {
    match s.phase
    case Closed => (s, Stop)
    case Fallback(_) => DrainOne(s)
    case Managed =>
      match answer
      case Chunk(chunk) =>
        var (s', out) := Align(s, chunk);
        (s', Item(out))
      case Ended => (s.(modified := s.modified || s.queue != [], phase := Closed), Stop)
      case Failed(ordinary) =>
        if ordinary && s.completed && !s.failed then DrainOne(PreservePending(s))
        else (s.(phase := Closed), Raised)
  }

  // ----- The object itself -----

  class ManagedStream<E(==), R> {
    var rawChunks: seq<(E, R)>
    var outputModified: bool
    var providerCompleted: bool
    var callbackFailed: bool
    var phase: Phase<R>

    ghost function View(): Stream<E, R>
      reads this
    {
      Stream(rawChunks, outputModified, providerCompleted, callbackFailed, phase)
    }

    constructor ()
      ensures View() == Stream([], false, false, false, Managed)
    {
      rawChunks, outputModified, providerCompleted, callbackFailed, phase := [], false, false, false, Managed;
    }

    method ProviderChunk(chunk: E, raw: R)
      modifies this
      ensures View() == Produce(old(View()), chunk, raw)
    {
      rawChunks := rawChunks + [(chunk, raw)];
    }

    /** The alignment loop over the queued chunks. */
    method AlignChunk(chunk: E) returns (out: Out<E, R>)
      modifies this
      ensures (View(), out) == Align(old(View()), chunk)
    {
      for index := 0 to |rawChunks|
        invariant View() == old(View())
        invariant forall j | 0 <= j < index :: rawChunks[j].0 != chunk
      {
        if rawChunks[index].0 == chunk {
          IndexOfIs(rawChunks, chunk, index);
          if index > 0 {
            outputModified := true;
          }
          out := Raw(rawChunks[index].1);
          rawChunks := rawChunks[index + 1..];
          return;
        }
      }
      IndexOfIs(rawChunks, chunk, |rawChunks|);
      outputModified := true;
      out := Adapted(chunk);
    }

    /** Switch a failed Relay stream to the provider chunks that were not delivered. */
    method PreservePendingChunks()
      modifies this
      ensures View() == PreservePending(old(View()))
    {
      phase := Fallback(Raws(rawChunks));
      rawChunks := [];
    }

    method DrainNext() returns (next: Next<E, R>)
      requires phase.Fallback?
      modifies this
      ensures (View(), next) == DrainOne(old(View()))
    {
      if phase.pending == [] {
        phase := Closed;
        return Stop;
      }
      next := Item(Raw(phase.pending[0]));
      phase := Fallback(phase.pending[1..]);
    }

    method NextChunk(answer: Answer<E>) returns (next: Next<E, R>)
      modifies this
      ensures (View(), next) == NextItem(old(View()), answer)
    {
      if phase.Closed? {
        return Stop;
      }
      if phase.Fallback? {
        next := DrainNext();
        return;
      }
      match answer
      case Chunk(chunk) =>
        var out := AlignChunk(chunk);
        next := Item(out);
      case Ended =>
        if rawChunks != [] {
          outputModified := true;
        }
        phase := Closed;
        next := Stop;
      case Failed(ordinary) =>
        if ordinary && providerCompleted && !callbackFailed {
          PreservePendingChunks();
          next := DrainNext();
        } else {
          phase := Closed;
          next := Raised;
        }
    }
  }

  lemma {:induction false} IndexOfIs<E, R>(queue: seq<(E, R)>, chunk: E, i: nat)
    requires i <= |queue| && (i < |queue| ==> queue[i].0 == chunk)
    requires forall j | 0 <= j < i :: queue[j].0 != chunk
    ensures IndexOf(queue, chunk) == i
  {
    var f := IndexOf(queue, chunk);
    if f < i {
    } else if i < f {
    }
  }

  // ----- Whole runs -----

  datatype Event<E, R> = Yield(chunk: E, raw: R) | Complete | CallbackError | Ask(answer: Answer<E>)

  /** The provider generator only advances while the Relay reads it, and not past its end. A callback error can also
      come from the finalizer, after the provider has completed. */
  predicate Enabled<E, R>(s: Stream<E, R>, ev: Event<E, R>) {
    ev.Ask? || (s.phase.Managed? && !s.failed && (ev.CallbackError? || !s.completed))
  }

  /** A stream together with its past: what the provider produced, what the Relay emitted, what the caller got, and
      for each item got its position among the produced chunks, or -1 for an adapted one. */
  datatype Run<E, R> = Run(s: Stream<E, R>, produced: seq<(E, R)>, emitted: seq<E>, got: seq<Out<E, R>>, at: seq<int>)

  function Start<E, R>(): Run<E, R> {
    Run(Stream([], false, false, false, Managed), [], [], [], [])
  }

  /** Where in `produced` the next item to be got comes from. */
  function Position<E(==), R>(r: Run<E, R>, answer: Answer<E>): int {
    match r.s.phase
    case Closed => -1
    case Fallback(pending) => |r.produced| - |pending|
    case Managed =>
      var i := if answer.Chunk? then IndexOf(r.s.queue, answer.chunk) else 0;
      if i < |r.s.queue| then |r.produced| - |r.s.queue| + i else -1
  }

  function Step<E(==), R>(r: Run<E, R>, ev: Event<E, R>): Run<E, R> {
    match ev
    case Yield(chunk, raw) => r.(s := Produce(r.s, chunk, raw), produced := r.produced + [(chunk, raw)])
    case Complete => r.(s := r.s.(completed := true))
    case CallbackError => r.(s := r.s.(failed := true))
    case Ask(answer) =>
      var (s', next) := NextItem(r.s, answer);
      Run(s', r.produced,
          if r.s.phase.Managed? && answer.Chunk? then r.emitted + [answer.chunk] else r.emitted,
          if next.Item? then r.got + [next.out] else r.got,
          if next.Item? then r.at + [Position(r, answer)] else r.at)
  }

  /** Any sequence of events from a new stream; an event that cannot happen is skipped. */
  function Replay<E(==), R>(evs: seq<Event<E, R>>): Run<E, R> {
    if evs == [] then Start()
    else
      var before := Replay(evs[..|evs| - 1]);
      if Enabled(before.s, evs[|evs| - 1]) then Step(before, evs[|evs| - 1]) else before
  }

  /** Produced chunks not yet passed over: the queue, or what the fallback still has to deliver. */
  function Waiting<E, R>(s: Stream<E, R>): nat {
    if s.phase.Fallback? then |s.phase.pending| else |s.queue|
  }

  ghost predicate RunInv<E, R>(r: Run<E, R>) {
    var passed := |r.produced| - Waiting(r.s);
    && 0 <= passed
    && (!r.s.phase.Fallback? ==> r.s.queue == r.produced[passed..])
    && (r.s.phase.Fallback? ==> r.s.queue == [] && r.s.completed && r.s.phase.pending == Raws(r.produced[passed..]))
    && |r.at| == |r.got|
    && (forall i | 0 <= i < |r.at| :: -1 <= r.at[i] < passed)
    && (forall i | 0 <= i < |r.at| ::
          if r.at[i] == -1 then r.got[i].Adapted? else r.got[i] == Raw(r.produced[r.at[i]].1))
    && (forall i, j | 0 <= i < j < |r.at| && r.at[i] != -1 && r.at[j] != -1 :: r.at[i] < r.at[j])
    && (!r.s.modified ==> |r.at| == passed && forall i | 0 <= i < passed :: r.at[i] == i)
  }

  lemma RawsDrop<E, R>(pairs: seq<(E, R)>, k: nat)
    requires k <= |pairs|
    ensures Raws(pairs[k..]) == Raws(pairs)[k..]
  {
  }

  /** Getting the produced chunk at `p`, after passing over everything before it, keeps the record in order. */
  lemma TakeKeepsRunInv<E, R>(r: Run<E, R>, r': Run<E, R>, p: nat)
    requires RunInv(r) && |r.produced| - Waiting(r.s) <= p < |r.produced|
    requires r'.produced == r.produced && r'.at == r.at + [p] && r'.got == r.got + [Raw(r.produced[p].1)]
    requires Waiting(r'.s) == |r.produced| - (p + 1)
    requires !r'.s.phase.Fallback? ==> r'.s.queue == r.produced[p + 1..]
    requires r'.s.phase.Fallback? ==>
               r'.s.queue == [] && r'.s.completed && r'.s.phase.pending == Raws(r.produced[p + 1..])
    requires !r'.s.modified ==> !r.s.modified && p == |r.produced| - Waiting(r.s)
    ensures RunInv(r')
  {
  }

  lemma FallbackKeepsRunInv<E, R>(r: Run<E, R>)
    requires RunInv(r) && r.s.phase.Fallback?
    ensures RunInv(Step(r, Ask(Ended)))
  {
    var passed := |r.produced| - Waiting(r.s);
    if r.s.phase.pending != [] {
      RawsDrop(r.produced[passed..], 1);
      assert r.produced[passed..][1..] == r.produced[passed + 1..];
      TakeKeepsRunInv(r, Step(r, Ask(Ended)), passed);
    }
  }

  lemma PreserveKeepsRunInv<E, R>(r: Run<E, R>)
    requires RunInv(r) && r.s.phase.Managed? && r.s.completed
    ensures RunInv(r.(s := PreservePending(r.s)))
  {
  }

  lemma AdaptKeepsRunInv<E, R>(r: Run<E, R>, r': Run<E, R>, out: Out<E, R>)
    requires RunInv(r) && out.Adapted?
    requires r'.produced == r.produced && r'.at == r.at + [-1] && r'.got == r.got + [out]
    requires r'.s == r.s.(modified := true)
    ensures RunInv(r')
  {
  }

  lemma EmitKeepsRunInv<E, R>(r: Run<E, R>, chunk: E)
    requires RunInv(r) && r.s.phase.Managed?
    ensures RunInv(Step(r, Ask(Chunk(chunk))))
  {
    var passed := |r.produced| - Waiting(r.s);
    var i := IndexOf(r.s.queue, chunk);
    var r' := Step(r, Ask(Chunk(chunk)));
    if i < |r.s.queue| {
      assert r.s.queue[i] == r.produced[passed + i];
      assert r.produced[passed..][i + 1..] == r.produced[passed + i + 1..];
      assert r'.got == r.got + [Raw(r.produced[passed + i].1)] && r'.at == r.at + [passed + i];
      TakeKeepsRunInv(r, r', passed + i);
    } else {
      AdaptKeepsRunInv(r, r', Adapted(chunk));
    }
  }

  lemma YieldKeepsRunInv<E, R>(r: Run<E, R>, chunk: E, raw: R)
    requires RunInv(r) && r.s.phase.Managed?
    ensures RunInv(Step(r, Yield(chunk, raw)))
  {
    var passed := |r.produced| - Waiting(r.s);
    assert (r.produced + [(chunk, raw)])[passed..] == r.produced[passed..] + [(chunk, raw)];
  }

  /** Failing over and taking the next item is the same as taking it from the fallback. */
  lemma FailOverIsDrain<E, R>(r: Run<E, R>)
    requires r.s.phase.Managed? && r.s.completed && !r.s.failed
    ensures Step(r, Ask(Failed(true))) == Step(r.(s := PreservePending(r.s)), Ask(Ended))
  {
  }

  lemma CloseKeepsRunInv<E, R>(r: Run<E, R>, modified: bool)
    requires RunInv(r) && !r.s.phase.Fallback? && (r.s.modified ==> modified)
    ensures RunInv(r.(s := r.s.(modified := modified, phase := Closed)))
  {
  }

  lemma AnswerKeepsRunInv<E, R>(r: Run<E, R>, answer: Answer<E>)
    requires RunInv(r) && r.s.phase.Managed?
    ensures RunInv(Step(r, Ask(answer)))
  {
    match answer
    case Chunk(chunk) => EmitKeepsRunInv(r, chunk);
    case Ended => CloseKeepsRunInv(r, r.s.modified || r.s.queue != []);
    case Failed(ordinary) =>
      if ordinary && r.s.completed && !r.s.failed {
        PreserveKeepsRunInv(r);
        FallbackKeepsRunInv(r.(s := PreservePending(r.s)));
        FailOverIsDrain(r);
      } else {
        CloseKeepsRunInv(r, r.s.modified);
      }
  }

  lemma StepKeepsRunInv<E, R>(r: Run<E, R>, ev: Event<E, R>)
    requires RunInv(r) && Enabled(r.s, ev)
    ensures RunInv(Step(r, ev))
  {
    match ev
    case Yield(chunk, raw) => YieldKeepsRunInv(r, chunk, raw);
    case Complete =>
    case CallbackError =>
    case Ask(answer) =>
      match r.s.phase
      case Closed =>
      case Fallback(_) =>
        FallbackKeepsRunInv(r);
        assert Step(r, Ask(answer)) == Step(r, Ask(Ended));
      case Managed => AnswerKeepsRunInv(r, answer);
  }

  lemma {:induction false} ReplayKeepsRunInv<E, R>(evs: seq<Event<E, R>>)
    ensures RunInv(Replay(evs))
    decreases |evs|
  {
    if evs == [] {
    } else {
      ReplayKeepsRunInv(evs[..|evs| - 1]);
      var before := Replay(evs[..|evs| - 1]);
      if Enabled(before.s, evs[|evs| - 1]) {
        StepKeepsRunInv(before, evs[|evs| - 1]);
      }
    }
  }

  // ----- What the caller can rely on -----

  function RawOuts<E, R>(pairs: seq<(E, R)>): seq<Out<E, R>> {
    seq(|pairs|, i requires 0 <= i < |pairs| => Raw(pairs[i].1))
  }

  /** Raw chunks reach the caller in the provider's order and never twice, whatever the Relay does. */
  lemma RawChunksStayInOrder<E, R>(evs: seq<Event<E, R>>)
    ensures var r := Replay(evs);
            && |r.at| == |r.got|
            && (forall i | 0 <= i < |r.got| && r.got[i].Raw? ::
                  0 <= r.at[i] < |r.produced| && r.got[i] == Raw(r.produced[r.at[i]].1))
            && (forall i, j | 0 <= i < j < |r.got| && r.got[i].Raw? && r.got[j].Raw? :: r.at[i] < r.at[j])
  {
    ReplayKeepsRunInv(evs);
  }

  /** The provider yields nothing more: it has returned or raised. */
  predicate ProviderOver<E, R>(s: Stream<E, R>) {
    s.completed || s.failed
  }

  /** From then on, what it produced is all there ever is. */
  lemma {:induction false} OverProducesNoMore<E, R>(evs: seq<Event<E, R>>, more: seq<Event<E, R>>)
    requires ProviderOver(Replay(evs).s)
    ensures Replay(evs + more).produced == Replay(evs).produced && ProviderOver(Replay(evs + more).s)
    decreases |more|
  {
    if more == [] {
      assert evs + more == evs;
    } else {
      var init, ev := more[..|more| - 1], more[|more| - 1];
      OverProducesNoMore(evs, init);
      assert (evs + more)[..|evs + more| - 1] == evs + init && (evs + more)[|evs + more| - 1] == ev;
    }
  }

  /** One read of an open stream. */
  lemma ReadDelivers<E, R>(r: Run<E, R>, answer: Answer<E>)
    requires RunInv(r) && !r.s.phase.Closed?
    ensures !r.s.modified ==> |r.got| <= |r.produced| && r.got == RawOuts(r.produced)[..|r.got|]
    ensures NextItem(r.s, answer).1.Stop? && !Step(r, Ask(answer)).s.modified ==>
              Step(r, Ask(answer)).got == RawOuts(r.produced)
    ensures Step(r, Ask(answer)).produced == r.produced
    ensures ProviderOver(r.s) ==> ProviderOver(Step(r, Ask(answer)).s)
  {
    StepKeepsRunInv(r, Ask(answer));
  }

  /** When an open stream stops with `output_modified` still false, the caller got what the provider yielded, all of
      it and nothing else; until then it got a prefix of it. If the provider was over, which it is whenever the stream
      fell back, no run goes on to produce anything the caller missed. */
  lemma UnmodifiedIsExact<E, R>(evs: seq<Event<E, R>>, answer: Answer<E>, more: seq<Event<E, R>>)
    requires !Replay(evs).s.phase.Closed?
    ensures var before := Replay(evs);
            var r := Replay(evs + [Ask(answer)]);
            && (!before.s.modified ==>
                  |before.got| <= |before.produced| && before.got == RawOuts(before.produced)[..|before.got|])
            && (NextItem(before.s, answer).1.Stop? && !r.s.modified ==> r.got == RawOuts(r.produced))
            && (before.s.phase.Fallback? ==> before.s.completed)
            && (NextItem(before.s, answer).1.Stop? && !r.s.modified && ProviderOver(before.s) ==>
                  r.got == RawOuts(Replay(evs + [Ask(answer)] + more).produced))
  {
    assert (evs + [Ask(answer)])[..|evs|] == evs;
    ReplayKeepsRunInv(evs);
    ReadDelivers(Replay(evs), answer);
    if ProviderOver(Replay(evs).s) {
      OverProducesNoMore(evs + [Ask(answer)], more);
    }
  }

  /** When an open stream stops with the flag false, what the caller got is the whole response, whatever would have
      come if the stream had gone on instead, if and only if the provider was over. */
  lemma UnmodifiedIsWholeIff<E, R>(evs: seq<Event<E, R>>, answer: Answer<E>, chunk: E, raw: R)
    requires !Replay(evs).s.phase.Closed? && NextItem(Replay(evs).s, answer).1.Stop?
    requires !Replay(evs + [Ask(answer)]).s.modified
    ensures (forall more :: RawOuts(Replay(evs + more).produced) == Replay(evs + [Ask(answer)]).got)
            <==> ProviderOver(Replay(evs).s)
  {
    var before := Replay(evs);
    assert (evs + [Ask(answer)])[..|evs|] == evs;
    ReplayKeepsRunInv(evs);
    ReadDelivers(before, answer);
    if ProviderOver(before.s) {
      forall more
        ensures Replay(evs + more).produced == before.produced
      {
        OverProducesNoMore(evs, more);
      }
    } else {
      OpenYieldsMore(evs, chunk, raw);
      assert |RawOuts(Replay(evs + [Yield(chunk, raw)]).produced)| == |before.produced| + 1;
    }
  }

  lemma OpenYieldsMore<E, R>(evs: seq<Event<E, R>>, chunk: E, raw: R)
    requires !Replay(evs).s.phase.Closed? && !ProviderOver(Replay(evs).s)
    ensures Replay(evs + [Yield(chunk, raw)]).produced == Replay(evs).produced + [(chunk, raw)]
  {
    ReplayKeepsRunInv(evs);
    assert (evs + [Yield(chunk, raw)])[..|evs|] == evs;
  }

  /** Without completion the flag says less: a Relay that ends the stream early leaves it false, too. */
  lemma EarlyEndLooksUnmodified<E, R>(chunk: E, raw: R)
    ensures var evs := [Yield(chunk, raw), Ask(Chunk(chunk))];
            var before: Run<E, R> := Replay(evs);
            && NextItem(before.s, Ended).1.Stop?
            && !Step(before, Ask(Ended)).s.modified && !before.s.completed
  {
    var evs := [Yield(chunk, raw), Ask(Chunk(chunk))];
    assert evs[..1] == [Yield(chunk, raw)] && evs[..1][..0] == [];
    var r0: Run<E, R> := Start();
    assert Replay(evs[..1][..0]) == r0;
    var r1 := Step(r0, Yield(chunk, raw));
    assert Replay(evs[..1]) == r1 && r1.s.queue == [(chunk, raw)];
    assert IndexOf(r1.s.queue, chunk) == 0;
    assert Replay(evs) == Step(r1, Ask(Chunk(chunk)));
  }

  /** The caller keeps asking. */
  function AskAll<E(==), R>(r: Run<E, R>, answers: seq<Answer<E>>): Run<E, R>
    decreases |answers|
  {
    if answers == [] then r else AskAll(Step(r, Ask(answers[0])), answers[1..])
  }

  lemma {:induction false} DrainDelivers<E, R>(r: Run<E, R>, answers: seq<Answer<E>>)
    requires r.s.phase.Fallback? && |answers| == |r.s.phase.pending|
    ensures var r' := AskAll(r, answers);
            && r'.s == r.s.(phase := Fallback([]))
            && r'.got == r.got + seq(|answers|, i requires 0 <= i < |answers| => Raw(r.s.phase.pending[i]))
    decreases |answers|
  {
    if answers == [] {
      assert r.got + [] == r.got;
    } else {
      var r1 := Step(r, Ask(answers[0]));
      assert r1.s.phase.pending == r.s.phase.pending[1..] && r1.got == r.got + [Raw(r.s.phase.pending[0])];
      DrainDelivers(r1, answers[1..]);
    }
  }

  /** A Relay failure after the provider succeeded costs nothing: asking on delivers every chunk still queued, once
      and in order, and then the stream stops. */
  lemma FailoverDeliversPending<E, R>(r: Run<E, R>, answers: seq<Answer<E>>, last: Answer<E>)
    requires r.s.phase.Managed? && r.s.completed && !r.s.failed
    requires |answers| == |r.s.queue|
    requires if answers == [] then last == Failed(true) else answers[0] == Failed(true)
    ensures var r' := AskAll(r, answers);
            && r'.got == r.got + RawOuts(r.s.queue)
            && r'.s.modified == r.s.modified
            && NextItem(r'.s, last) == (r'.s.(queue := [], phase := Closed), Stop)
  {
    if answers == [] {
      assert r.got + [] == r.got;
    } else {
      var q := r.(s := PreservePending(r.s));
      FailOverIsDrain(r);
      assert Step(q, Ask(answers[0])) == Step(q, Ask(Ended));
      assert AskAll(r, answers) == AskAll(q, answers);
      DrainDelivers(q, answers);
      assert RawOuts(r.s.queue) == seq(|answers|, i requires 0 <= i < |answers| => Raw(q.s.phase.pending[i]));
    }
  }

  /** The Relay passes the provider's chunks through unchanged: each emission is the JSON form of the produced chunk
      whose turn it is, and none comes before its chunk exists. */
  ghost predicate PassesThrough<E, R>(evs: seq<Event<E, R>>)
    decreases |evs|
  {
    evs == [] ||
    (var before := Replay(evs[..|evs| - 1]);
     var ev := evs[|evs| - 1];
     && PassesThrough(evs[..|evs| - 1])
     && (ev.Ask? && ev.answer.Chunk? && before.s.phase.Managed? ==>
           |before.emitted| < |before.produced| && before.produced[|before.emitted|].0 == ev.answer.chunk))
  }

  lemma {:induction false} EmissionsAreItems<E, R>(evs: seq<Event<E, R>>)
    requires Replay(evs).s.phase.Managed?
    ensures |Replay(evs).emitted| == |Replay(evs).got|
    decreases |evs|
  {
    if evs != [] {
      var before := Replay(evs[..|evs| - 1]);
      if before.s.phase.Managed? {
        EmissionsAreItems(evs[..|evs| - 1]);
      }
    }
  }

  lemma EmissionFlag<E, R>(r: Run<E, R>, chunk: E)
    requires RunInv(r) && r.s.phase.Managed? && |r.emitted| == |r.got| && !r.s.modified
    ensures !Step(r, Ask(Chunk(chunk))).s.modified <==> |r.emitted| < |r.produced| && r.produced[|r.emitted|].0 == chunk
  {
    assert |r.produced| - |r.s.queue| == |r.emitted|;
    if r.s.queue != [] {
      assert r.s.queue[0] == r.produced[|r.emitted|];
    }
  }

  /** `output_modified` says exactly whether the Relay changed anything so far. */
  lemma {:induction false} ModifiedIffNotPassedThrough<E, R>(evs: seq<Event<E, R>>)
    requires Replay(evs).s.phase.Managed?
    ensures !Replay(evs).s.modified <==> PassesThrough(evs)
    decreases |evs|
  {
    if evs == [] {
    } else {
      var init, ev := evs[..|evs| - 1], evs[|evs| - 1];
      var before := Replay(init);
      ModifiedIffNotPassedThrough(init);
      if ev.Ask? && ev.answer.Chunk? {
        EmissionsAreItems(init);
        ReplayKeepsRunInv(init);
        if !before.s.modified {
          EmissionFlag(before, ev.answer.chunk);
        }
      }
    }
  }

  /** At the regular end the flag also accounts for chunks the Relay swallowed. */
  lemma EndFlagIsExact<E, R>(evs: seq<Event<E, R>>)
    requires Replay(evs).s.phase.Managed?
    ensures var before := Replay(evs);
            !Step(before, Ask(Ended)).s.modified <==> PassesThrough(evs) && |before.emitted| == |before.produced|
  {
    ModifiedIffNotPassedThrough(evs);
    EmissionsAreItems(evs);
    ReplayKeepsRunInv(evs);
  }
}
