/** Rebuilding a message from the events of a stream: `AnthropicStreamAccumulator`. */
module Accumulator {
  import opened Collections
  import opened RequestMerge

  datatype DeltaKind = TextDelta | ThinkingDelta | SignatureDelta | InputJsonDelta | CitationsDelta | OtherDelta

  /** The payload of one event, already a JSON object. Fields of the wrong type make the event `Other`. */
  datatype Event =
    | MessageStart(message: Body)
    | BlockStart(index: int, block: Body)
    | BlockDelta(index: int, kind: DeltaKind, delta: Body)
    | MessageDelta(stop: Option<Body>, usage: Option<Json>)
    | Other

  /** `raised` stays set once an event made the accumulator raise. */
  datatype Acc = Acc(message: Body, blocks: map<int, Body>, raised: bool)

  const EMPTY := Acc(map[], map[], false)

  /** The accumulator with Python's `str` and `json.loads` as parameters. */
  datatype Python = Python(show: Json -> string, loads: string -> Option<Json>)

  function Str_(py: Python, j: Json): string {
    if j.Str? then j.s else py.show(j)
  }

  /** `str(value or "")` */
  function TextOf(py: Python, value: Option<Json>): string {
    if value.None? || Falsy(value.value) then "" else Str_(py, value.value)
  }

  /** `str(block.pop(key, ""))` */
  function PoppedText(py: Python, value: Option<Json>): string {
    if value.None? then "" else Str_(py, value.value)
  }

  // ----- One delta on one block -----

  /** The block field a delta kind appends text to; the delta carries the text under the same name. */
  function TextField(kind: DeltaKind): Option<string> {
    match kind
    case TextDelta => Some("text")
    case ThinkingDelta => Some("thinking")
    case SignatureDelta => Some("signature")
    case _ => None
  }

  predicate DeltaRaises(block: Body, kind: DeltaKind, delta: Body) {
    kind.CitationsDelta? && "citation" in delta && "citations" in block && !block["citations"].Arr?
  }

  function ApplyDelta(py: Python, block: Body, kind: DeltaKind, delta: Body): Body
    requires !DeltaRaises(block, kind, delta)
  {
    if TextField(kind).Some? then
      var field := TextField(kind).value;
      block[field := Str(TextOf(py, Get(block, field)) + TextOf(py, Get(delta, field)))]
    else if kind.InputJsonDelta? then
      var partial := PoppedText(py, Get(block, "_partial_json")) + TextOf(py, Get(delta, "partial_json"));
      block["_partial_json" := Str(partial)]
    else if kind.CitationsDelta? && "citation" in delta then
      var so := if "citations" in block then block["citations"].items else [];
      block["citations" := Arr(so + [delta["citation"]])]
    else block
  }

  function Picked(into: Body, from_: Body, keys: set<string>): Body {
    into + map key | key in keys && key in from_ :: from_[key]
  }

  function BlockAt(a: Acc, index: int): Body {
    if index in a.blocks then a.blocks[index] else map[]
  }

  function Observe(py: Python, a: Acc, ev: Event): Acc {
    if a.raised then a
    else
      match ev
      case MessageStart(message) => a.(message := Picked(a.message, message, {"id", "type", "role", "model", "usage"}))
      case BlockStart(index, block) => a.(blocks := a.blocks[index := block])
      case BlockDelta(index, kind, delta) =>
        if DeltaRaises(BlockAt(a, index), kind, delta) then a.(raised := true)
        else a.(blocks := a.blocks[index := ApplyDelta(py, BlockAt(a, index), kind, delta)])
      case MessageDelta(stop, usage) =>
        var stopped :=
          if stop.None? then a.message else Picked(a.message, stop.value, {"stop_reason", "stop_sequence"});
        if usage.None? then a.(message := stopped)
        else if Get(stopped, "usage").Some? && stopped["usage"].Obj? && usage.value.Obj? then
          a.(message := stopped["usage" := Obj(stopped["usage"].fields + usage.value.fields)])
        else a.(message := stopped["usage" := usage.value])
      case Other => a
  }

  function ObserveAll(py: Python, evs: seq<Event>): Acc {
    if evs == [] then EMPTY else Observe(py, ObserveAll(py, evs[..|evs| - 1]), evs[|evs| - 1])
  }

  // ----- What a block holds, told from the events alone -----

  /** The start of block `index` and the deltas it has had since, if it was mentioned at all. */
  datatype Since = Never | Started(start: Body, deltas: seq<Event>)

  function StartOf(since: Since): Body {
    if since.Started? then since.start else map[]
  }

  function DeltasOf(since: Since): seq<Event> {
    if since.Started? then since.deltas else []
  }

  function SinceStep(since: Since, ev: Event, index: int): Since {
    match ev
    case BlockStart(i, block) => if i == index then Started(block, []) else since
    case BlockDelta(i, _, _) =>
      if i != index then since
      else Started(StartOf(since), DeltasOf(since) + [ev])
    case _ => since
  }

  function SinceStart(evs: seq<Event>, index: int): Since {
    if evs == [] then Never else SinceStep(SinceStart(evs[..|evs| - 1], index), evs[|evs| - 1], index)
  }

  /** The text a block's own deltas of one kind add up to. */
  function Appended(py: Python, deltas: seq<Event>, kind: DeltaKind, source: string): string {
    if deltas == [] then ""
    else
      var last := deltas[|deltas| - 1];
      Appended(py, deltas[..|deltas| - 1], kind, source) +
      (if last.BlockDelta? && last.kind == kind then TextOf(py, Get(last.delta, source)) else "")
  }

  lemma AppendedSnoc(py: Python, deltas: seq<Event>, ev: Event, kind: DeltaKind, source: string)
    ensures Appended(py, deltas + [ev], kind, source) ==
            Appended(py, deltas, kind, source) +
            if ev.BlockDelta? && ev.kind == kind then TextOf(py, Get(ev.delta, source)) else ""
  {
    assert (deltas + [ev])[..|deltas + [ev]| - 1] == deltas;
  }

  /** What one event does to the block at `index`. */
  lemma ObserveBlock(py: Python, a: Acc, ev: Event, index: int)
    requires !Observe(py, a, ev).raised
    ensures !a.raised
    ensures var b := Observe(py, a, ev);
            if ev.BlockStart? && ev.index == index then index in b.blocks && BlockAt(b, index) == ev.block
            else if ev.BlockDelta? && ev.index == index then
              && index in b.blocks && !DeltaRaises(BlockAt(a, index), ev.kind, ev.delta)
              && BlockAt(b, index) == ApplyDelta(py, BlockAt(a, index), ev.kind, ev.delta)
            else (index in b.blocks <==> index in a.blocks) && BlockAt(b, index) == BlockAt(a, index)
  {
  }

  lemma DeltaText(py: Python, block: Body, kind: DeltaKind, delta: Body, k: DeltaKind)
    requires !DeltaRaises(block, kind, delta) && TextField(k).Some?
    ensures var field := TextField(k).value;
            TextOf(py, Get(ApplyDelta(py, block, kind, delta), field)) ==
            TextOf(py, Get(block, field)) + if kind == k then TextOf(py, Get(delta, field)) else ""
  {
    assert "text" != "thinking" && "signature"[0] != "citations"[0];
  }

  lemma DeltaPartial(py: Python, block: Body, kind: DeltaKind, delta: Body)
    requires !DeltaRaises(block, kind, delta)
    ensures PoppedText(py, Get(ApplyDelta(py, block, kind, delta), "_partial_json")) ==
            PoppedText(py, Get(block, "_partial_json")) +
            if kind.InputJsonDelta? then TextOf(py, Get(delta, "partial_json")) else ""
  {
  }

  /** A block agrees with its history: it exists once it was mentioned, and its texts add up. */
  ghost predicate Tells(py: Python, a: Acc, since: Since, index: int) {
    && (since.Never? <==> index !in a.blocks)
    && (forall kind | TextField(kind).Some? :: TextAddsUp(py, a, since, index, kind))
    && PartialAddsUp(py, a, since, index)
  }

  ghost predicate PartialAddsUp(py: Python, a: Acc, since: Since, index: int) {
    PoppedText(py, Get(BlockAt(a, index), "_partial_json")) ==
    PoppedText(py, Get(StartOf(since), "_partial_json")) + Appended(py, DeltasOf(since), InputJsonDelta, "partial_json")
  }

  ghost predicate TextAddsUp(py: Python, a: Acc, since: Since, index: int, kind: DeltaKind)
    requires TextField(kind).Some?
  {
    var field := TextField(kind).value;
    TextOf(py, Get(BlockAt(a, index), field)) ==
    TextOf(py, Get(StartOf(since), field)) + Appended(py, DeltasOf(since), kind, field)
  }

  lemma ObservedText(py: Python, a: Acc, ev: Event, index: int, kind: DeltaKind)
    requires TextField(kind).Some? && !Observe(py, a, ev).raised && ev.BlockDelta? && ev.index == index
    ensures var field := TextField(kind).value;
            TextOf(py, Get(BlockAt(Observe(py, a, ev), index), field)) ==
            TextOf(py, Get(BlockAt(a, index), field)) + if ev.kind == kind then TextOf(py, Get(ev.delta, field)) else ""
  {
    ObserveBlock(py, a, ev, index);
    DeltaText(py, BlockAt(a, index), ev.kind, ev.delta, kind);
  }

  lemma Reassociate(so: string, start: string, appended: string, delta: string)
    requires so == start + appended
    ensures so + delta == start + (appended + delta)
  {
  }

  lemma DeltaTextAddsUp(py: Python, a: Acc, since: Since, ev: Event, index: int, kind: DeltaKind)
    requires TextField(kind).Some? && TextAddsUp(py, a, since, index, kind)
    requires !Observe(py, a, ev).raised && ev.BlockDelta? && ev.index == index
    ensures TextAddsUp(py, Observe(py, a, ev), SinceStep(since, ev, index), index, kind)
  {
    var field := TextField(kind).value;
    ObservedText(py, a, ev, index, kind);
    AppendedSnoc(py, DeltasOf(since), ev, kind, field);
    Reassociate(TextOf(py, Get(BlockAt(a, index), field)), TextOf(py, Get(StartOf(since), field)),
                Appended(py, DeltasOf(since), kind, field),
                if ev.kind == kind then TextOf(py, Get(ev.delta, field)) else "");
  }

  lemma DeltaPartialAddsUp(py: Python, a: Acc, since: Since, ev: Event, index: int)
    requires PartialAddsUp(py, a, since, index)
    requires !Observe(py, a, ev).raised && ev.BlockDelta? && ev.index == index
    ensures PartialAddsUp(py, Observe(py, a, ev), SinceStep(since, ev, index), index)
  {
    ObserveBlock(py, a, ev, index);
    DeltaPartial(py, BlockAt(a, index), ev.kind, ev.delta);
    AppendedSnoc(py, DeltasOf(since), ev, InputJsonDelta, "partial_json");
  }

  lemma DeltaTells(py: Python, a: Acc, since: Since, ev: Event, index: int)
    requires Tells(py, a, since, index) && !Observe(py, a, ev).raised && ev.BlockDelta? && ev.index == index
    ensures Tells(py, Observe(py, a, ev), SinceStep(since, ev, index), index)
  {
    forall kind | TextField(kind).Some?
      ensures TextAddsUp(py, Observe(py, a, ev), SinceStep(since, ev, index), index, kind)
    {
      DeltaTextAddsUp(py, a, since, ev, index, kind);
    }
    DeltaPartialAddsUp(py, a, since, ev, index);
    ObserveBlock(py, a, ev, index);
  }

  lemma StepTells(py: Python, a: Acc, since: Since, ev: Event, index: int)
    requires Tells(py, a, since, index) && !Observe(py, a, ev).raised
    ensures Tells(py, Observe(py, a, ev), SinceStep(since, ev, index), index)
  {
    ObserveBlock(py, a, ev, index);
    if ev.BlockDelta? && ev.index == index {
      DeltaTells(py, a, since, ev, index);
    } else if ev.BlockStart? && ev.index == index {
    } else {
      forall kind | TextField(kind).Some?
        ensures TextAddsUp(py, Observe(py, a, ev), since, index, kind)
      {
        assert TextAddsUp(py, a, since, index, kind);
      }
    }
  }

  lemma {:induction false} RunTells(py: Python, evs: seq<Event>, index: int)
    requires !ObserveAll(py, evs).raised
    ensures Tells(py, ObserveAll(py, evs), SinceStart(evs, index), index)
    decreases |evs|
  {
    if evs == [] {
    } else {
      var init, ev := evs[..|evs| - 1], evs[|evs| - 1];
      RunTells(py, init, index);
      StepTells(py, ObserveAll(py, init), SinceStart(init, index), ev, index);
    }
  }

  /** Text, thinking and signature of every block: its start value followed by its own deltas since its last start,
      in order, whatever happened to other blocks in between. */
  lemma TextIsStartPlusDeltas(py: Python, evs: seq<Event>, index: int, kind: DeltaKind)
    requires !ObserveAll(py, evs).raised && TextField(kind).Some?
    requires index in ObserveAll(py, evs).blocks
    ensures SinceStart(evs, index).Started?
    ensures var field := TextField(kind).value;
            var Started(start, deltas) := SinceStart(evs, index);
            TextOf(py, Get(BlockAt(ObserveAll(py, evs), index), field)) ==
            TextOf(py, Get(start, field)) + Appended(py, deltas, kind, field)
  {
    RunTells(py, evs, index);
    assert TextAddsUp(py, ObserveAll(py, evs), SinceStart(evs, index), index, kind);
  }

  /** The same for the partial JSON of tool input, with `pop` instead of `get` for the start value. */
  lemma PartialJsonIsStartPlusDeltas(py: Python, evs: seq<Event>, index: int)
    requires !ObserveAll(py, evs).raised && index in ObserveAll(py, evs).blocks
    ensures SinceStart(evs, index).Started?
    ensures var Started(start, deltas) := SinceStart(evs, index);
            PoppedText(py, Get(BlockAt(ObserveAll(py, evs), index), "_partial_json")) ==
            PoppedText(py, Get(start, "_partial_json")) + Appended(py, deltas, InputJsonDelta, "partial_json")
  {
    RunTells(py, evs, index);
  }

  // ----- Independence of blocks -----

  predicate Concerns(ev: Event, index: Option<int>) {
    match ev
    case BlockStart(i, _) => index == Some(i)
    case BlockDelta(i, _, _) => index == Some(i)
    case _ => index == None
  }

  /** The events of one block, or with `None` those of the message itself. */
  function Only(evs: seq<Event>, index: Option<int>): seq<Event> {
    if evs == [] then []
    else Only(evs[..|evs| - 1], index) + if Concerns(evs[|evs| - 1], index) then [evs[|evs| - 1]] else []
  }

  lemma OnlySnoc(evs: seq<Event>, ev: Event, index: Option<int>)
    ensures Only(evs + [ev], index) == Only(evs, index) + if Concerns(ev, index) then [ev] else []
  {
    assert (evs + [ev])[..|evs + [ev]| - 1] == evs;
  }

  lemma ObserveAllSnoc(py: Python, evs: seq<Event>, ev: Event)
    ensures ObserveAll(py, evs + [ev]) == Observe(py, ObserveAll(py, evs), ev)
  {
    assert (evs + [ev])[..|evs + [ev]| - 1] == evs;
  }

  /** Two accumulators that agree on a block still agree after an event of that block. */
  lemma SameBlockSameEffect(py: Python, a: Acc, b: Acc, ev: Event, index: int)
    requires Concerns(ev, Some(index)) && !Observe(py, a, ev).raised && !b.raised
    requires BlockAt(a, index) == BlockAt(b, index)
    ensures !Observe(py, b, ev).raised && index in Observe(py, b, ev).blocks && index in Observe(py, a, ev).blocks
    ensures BlockAt(Observe(py, a, ev), index) == BlockAt(Observe(py, b, ev), index)
  {
  }

  lemma {:induction false} BlockNeedsOnlyItsEvents(py: Python, evs: seq<Event>, index: int)
    requires !ObserveAll(py, evs).raised
    ensures var alone := ObserveAll(py, Only(evs, Some(index)));
            && !alone.raised && BlockAt(alone, index) == BlockAt(ObserveAll(py, evs), index)
            && (index in alone.blocks <==> index in ObserveAll(py, evs).blocks)
    decreases |evs|
  {
    if evs == [] {
    } else {
      var init, ev := evs[..|evs| - 1], evs[|evs| - 1];
      assert init + [ev] == evs;
      ObserveBlock(py, ObserveAll(py, init), ev, index);
      BlockNeedsOnlyItsEvents(py, init, index);
      OnlySnoc(init, ev, Some(index));
      if Concerns(ev, Some(index)) {
        ObserveAllSnoc(py, Only(init, Some(index)), ev);
        SameBlockSameEffect(py, ObserveAll(py, init), ObserveAll(py, Only(init, Some(index))), ev, index);
      } else {
        assert Only(evs, Some(index)) == Only(init, Some(index));
      }
    }
  }

  lemma SameMessageSameEffect(py: Python, a: Acc, b: Acc, ev: Event)
    requires !Observe(py, a, ev).raised && !b.raised && a.message == b.message
    ensures Concerns(ev, None) ==>
              !Observe(py, b, ev).raised && Observe(py, a, ev).message == Observe(py, b, ev).message
    ensures !Concerns(ev, None) ==> Observe(py, a, ev).message == a.message
  {
  }

  lemma {:induction false} MessageNeedsOnlyItsEvents(py: Python, evs: seq<Event>)
    requires !ObserveAll(py, evs).raised
    ensures var alone := ObserveAll(py, Only(evs, None)); !alone.raised && alone.message == ObserveAll(py, evs).message
    decreases |evs|
  {
    if evs == [] {
    } else {
      var init, ev := evs[..|evs| - 1], evs[|evs| - 1];
      assert init + [ev] == evs;
      MessageNeedsOnlyItsEvents(py, init);
      OnlySnoc(init, ev, None);
      SameMessageSameEffect(py, ObserveAll(py, init), ObserveAll(py, Only(init, None)), ev);
      if Concerns(ev, None) {
        ObserveAllSnoc(py, Only(init, None), ev);
      } else {
        assert Only(evs, None) == Only(init, None);
      }
    }
  }

  /** The accumulator raises exactly when the events of some one block do. */
  lemma {:induction false} RaisesIffSomeBlockDoes(py: Python, evs: seq<Event>)
    ensures ObserveAll(py, evs).raised <==> exists index: int :: ObserveAll(py, Only(evs, Some(index))).raised
    decreases |evs|
  {
    if evs == [] {
      forall index: int
        ensures Only(evs, Some(index)) == []
      {
      }
    } else {
      var init, ev := evs[..|evs| - 1], evs[|evs| - 1];
      RaisesIffSomeBlockDoes(py, init);
      forall index: int
        ensures ObserveAll(py, Only(init, Some(index))).raised ==> ObserveAll(py, Only(evs, Some(index))).raised
      {
        BlockRaiseStays(py, init, ev, index);
        assert init + [ev] == evs;
      }
      if !ObserveAll(py, init).raised {
        forall index: int
          ensures ObserveAll(py, Only(evs, Some(index))).raised <==>
                  ObserveAll(py, evs).raised && Concerns(ev, Some(index))
        {
          NewRaise(py, init, ev, index);
          assert init + [ev] == evs;
        }
        if ObserveAll(py, evs).raised {
          assert Concerns(ev, Some(ev.index));
        }
      }
    }
  }

  lemma BlockRaiseStays(py: Python, init: seq<Event>, ev: Event, index: int)
    ensures ObserveAll(py, Only(init, Some(index))).raised ==> ObserveAll(py, Only(init + [ev], Some(index))).raised
  {
    OnlySnoc(init, ev, Some(index));
    ObserveAllSnoc(py, Only(init, Some(index)), ev);
    assert Only(init, Some(index)) + [] == Only(init, Some(index));
  }

  /** The first event that raises does so alone with the events of its block, and of no other. */
  lemma NewRaise(py: Python, init: seq<Event>, ev: Event, index: int)
    requires !ObserveAll(py, init).raised
    ensures ObserveAll(py, Only(init + [ev], Some(index))).raised <==>
            ObserveAll(py, init + [ev]).raised && Concerns(ev, Some(index))
  {
    BlockNeedsOnlyItsEvents(py, init, index);
    OnlySnoc(init, ev, Some(index));
    ObserveAllSnoc(py, init, ev);
    if Concerns(ev, Some(index)) {
      ObserveAllSnoc(py, Only(init, Some(index)), ev);
    } else {
      assert Only(init + [ev], Some(index)) == Only(init, Some(index));
    }
  }

  /** Any two interleavings of the same per-block streams raise together or rebuild the same message. */
  lemma InterleavingsAgree(py: Python, evs: seq<Event>, evs': seq<Event>)
    requires forall index: Option<int> :: Only(evs, index) == Only(evs', index)
    ensures ObserveAll(py, evs).raised <==> ObserveAll(py, evs').raised
    ensures !ObserveAll(py, evs).raised ==>
              && ObserveAll(py, evs) == ObserveAll(py, evs')
              && Finalize(py, ObserveAll(py, evs)) == Finalize(py, ObserveAll(py, evs'))
  {
    RaisesIffSomeBlockDoes(py, evs);
    RaisesIffSomeBlockDoes(py, evs');
    forall index: int
      ensures Only(evs, Some(index)) == Only(evs', Some(index))
    {
    }
    if !ObserveAll(py, evs).raised {
      assert !ObserveAll(py, evs').raised;
      SameStreamsSameState(py, evs, evs');
    }
  }

  lemma SameStreamsSameState(py: Python, evs: seq<Event>, evs': seq<Event>)
    requires !ObserveAll(py, evs).raised && !ObserveAll(py, evs').raised
    requires forall index: Option<int> :: Only(evs, index) == Only(evs', index)
    ensures ObserveAll(py, evs) == ObserveAll(py, evs')
  {
    var a, b := ObserveAll(py, evs), ObserveAll(py, evs');
    forall index
      ensures index in a.blocks <==> index in b.blocks
      ensures BlockAt(a, index) == BlockAt(b, index)
    {
      assert Only(evs, Some(index)) == Only(evs', Some(index));
      BlockNeedsOnlyItsEvents(py, evs, index);
      BlockNeedsOnlyItsEvents(py, evs', index);
    }
    SameBlocks(a, b);
    assert Only(evs, None) == Only(evs', None);
    MessageNeedsOnlyItsEvents(py, evs);
    MessageNeedsOnlyItsEvents(py, evs');
  }

  lemma SameBlocks(a: Acc, b: Acc)
    requires forall index :: index in a.blocks <==> index in b.blocks
    requires forall index :: BlockAt(a, index) == BlockAt(b, index)
    ensures a.blocks == b.blocks
  {
    forall index
      ensures index in a.blocks.Keys <==> index in b.blocks.Keys
    {
      assert index in a.blocks <==> index in b.blocks;
    }
    assert a.blocks.Keys == b.blocks.Keys;
    forall index | index in a.blocks
      ensures a.blocks[index] == b.blocks[index]
    {
      assert BlockAt(a, index) == BlockAt(b, index);
    }
  }

  // ----- Finalize -----

  function Smallest(s: set<int>): (m: int)
    requires s != {}
    ensures m in s && forall i | i in s :: m <= i
  {
    SmallestExists(s);
    var m :| m in s && forall i | i in s :: m <= i;
    m
  }

  lemma {:induction false} SmallestExists(s: set<int>)
    requires s != {}
    ensures exists m :: m in s && forall i | i in s :: m <= i
    decreases |s|
  {
    var x := MemberOf(s);
    var rest := s - {x};
    if rest == {} {
      assert s == {x};
    } else {
      SmallestExists(rest);
      var m :| m in rest && forall i | i in rest :: m <= i;
      var least := if x <= m then x else m;
      assert least in s;
      forall i | i in s
        ensures least <= i
      {
        assert i == x || i in rest;
      }
    }
  }

  function Sorted(s: set<int>): (r: seq<int>)
    ensures forall i :: i in r <==> i in s
    ensures forall i, j | 0 <= i < j < |r| :: r[i] < r[j]
    decreases |s|
  {
    if s == {} then []
    else
      var m := Smallest(s);
      var rest := Sorted(s - {m});
      assert forall i | 0 <= i < |rest| :: rest[i] in rest;
      [m] + rest
  }

  /** A finished block: the partial JSON becomes `input`, parsed when it parses. */
  function FinalBlock(py: Python, block: Body): Body {
    if Get(block, "_partial_json") in {None, Some(Null)} then block - {"_partial_json"}
    else
      var partial := block["_partial_json"];
      var parsed := if partial.Str? then py.loads(partial.s) else None;
      (block - {"_partial_json"})["input" := if parsed.Some? then parsed.value else partial]
  }

  function Finalize(py: Python, a: Acc): Body {
    var order := Sorted(a.blocks.Keys);
    a.message["content" := Arr(seq(|order|, i requires 0 <= i < |order| =>
      Obj(FinalBlock(py, BlockAt(a, order[i])))))]
  }

  lemma FinalBlockKeeps(py: Python, block: Body, key: string)
    ensures "_partial_json" !in FinalBlock(py, block)
    ensures key != "input" && key != "_partial_json" ==> Get(FinalBlock(py, block), key) == Get(block, key)
  {
  }

  /** Every block comes out once, in index order, without the internal buffer. */
  lemma FinalizeContent(py: Python, a: Acc, i: nat, key: string)
    requires i < |Sorted(a.blocks.Keys)|
    ensures var content := Finalize(py, a)["content"];
            && content.Arr? && |content.items| == |Sorted(a.blocks.Keys)|
            && content.items[i].Obj?
            && "_partial_json" !in content.items[i].fields
            && (key != "input" && key != "_partial_json" ==>
                  Get(content.items[i].fields, key) == Get(BlockAt(a, Sorted(a.blocks.Keys)[i]), key))
  {
    FinalBlockKeeps(py, BlockAt(a, Sorted(a.blocks.Keys)[i]), key);
  }

  /** The `input` of a finished block: with partial JSON since its last start it is what start value and own deltas
      add up to, parsed when that parses and as a string otherwise; without any it is left alone. */
  lemma FinalInput(py: Python, evs: seq<Event>, index: int)
    requires !ObserveAll(py, evs).raised && index in ObserveAll(py, evs).blocks
    ensures SinceStart(evs, index).Started?
    ensures var Started(start, deltas) := SinceStart(evs, index);
            var block := BlockAt(ObserveAll(py, evs), index);
            var partial := PoppedText(py, Get(start, "_partial_json")) +
                           Appended(py, deltas, InputJsonDelta, "partial_json");
            var input := Get(FinalBlock(py, block), "input");
            && ("_partial_json" in block && block["_partial_json"].Str? ==>
                  input == (if py.loads(partial).Some? then py.loads(partial) else Some(Str(partial))))
            && ("_partial_json" in block && !block["_partial_json"].Str? && !block["_partial_json"].Null? ==>
                  input == Get(block, "_partial_json"))
            && (Get(block, "_partial_json") in {None, Some(Null)} ==> input == Get(block, "input"))
  {
    PartialJsonIsStartPlusDeltas(py, evs, index);
  }

  // ----- The object -----

  class StreamAccumulator {
    const py: Python
    var message: Body
    var blocks: map<int, Body>
    var raised: bool

    ghost function View(): Acc
      reads this
    {
      Acc(message, blocks, raised)
    }

    constructor (py: Python)
      ensures View() == EMPTY && this.py == py
    {
      this.py := py;
      message, blocks, raised := map[], map[], false;
    }

    method ObserveDelta(index: int, kind: DeltaKind, delta: Body)
      requires !raised
      modifies this
      ensures View() == Observe(py, old(View()), BlockDelta(index, kind, delta))
    {
      var block := if index in blocks then blocks[index] else map[];
      if kind.TextDelta? {
        block := block["text" := Str(TextOf(py, Get(block, "text")) + TextOf(py, Get(delta, "text")))];
      } else if kind.ThinkingDelta? {
        block := block["thinking" := Str(TextOf(py, Get(block, "thinking")) + TextOf(py, Get(delta, "thinking")))];
      } else if kind.SignatureDelta? {
        block := block["signature" := Str(TextOf(py, Get(block, "signature")) + TextOf(py, Get(delta, "signature")))];
      } else if kind.InputJsonDelta? {
        var partial := PoppedText(py, Get(block, "_partial_json")) + TextOf(py, Get(delta, "partial_json"));
        block := block["_partial_json" := Str(partial)];
      } else if kind.CitationsDelta? && "citation" in delta {
        if "citations" in block && !block["citations"].Arr? {
          raised := true;
          return;
        }
        var so := if "citations" in block then block["citations"].items else [];
        block := block["citations" := Arr(so + [delta["citation"]])];
      }
      blocks := blocks[index := block];
    }

    method ObserveEvent(ev: Event)
      modifies this
      ensures View() == Observe(py, old(View()), ev)
    {
      if raised {
        return;
      }
      match ev
      case MessageStart(started) =>
        message := Picked(message, started, {"id", "type", "role", "model", "usage"});
      case BlockStart(index, block) =>
        blocks := blocks[index := block];
      case BlockDelta(index, kind, delta) =>
        ObserveDelta(index, kind, delta);
      case MessageDelta(stop, usage) =>
        if stop.Some? {
          message := Picked(message, stop.value, {"stop_reason", "stop_sequence"});
        }
        if usage.Some? {
          if "usage" in message && message["usage"].Obj? && usage.value.Obj? {
            message := message["usage" := Obj(message["usage"].fields + usage.value.fields)];
          } else {
            message := message["usage" := usage.value];
          }
        }
      case Other =>
    }
  }
}
