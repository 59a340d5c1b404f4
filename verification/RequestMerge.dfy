/** Merging an intercepted request back into the provider's request.

    The Relay sees a request through a codec that may drop what it cannot represent. The baseline is what the codec
    alone makes of the request, so that only real rewrites are carried over. */
module RequestMerge {
  import opened Collections

  datatype Json =
    | Null | Bool(b: bool) | Num(n: int) | Str(s: string) | Arr(items: seq<Json>) | Obj(fields: map<string, Json>)

  type Body = map<string, Json>

  const EXTENSIONS: set<string> := {"reasoning_content", "reasoning_details"}
  const INTERNAL_HEADERS: set<string> := {"x-dynamo-parent-session-id", "x-dynamo-session-id"}

  function Get(body: Body, key: string): Option<Json> {
    if key in body then Some(body[key]) else None
  }

  // ----- The overlay of changed keys -----

  /** Where a key of the merged request comes from. */
  function MergedKey(original: Body, baseline: Body, intercepted: Body, key: string): Option<Json> {
    if key !in baseline && key !in intercepted then Get(original, key)
    else if key !in intercepted then None
    else if key !in baseline || intercepted[key] != baseline[key] then Some(intercepted[key])
    else Get(original, key)
  }

  function Overlay(original: Body, baseline: Body, intercepted: Body): Body {
    map key | key in original.Keys + intercepted.Keys && MergedKey(original, baseline, intercepted, key).Some?
      :: MergedKey(original, baseline, intercepted, key).value
  }

  lemma OverlayAt(original: Body, baseline: Body, intercepted: Body, key: string)
    ensures Get(Overlay(original, baseline, intercepted), key) == MergedKey(original, baseline, intercepted, key)
  {
  }

  /** The loop over the union of both key sets, in whatever order the set yields them. */
  method OverlayChanges(original: Body, baseline: Body, intercepted: Body) returns (final: Body)
    ensures final == Overlay(original, baseline, intercepted)
  {
    final := original;
    var keys := baseline.Keys + intercepted.Keys;
    while keys != {}
      invariant keys <= baseline.Keys + intercepted.Keys
      invariant forall key :: Get(final, key) == if key in keys then Get(original, key)
                                                 else MergedKey(original, baseline, intercepted, key)
      decreases keys
    {
      ghost var some := MemberOf(keys);
      var key :| key in keys;
      if key !in intercepted {
        final := final - {key};
      } else if key !in baseline || intercepted[key] != baseline[key] {
        final := final[key := intercepted[key]];
      }
      keys := keys - {key};
    }
    SameLookupsSameBody(final, Overlay(original, baseline, intercepted), original, baseline, intercepted);
  }

  lemma SameLookupsSameBody(a: Body, b: Body, original: Body, baseline: Body, intercepted: Body)
    requires b == Overlay(original, baseline, intercepted)
    requires forall key :: Get(a, key) == MergedKey(original, baseline, intercepted, key)
    ensures a == b
  {
    forall key
      ensures Get(a, key) == Get(b, key)
    {
      OverlayAt(original, baseline, intercepted, key);
    }
    BodyExtensionality(a, b);
  }

  lemma BodyExtensionality(a: Body, b: Body)
    requires forall key :: Get(a, key) == Get(b, key)
    ensures a == b
  {
    forall key
      ensures key in a <==> key in b
    {
      assert Get(a, key) == Get(b, key);
    }
    forall key | key in a
      ensures a[key] == b[key]
    {
      assert Get(a, key) == Get(b, key);
    }
  }

  // ----- Message extensions the codec cannot represent -----

  predicate Restorable(original: Json, final: Json, baseline: Json, intercepted: Json, key: string) {
    && original.Obj? && final.Obj? && baseline.Obj? && intercepted.Obj?
    && key in EXTENSIONS && key in original.fields
    && key !in baseline.fields && key !in intercepted.fields && key !in final.fields
  }

  function RestoreMessage(original: Json, final: Json, baseline: Json, intercepted: Json): Json {
    if original.Obj? && final.Obj? && baseline.Obj? && intercepted.Obj? then
      Obj(final.fields + map key | key in EXTENSIONS && Restorable(original, final, baseline, intercepted, key)
                           :: original.fields[key])
    else final
  }

  predicate IsList(body: Body, n: nat) {
    "messages" in body && body["messages"].Arr? && |body["messages"].items| == n
  }

  /** All four message lists exist and have the same length. */
  predicate Aligned(original: Body, final: Body, baseline: Body, intercepted: Body) {
    "messages" in original && original["messages"].Arr? &&
    var n := |original["messages"].items|;
    IsList(final, n) && IsList(baseline, n) && IsList(intercepted, n)
  }

  function Messages(body: Body): seq<Json>
    requires "messages" in body && body["messages"].Arr?
  {
    body["messages"].items
  }

  function RestoredAt(original: Body, final: Body, baseline: Body, intercepted: Body, i: nat): Json
    requires Aligned(original, final, baseline, intercepted) && i < |Messages(final)|
  {
    RestoreMessage(Messages(original)[i], Messages(final)[i], Messages(baseline)[i], Messages(intercepted)[i])
  }

  function RestoreExtensions(original: Body, final: Body, baseline: Body, intercepted: Body): Body {
    if !Aligned(original, final, baseline, intercepted) then final
    else
      final["messages" := Arr(seq(|Messages(final)|, i requires 0 <= i < |Messages(final)| =>
        RestoredAt(original, final, baseline, intercepted, i)))]
  }

  method RestoreProviderExtensions(original: Body, final: Body, baseline: Body,
                                   intercepted: Body) returns (restored: Body)
    ensures restored == RestoreExtensions(original, final, baseline, intercepted)
  {
    if !Aligned(original, final, baseline, intercepted) {
      return final;
    }
    var messages: seq<Json> := [];
    for i := 0 to |Messages(final)|
      invariant |messages| == i
      invariant forall j | 0 <= j < i :: messages[j] == RestoredAt(original, final, baseline, intercepted, j)
    {
      var o, f, b, c := Messages(original)[i], Messages(final)[i], Messages(baseline)[i], Messages(intercepted)[i];
      var message := f;
      if o.Obj? && f.Obj? && b.Obj? && c.Obj? {
        var fields := f.fields;
        if Restorable(o, f, b, c, "reasoning_content") {
          fields := fields["reasoning_content" := o.fields["reasoning_content"]];
        }
        if Restorable(o, f, b, c, "reasoning_details") {
          fields := fields["reasoning_details" := o.fields["reasoning_details"]];
        }
        message := Obj(fields);
        assert fields == RestoreMessage(o, f, b, c).fields;
      }
      messages := messages + [message];
    }
    restored := final["messages" := Arr(messages)];
    assert messages == Messages(RestoreExtensions(original, final, baseline, intercepted));
  }

  /** The merged body before headers. No baseline means the codec failed, and rewrites are ignored. */
  function Merge(original: Body, content: Body, relayBody: Body, baseline: Option<Body>, intercepted: Body): Body {
    if baseline.None? || content == relayBody then original
    else RestoreExtensions(original, Overlay(original, baseline.value, intercepted), baseline.value, intercepted)
  }

  // ----- Laws -----

  lemma RestoreNeedsALoss(original: Json, final: Json, baseline: Json, intercepted: Json)
    requires forall key :: !Restorable(original, final, baseline, intercepted, key)
    ensures RestoreMessage(original, final, baseline, intercepted) == final
  {
    if original.Obj? && final.Obj? && baseline.Obj? && intercepted.Obj? {
      assert RestoreMessage(original, final, baseline, intercepted).fields == final.fields;
    }
  }

  lemma RestoreNothing(original: Body, final: Body, baseline: Body, intercepted: Body)
    requires Aligned(original, final, baseline, intercepted) ==>
               forall i | 0 <= i < |Messages(final)| ::
                 RestoredAt(original, final, baseline, intercepted, i) == Messages(final)[i]
    ensures RestoreExtensions(original, final, baseline, intercepted) == final
  {
    if Aligned(original, final, baseline, intercepted) {
      var restored := RestoreExtensions(original, final, baseline, intercepted);
      assert Messages(restored) == Messages(final);
      assert restored["messages"] == final["messages"];
      assert restored == final;
    }
  }

  /** Nothing intercepted, nothing changed: the original comes back whole, whatever the codec dropped. */
  lemma UntouchedRequestIsOriginal(original: Body, content: Body, relayBody: Body, baseline: Option<Body>,
                                   intercepted: Body)
    requires baseline.Some? ==> intercepted == baseline.value
    ensures Merge(original, content, relayBody, baseline, intercepted) == original
  {
    if baseline.Some? {
      var final := Overlay(original, baseline.value, intercepted);
      BodyExtensionality(final, original) by {
        forall key
          ensures Get(final, key) == Get(original, key)
        {
          OverlayAt(original, baseline.value, intercepted, key);
        }
      }
      if Aligned(original, original, baseline.value, intercepted) {
        forall i | 0 <= i < |Messages(original)|
          ensures RestoredAt(original, original, baseline.value, intercepted, i) == Messages(original)[i]
        {
          RestoreNeedsALoss(Messages(original)[i], Messages(original)[i], Messages(baseline.value)[i],
                            Messages(intercepted)[i]);
        }
      }
      RestoreNothing(original, original, baseline.value, intercepted);
    }
  }

  /** Outside the message list, each key obeys exactly one of four rules: unseen by the codec or unchanged keeps the
      original's value, changed or added takes the intercepted one, removed is gone. */
  lemma MergeKeyByKey(original: Body, content: Body, relayBody: Body, baseline: Body, intercepted: Body, key: string)
    requires content != relayBody && key != "messages"
    ensures Get(Merge(original, content, relayBody, Some(baseline), intercepted), key) ==
            (if Get(intercepted, key) == Get(baseline, key) then Get(original, key) else Get(intercepted, key))
  {
    OverlayAt(original, baseline, intercepted, key);
  }

  /** A lossless codec makes the merge exact: what was intercepted is what the provider gets. */
  lemma LosslessMergeIsIntercepted(original: Body, content: Body, relayBody: Body, intercepted: Body)
    requires content != relayBody
    ensures Merge(original, content, relayBody, Some(original), intercepted) == intercepted
  {
    var final := Overlay(original, original, intercepted);
    BodyExtensionality(final, intercepted) by {
      forall key
        ensures Get(final, key) == Get(intercepted, key)
      {
        OverlayAt(original, original, intercepted, key);
      }
    }
    if Aligned(original, intercepted, original, intercepted) {
      forall i | 0 <= i < |Messages(intercepted)|
        ensures RestoredAt(original, intercepted, original, intercepted, i) == Messages(intercepted)[i]
      {
        RestoreNeedsALoss(Messages(original)[i], Messages(intercepted)[i], Messages(original)[i],
                          Messages(intercepted)[i]);
      }
    }
    RestoreNothing(original, intercepted, original, intercepted);
  }

  /** Lookup in one message of a merged list. */
  function Field(body: Body, i: nat, key: string): Option<Json> {
    if "messages" in body && body["messages"].Arr? && i < |Messages(body)| && Messages(body)[i].Obj?
    then Get(Messages(body)[i].fields, key)
    else None
  }

  /** Rewritten messages: with aligned lists of objects an extension field the codec lost comes back from the
      original, and every other field is the intercepted one. */
  lemma RewrittenMessageFields(original: Body, baseline: Body, intercepted: Body, i: nat, key: string)
    requires "messages" in intercepted && "messages" in baseline && intercepted["messages"] != baseline["messages"]
    requires Aligned(original, intercepted, baseline, intercepted) && i < |Messages(intercepted)|
    requires Messages(original)[i].Obj? && Messages(baseline)[i].Obj? && Messages(intercepted)[i].Obj?
    ensures var final := RestoreExtensions(original, Overlay(original, baseline, intercepted), baseline, intercepted);
            Field(final, i, key) ==
            if key in EXTENSIONS && Field(baseline, i, key).None? && Field(intercepted, i, key).None?
            then Field(original, i, key)
            else Field(intercepted, i, key)
  {
    var overlaid := Overlay(original, baseline, intercepted);
    OverlayAt(original, baseline, intercepted, "messages");
    assert overlaid["messages"] == intercepted["messages"];
    assert Aligned(original, overlaid, baseline, intercepted);
    assert RestoredAt(original, overlaid, baseline, intercepted, i) ==
           RestoreMessage(Messages(original)[i], Messages(intercepted)[i], Messages(baseline)[i],
                          Messages(intercepted)[i]);
  }

  /** Without alignment no field is restored: the message list is the overlaid one. */
  lemma MisalignedMessagesAreNotRestored(original: Body, baseline: Body, intercepted: Body)
    requires !Aligned(original, Overlay(original, baseline, intercepted), baseline, intercepted)
    ensures var overlaid := Overlay(original, baseline, intercepted);
            Get(RestoreExtensions(original, overlaid, baseline, intercepted), "messages") ==
            (if Get(intercepted, "messages") == Get(baseline, "messages") then Get(original, "messages")
             else Get(intercepted, "messages"))
  {
    OverlayAt(original, baseline, intercepted, "messages");
  }

  lemma OverlayIsIdempotent(original: Body, baseline: Body, intercepted: Body)
    ensures var once := Overlay(original, baseline, intercepted); Overlay(once, baseline, intercepted) == once
  {
    var once := Overlay(original, baseline, intercepted);
    BodyExtensionality(Overlay(once, baseline, intercepted), once) by {
      forall key
        ensures Get(Overlay(once, baseline, intercepted), key) == Get(once, key)
      {
        OverlayAt(once, baseline, intercepted, key);
        OverlayAt(original, baseline, intercepted, key);
      }
    }
  }

  // ----- Headers -----

  function LowerChar(c: char): char {
    if 'A' <= c <= 'Z' then (c as int + 32) as char else c
  }

  function Lower(s: string): string {
    seq(|s|, i requires 0 <= i < |s| => LowerChar(s[i]))
  }

  function PublicHeaders(headers: map<string, string>): map<string, string> {
    map name | name in headers && Lower(name) !in INTERNAL_HEADERS :: headers[name]
  }

  predicate Falsy(j: Json) {
    j == Null || j == Bool(false) || j == Num(0) || j == Str("") || j == Arr([]) || j == Obj(map[])
  }

  /** One item of a list that `dict` takes for a key and its value: a list of two, or a string of two characters. */
  function AsPair(item: Json): Option<(string, Json)> {
    match item
    case Arr(items) => if |items| == 2 && items[0].Str? then Some((items[0].s, items[1])) else None
    case Str(s) => if |s| == 2 then Some(([s[0]], Str([s[1]]))) else None
    case _ => None
  }

  /** Later pairs win. */
  function FromPairs(items: seq<Json>): Option<Body> {
    if items == [] then Some(map[])
    else
      var pair, before := AsPair(items[|items| - 1]), FromPairs(items[..|items| - 1]);
      if pair.None? || before.None? then None else Some(before.value[pair.value.0 := pair.value.1])
  }

  /** `dict(value or {})`; nothing when the value is truthy and neither an object nor a list of pairs, where Python
      raises. */
  function AsDict(value: Option<Json>): Option<Body> {
    if value.None? || Falsy(value.value) then Some(map[])
    else if value.value.Obj? then Some(value.value.fields)
    else if value.value.Arr? then FromPairs(value.value.items)
    else None
  }

  function WithHeaders(final: Body, headers: Option<map<string, string>>): Option<Body> {
    if headers.None? || PublicHeaders(headers.value) == map[] then Some(final)
    else
      var extra := AsDict(Get(final, "extra_headers"));
      if extra.None? then None
      else
        var added := PublicHeaders(headers.value);
        Some(final["extra_headers" := Obj(extra.value + map name | name in added :: Str(added[name]))])
  }

  /** Relay-internal headers never reach the provider under any spelling, its other headers win over the request's
      own, and no other key of the request moves. */
  lemma HeadersLaw(final: Body, headers: map<string, string>, key: string, name: string)
    requires WithHeaders(final, Some(headers)).Some?
    ensures var r := WithHeaders(final, Some(headers)).value;
            && (key != "extra_headers" ==> Get(r, key) == Get(final, key))
            && AsDict(Get(r, "extra_headers")).Some?  == AsDict(Get(final, "extra_headers")).Some?
            && (AsDict(Get(final, "extra_headers")).Some? ==>
                  Get(AsDict(Get(r, "extra_headers")).value, name) ==
                  if name in headers && Lower(name) !in INTERNAL_HEADERS then Some(Str(headers[name]))
                  else Get(AsDict(Get(final, "extra_headers")).value, name))
  {
    var added := PublicHeaders(headers);
    if added == map[] {
      assert name !in added;
    } else if AsDict(Get(final, "extra_headers")).Some? {
      var fields := AsDict(Get(final, "extra_headers")).value + map n | n in added :: Str(added[n]);
      assert exists n :: n in added by {
        ghost var n := MemberOf(added.Keys);
      }
      var n :| n in added;
      assert n in fields;
      assert Obj(fields) != Obj(map[]);
    }
  }

  /** `_provider_request` as a whole. */
  method ProviderRequest(original: Body, content: Option<Body>, relayBody: Body, baseline: Option<Body>,
                         codex: bool, headers: Option<map<string, string>>) returns (request: Option<Body>)
    ensures var seen := if content.Some? then content.value else relayBody;
            request == WithHeaders(Merge(original, seen, relayBody, baseline, ProviderBody(seen, codex)), headers)
  {
    var seen := if content.Some? then content.value else relayBody;
    var final := original;
    if baseline.Some? && seen != relayBody {
      var intercepted := ProviderBody(seen, codex);
      final := OverlayChanges(original, baseline.value, intercepted);
      final := RestoreProviderExtensions(original, final, baseline.value, intercepted);
    }
    request := WithHeaders(final, headers);
  }

  // ----- Tool shapes of the Responses API -----

  predicate IsFunctionTool(tool: Json) {
    tool.Obj? && Get(tool.fields, "type") == Some(Str("function"))
  }

  /** A tool that already carries its definition under a "function" object. */
  predicate Nested(tool: Json) {
    IsFunctionTool(tool) && "function" in tool.fields && tool.fields["function"].Obj?
  }

  function RelayTool(tool: Json): Json {
    if IsFunctionTool(tool) && "function" !in tool.fields then
      Obj(map["type" := Str("function"), "function" := Obj(tool.fields - {"type"})])
    else tool
  }

  function ProviderTool(tool: Json): Json {
    if Nested(tool) then Obj(map["type" := Str("function")] + tool.fields["function"].fields) else tool
  }

  function MapTools(f: Json -> Json, tools: seq<Json>): seq<Json> {
    seq(|tools|, i requires 0 <= i < |tools| => f(tools[i]))
  }

  /** The codec-facing copy: `tools: None` disappears and flat function tools are nested. */
  function RelayBody(request: Body, codex: bool): Body {
    if !codex then request
    else if Get(request, "tools") in {None, Some(Null)} then request - {"tools"}
    else if request["tools"].Arr? then request["tools" := Arr(MapTools(RelayTool, request["tools"].items))]
    else request
  }

  /** Back to the provider's shape. */
  function ProviderBody(content: Body, codex: bool): Body {
    if codex && "tools" in content && content["tools"].Arr? then
      content["tools" := Arr(MapTools(ProviderTool, content["tools"].items))]
    else content
  }

  function Size(j: Json): nat {
    match j
    case Obj(fields) => 1 + (if "function" in fields then Size(fields["function"]) else 0)
    case _ => 1
  }

  lemma ToolRoundTrip(tool: Json)
    ensures ProviderTool(RelayTool(tool)) == tool <==> !Nested(tool)
  {
    if Nested(tool) {
      var flat := ProviderTool(tool);
      if "function" in tool.fields["function"].fields {
        assert flat.fields["function"] == tool.fields["function"].fields["function"];
        assert Size(flat) < Size(tool);
      } else {
        assert "function" !in flat.fields;
      }
    } else if IsFunctionTool(tool) && "function" !in tool.fields {
      assert map["type" := Str("function")] + (tool.fields - {"type"}) == tool.fields;
    }
  }

  /** Wrapping and unwrapping give the request back exactly when it has no explicit null for its tools and no tool is
      already nested; a nested tool comes back flattened. */
  lemma BodyRoundTripIff(request: Body)
    ensures ProviderBody(RelayBody(request, true), true) == request <==>
            && Get(request, "tools") != Some(Null)
            && ("tools" in request && request["tools"].Arr? ==>
                  forall i | 0 <= i < |request["tools"].items| :: !Nested(request["tools"].items[i]))
  {
    if "tools" in request && request["tools"].Arr? {
      var tools := request["tools"].items;
      var back := MapTools(ProviderTool, MapTools(RelayTool, tools));
      forall i | 0 <= i < |tools|
        ensures back[i] == tools[i] <==> !Nested(tools[i])
      {
        ToolRoundTrip(tools[i]);
      }
      assert ProviderBody(RelayBody(request, true), true)["tools"] == Arr(back);
      if back == tools {
        assert ProviderBody(RelayBody(request, true), true) == request;
      }
    } else if Get(request, "tools") == None {
      assert request - {"tools"} == request;
    }
  }

  /** A request whose tool is already nested comes back flattened, and an explicit null for the tools is gone. */
  lemma BodyChangesExample(name: Json)
    ensures var flat, nested := map["type" := Str("function"), "name" := name],
                                map["type" := Str("function"), "function" := Obj(map["name" := name])];
            ProviderBody(RelayBody(map["tools" := Arr([Obj(nested)])], true), true) == map["tools" := Arr([Obj(flat)])]
    ensures ProviderBody(RelayBody(map["tools" := Null], true), true) == map[]
  {
    var nested := map["type" := Str("function"), "function" := Obj(map["name" := name])];
    var flat := map["type" := Str("function"), "name" := name];
    assert map["type" := Str("function")] + map["name" := name] == flat;
    assert "function" in nested && "type" in nested;
    assert RelayTool(Obj(nested)) == Obj(nested) && ProviderTool(Obj(nested)) == Obj(flat);
    assert MapTools(RelayTool, [Obj(nested)]) == [Obj(nested)];
    assert MapTools(ProviderTool, [Obj(nested)]) == [Obj(flat)];
    assert map["tools" := Null] - {"tools"} == map[];
  }
}
