/** The steps of the configuration ladder, each as a function from the file it reads to the file it writes.

    A step that touches one section is given as what it does to that section. Python's truthiness, hashability and
    attribute errors are part of it: a step that raises writes nothing. */
module ConfigSteps {
  import opened Collections
  import opened ProviderKeys
  import Text

  /** What a YAML file holds. Scalars can be dictionary keys and set members; lists and dictionaries cannot. */
  datatype Scalar = Null | Bool(b: bool) | Num(n: real) | Str(s: string)
  datatype Yaml = Leaf(v: Scalar) | List(items: seq<Yaml>) | Dict(fields: map<Scalar, Yaml>)

  type Table = map<Scalar, Yaml>

  /** What the steps take from outside the file: the conversion of a legacy provider entry, the fallback key made from
      its URL, `int` of a string, `str` of a value, the installed user plugins, the two groups of defaults step 23
      seeds, the variables exported to the process, all schema defaults, and what the writer leaves on disk when it is
      given a configuration to put in the place of the file that is there. */
  datatype Env = Env(
    convert: (Table, string) -> Option<Table>,
    hostKey: (Yaml, nat) -> string,
    parse: string -> Option<int>,
    render: Yaml -> string,
    installed: seq<Scalar>,
    curator: Table,
    auxCurator: Table,
    process: map<string, string>,
    defaults: Table,
    persist: (Table, Table) -> Table)

  function Lookup(t: Table, key: string): Option<Yaml> {
    if Str(key) in t then Some(t[Str(key)]) else None
  }

  function Put(t: Table, key: string, v: Yaml): Table {
    t[Str(key) := v]
  }

  function Drop(t: Table, key: string): Table {
    t - {Str(key)}
  }

  /** The value if it is a dictionary, otherwise an empty one. */
  function AsTable(y: Option<Yaml>): Table {
    match y
    case Some(Dict(fields)) => fields
    case _ => map[]
  }

  predicate Falsy(y: Yaml) {
    match y
    case Leaf(Null) => true
    case Leaf(Bool(b)) => !b
    case Leaf(Num(n)) => n == 0.0
    case Leaf(Str(s)) => s == ""
    case List(items) => items == []
    case Dict(fields) => fields == map[]
  }

  function Text1(s: string): Yaml {
    Leaf(Str(s))
  }

  /** What a step does to one section. */
  datatype Change = Keep | Set(value: Yaml) | Raise

  function Apply(config: Table, name: string, change: Change): Option<Table> {
    match change
    case Keep => Some(config)
    case Set(v) => Some(Put(config, name, v))
    case Raise => None
  }

  // ----- 12: custom_providers -> providers -----

  datatype Providers = Providers(table: Table, count: nat)

  function Names(t: Table): set<string> {
    set k | k in t.Keys && k.Str? :: k.s
  }

  function Url(entry: Table): Yaml {
    var a, b, c := Lookup(entry, "base_url"), Lookup(entry, "url"), Lookup(entry, "api");
    if a.Some? && !Falsy(a.value) then a.value
    else if b.Some? && !Falsy(b.value) then b.value
    else if c.Some? && !Falsy(c.value) then c.value
    else Text1("")
  }

  function EntryName(entry: Table): Yaml {
    if Lookup(entry, "name").Some? then Lookup(entry, "name").value else Text1("")
  }

  const NO_KEY: set<Scalar> := {Str("no-key"), Str("no-key-required"), Str("")}

  function Tidy(converted: Table, named: bool): Option<Table> {
    var t := if named then converted else Drop(converted, "name");
    match Lookup(t, "api_key")
    case Some(Leaf(v)) => Some(if v in NO_KEY then Drop(t, "api_key") else t)
    case Some(_) => None
    case None => Some(t)
  }

  function KeyFor(env: Env, p: Providers, name: string, url: Yaml): (key: string)
    ensures key !in Names(p.table)
  {
    var root := if Slug(name) == "" then env.hostKey(url, p.count) else Slug(name);
    FreshKey(Names(p.table), root, root, p.count)
  }

  function AddEntry(env: Env, p: Providers, entry: Yaml): Option<Providers> {
    if !entry.Dict? || Falsy(Url(entry.fields)) then Some(p)
    else AddNamed(env, p, entry.fields, EntryName(entry.fields), Url(entry.fields))
  }

  /** A name that is not a string has no `strip`. */
  function AddNamed(env: Env, p: Providers, entry: Table, name: Yaml, url: Yaml): Option<Providers> {
    if name.Leaf? && name.v.Str? then AddConverted(env, p, entry, name.v.s, KeyFor(env, p, name.v.s, url))
    else None
  }

  function AddConverted(env: Env, p: Providers, entry: Table, name: string, key: string): Option<Providers> {
    match env.convert(entry, key)
    case None => Some(p)
    case Some(converted) =>
      match Tidy(converted, name != "")
      case None => None
      case Some(t) => Some(Providers(Put(p.table, key, Dict(t)), p.count + 1))
  }

  function AddEntries(env: Env, p: Providers, entries: seq<Yaml>): Option<Providers>
    decreases |entries|
  {
    if entries == [] then Some(p)
    else
      match AddEntry(env, p, entries[0])
      case None => None
      case Some(q) => AddEntries(env, q, entries[1..])
  }

  function Step12(env: Env, config: Table): Option<Table> {
    match Lookup(config, "custom_providers")
    case Some(List(entries)) =>
      if entries == [] then Some(config)
      else
        match AddEntries(env, Providers(AsTable(Lookup(config, "providers")), 0), entries) {
          case None => None
          case Some(p) =>
            Some(if p.count == 0 then config
                 else Drop(Put(config, "providers", Dict(p.table)), "custom_providers"))
        }
    case _ => Some(config)
  }

  // ----- 14: stt.model -----

  const LOCAL_MODELS: set<Scalar> := {
    Str("tiny.en"), Str("tiny"), Str("base.en"), Str("base"), Str("small.en"), Str("small"), Str("medium.en"),
    Str("medium"), Str("large-v1"), Str("large-v2"), Str("large-v3"), Str("large"), Str("distil-large-v2"),
    Str("distil-medium.en"), Str("distil-small.en"), Str("distil-large-v3"), Str("distil-large-v3.5"),
    Str("large-v3-turbo"), Str("turbo")}

  function SttProvider(raw: Table): Yaml {
    if Lookup(raw, "provider").Some? then Lookup(raw, "provider").value else Text1("local")
  }

  predicate HasModel(y: Yaml) {
    y.Dict? && Str("model") in y.fields
  }

  /** The legacy value moves under `target` unless a model is already set there. `raw` still holds the flat key. */
  function PlaceModel(raw: Table, target: Scalar, legacy: Yaml): Change {
    var stt := Drop(raw, "model");
    if target in raw && HasModel(raw[target]) then Set(Dict(stt))
    else if target !in stt then Set(Dict(stt[target := Dict(map[Str("model") := legacy])]))
    else if stt[target].Dict? then Set(Dict(stt[target := Dict(Put(stt[target].fields, "model", legacy))]))
    else Raise
  }

  function Stt(section: Option<Yaml>): Change {
    if section.None? || !HasModel(section.value) then Keep
    else
      var raw := section.value.fields;
      var legacy := raw[Str("model")];
      match SttProvider(raw)
      case Leaf(provider) =>
        if provider in {Str("local"), Str("local_command")} then
          if !legacy.Leaf? then Raise
          else if legacy.v in LOCAL_MODELS then PlaceModel(raw, Str("local"), legacy)
          else Set(Dict(Drop(raw, "model")))
        else PlaceModel(raw, provider, legacy)
      case _ => Raise
  }

  // ----- 15, 16: display -----

  function Interim(section: Option<Yaml>): Change {
    var display := AsTable(section);
    if Str("interim_assistant_messages") in display then Keep
    else Set(Dict(Put(display, "interim_assistant_messages", Leaf(Bool(true)))))
  }

  /** `"tool_progress" not in platforms[plat]` also reads strings and lists; only a dictionary can be assigned to. */
  function PlatformEntry(platforms: Table, plat: Scalar, mode: Yaml): Option<Yaml> {
    if plat !in platforms then Some(Dict(map[Str("tool_progress") := mode]))
    else
      match platforms[plat]
      case Dict(t) => Some(if Str("tool_progress") in t then platforms[plat] else Dict(Put(t, "tool_progress", mode)))
      case List(items) => if Text1("tool_progress") in items then Some(platforms[plat]) else None
      case Leaf(Str(s)) => if Text.Contains(s, "tool_progress") then Some(platforms[plat]) else None
      case Leaf(_) => None
  }

  predicate Mergeable(platforms: Table, overrides: Table) {
    forall plat | plat in overrides :: PlatformEntry(platforms, plat, overrides[plat]).Some?
  }

  function MergePlatforms(platforms: Table, overrides: Table): Table
    requires Mergeable(platforms, overrides)
  {
    map plat | plat in platforms.Keys + overrides.Keys ::
      if plat in overrides then PlatformEntry(platforms, plat, overrides[plat]).value else platforms[plat]
  }

  function Overrides(section: Option<Yaml>): Change {
    var display := AsTable(section);
    var overrides := AsTable(Lookup(display, "tool_progress_overrides"));
    var platforms := AsTable(Lookup(display, "platforms"));
    if overrides == map[] then Keep
    else if !Mergeable(platforms, overrides) then Raise
    else Set(Dict(Put(display, "platforms", Dict(MergePlatforms(platforms, overrides)))))
  }

  // ----- 17: compression.summary_* -----

  function Show(env: Env, y: Yaml): string {
    if y.Leaf? && y.v.Str? then y.v.s else env.render(y)
  }

  /** A legacy value worth moving: truthy, not blank, and none of the `ignored`. */
  function Legacy(env: Env, y: Option<Yaml>, ignored: set<string>): Option<string> {
    if y.None? || Falsy(y.value) || Text.Strip(Show(env, y.value)) in ignored + {""} then None
    else Some(Text.Strip(Show(env, y.value)))
  }

  function FoldKey(slot: Table, key: string, text: Option<string>, overAuto: bool): Table {
    var cur := Lookup(slot, key);
    if text.Some? && (cur.None? || Falsy(cur.value) || (overAuto && cur.value == Text1("auto"))) then
      Put(slot, key, Text1(text.value))
    else slot
  }

  function FoldSlot(slot: Table, model: Option<string>, provider: Option<string>, url: Option<string>): Table {
    FoldKey(FoldKey(FoldKey(slot, "model", model, false), "provider", provider, true), "base_url", url, false)
  }

  predicate TableOrMissing(y: Option<Yaml>) {
    y.None? || y.value.Dict?
  }

  function AuxFold(section: Option<Yaml>, model: Option<string>, provider: Option<string>,
                   url: Option<string>): Change {
    var aux := AsTable(section);
    if model.None? && provider.None? && url.None? then Keep
    else if !TableOrMissing(section) || !TableOrMissing(Lookup(aux, "compression")) then Raise
    else
      var slot := FoldSlot(AsTable(Lookup(aux, "compression")), model, provider, url);
      Set(Dict(Put(aux, "compression", Dict(slot))))
  }

  const SUMMARY_KEYS: set<Scalar> := {Str("summary_model"), Str("summary_provider"), Str("summary_base_url")}

  /** A legacy key with a value other than null is present. */
  predicate HasSummary(comp: Table) {
    exists k | k in SUMMARY_KEYS :: k in comp && comp[k] != Leaf(Null)
  }

  function Step17(env: Env, config: Table): Option<Table> {
    var comp := AsTable(Lookup(config, "compression"));
    if !HasSummary(comp) then Some(config)
    else
      var fold := AuxFold(Lookup(config, "auxiliary"), Legacy(env, Lookup(comp, "summary_model"), {}),
                          Legacy(env, Lookup(comp, "summary_provider"), {"auto"}),
                          Legacy(env, Lookup(comp, "summary_base_url"), {}));
      match Apply(config, "auxiliary", fold)
      case None => None
      case Some(c) => Some(Put(c, "compression", Dict(comp - SUMMARY_KEYS)))
  }

  // ----- 21: plugins.enabled -----

  function Grandfathered(installed: seq<Scalar>, disabled: seq<Yaml>): (r: seq<Yaml>)
    ensures forall y :: y in r <==> y.Leaf? && y.v in installed && y !in disabled
  {
    if installed == [] then []
    else
      var rest := Grandfathered(installed[1..], disabled);
      if Leaf(installed[0]) in disabled then rest else [Leaf(installed[0])] + rest
  }

  function Disabled(plugins: Table): seq<Yaml> {
    match Lookup(plugins, "disabled")
    case Some(List(items)) => items
    case _ => []
  }

  function Plugins(env: Env, section: Option<Yaml>): Change {
    var plugins := AsTable(section);
    if Str("enabled") in plugins then Keep
    else if exists i :: 0 <= i < |Disabled(plugins)| && !Disabled(plugins)[i].Leaf? then Raise
    else Set(Dict(Put(plugins, "enabled", List(Grandfathered(env.installed, Disabled(plugins))))))
  }

  // ----- 23: curator defaults -----

  function Seed(defaults: Table, section: Option<Yaml>): Change {
    if defaults.Keys <= AsTable(section).Keys then Keep else Set(Dict(defaults + AsTable(section)))
  }

  function SeedAux(defaults: Table, section: Option<Yaml>): Change {
    match Seed(defaults, Lookup(AsTable(section), "curator"))
    case Set(v) => Set(Dict(Put(AsTable(section), "curator", v)))
    case _ => Keep
  }

  function Step23(env: Env, config: Table): Option<Table> {
    match Apply(config, "curator", Seed(env.curator, Lookup(config, "curator")))
    case None => None
    case Some(c) => Apply(c, "auxiliary", SeedAux(env.auxCurator, Lookup(c, "auxiliary")))
  }

  // ----- 25, 29, 31, 32, 33 -----

  function Ttl(section: Option<Yaml>): Change {
    var catalog := AsTable(section);
    if Lookup(catalog, "ttl_hours") == Some(Leaf(Num(24.0))) then Set(Dict(Put(catalog, "ttl_hours", Leaf(Num(1.0)))))
    else Keep
  }

  predicate IsWord(y: Yaml, word: string) {
    y.Leaf? && y.v.Str? && Lower(Text.Strip(y.v.s)) == word
  }

  function WriteApproval(section: Option<Yaml>): Change {
    match Lookup(AsTable(section), "write_mode")
    case None => Keep
    case Some(mode) =>
      Set(Dict(Put(Drop(AsTable(section), "write_mode"), "write_approval", Leaf(Bool(IsWord(mode, "approve"))))))
  }

  function Step29(config: Table): Option<Table> {
    match Apply(config, "memory", WriteApproval(Lookup(config, "memory")))
    case None => None
    case Some(c) => Apply(c, "skills", WriteApproval(Lookup(c, "skills")))
  }

  function VerifyOff(section: Option<Yaml>): Change {
    var agent := AsTable(section);
    var cur := Lookup(agent, "verify_on_stop");
    if cur.None? || cur.value == Leaf(Null) || IsWord(cur.value, "auto") then
      Set(Dict(Put(agent, "verify_on_stop", Leaf(Bool(false)))))
    else Keep
  }

  function VerifyBaked(section: Option<Yaml>): Change {
    var agent := AsTable(section);
    if Lookup(agent, "verify_on_stop") == Some(Leaf(Bool(true))) then
      Set(Dict(Put(agent, "verify_on_stop", Leaf(Bool(false)))))
    else Keep
  }

  /** Python's `int`: towards zero, and nothing for what has no integer value. */
  function Int(env: Env, y: Yaml): Option<int> {
    match y
    case Leaf(Bool(b)) => Some(if b then 1 else 0)
    case Leaf(Num(n)) => Some(if n >= 0.0 then n.Floor else -((-n).Floor))
    case Leaf(Str(s)) => env.parse(s)
    case _ => None
  }

  function Children(env: Env, delegation: Table): int {
    var cur := Lookup(delegation, "max_concurrent_children");
    if cur.Some? && Int(env, cur.value).Some? then Int(env, cur.value).value else 3
  }

  function Delegation(env: Env, section: Option<Yaml>): Change {
    match Lookup(AsTable(section), "max_async_children")
    case None => Keep
    case Some(cap) =>
      var t := Drop(AsTable(section), "max_async_children");
      var n := Int(env, cap);
      if n.Some? && n.value > 3 && n.value > Children(env, t) then
        Set(Dict(Put(t, "max_concurrent_children", Leaf(Num(n.value as real)))))
      else Set(Dict(t))
  }

  // ----- What single steps keep -----

  ghost predicate OnlyAdded(p: Providers, q: Providers) {
    && p.count <= q.count
    && |q.table| == |p.table| + (q.count - p.count)
    && forall k | k in p.table :: k in q.table && q.table[k] == p.table[k]
  }

  lemma PutFresh(p: Providers, key: string, v: Yaml)
    requires key !in Names(p.table)
    ensures OnlyAdded(p, Providers(Put(p.table, key, v), p.count + 1))
  {
    assert Str(key) !in p.table;
    assert Put(p.table, key, v).Keys == p.table.Keys + {Str(key)};
  }

  lemma AddConvertedOverwritesNothing(env: Env, p: Providers, entry: Table, name: string, key: string)
    requires key !in Names(p.table) && AddConverted(env, p, entry, name, key).Some?
    ensures OnlyAdded(p, AddConverted(env, p, entry, name, key).value)
  {
    var converted := env.convert(entry, key);
    if converted.Some? {
      PutFresh(p, key, Dict(Tidy(converted.value, name != "").value));
    }
  }

  lemma AddEntryOverwritesNothing(env: Env, p: Providers, entry: Yaml)
    requires AddEntry(env, p, entry).Some?
    ensures OnlyAdded(p, AddEntry(env, p, entry).value)
  {
    if entry.Dict? && !Falsy(Url(entry.fields)) {
      var name := EntryName(entry.fields);
      AddConvertedOverwritesNothing(env, p, entry.fields, name.v.s, KeyFor(env, p, name.v.s, Url(entry.fields)));
    }
  }

  /** No provider is overwritten, each added one gets a key of its own. */
  lemma {:induction false} AddEntriesOverwriteNothing(env: Env, p: Providers, entries: seq<Yaml>)
    requires AddEntries(env, p, entries).Some?
    ensures OnlyAdded(p, AddEntries(env, p, entries).value)
    decreases |entries|
  {
    if entries != [] {
      AddEntryOverwritesNothing(env, p, entries[0]);
      AddEntriesOverwriteNothing(env, AddEntry(env, p, entries[0]).value, entries[1..]);
    }
  }

  /** Step 12 on the whole file: every provider stays as it was, and the legacy list goes only when its entries came
      over. */
  lemma Step12OverwritesNoProvider(env: Env, config: Table)
    requires Step12(env, config).Some?
    ensures var after := Step12(env, config).value;
            var was, now := AsTable(Lookup(config, "providers")), AsTable(Lookup(after, "providers"));
            && (forall k | k in was :: k in now && now[k] == was[k])
            && (after != config ==> |now| > |was| && Lookup(after, "custom_providers") == None)
            && (|now| == |was| ==> after == config)
  {
    var after := Step12(env, config).value;
    match Lookup(config, "custom_providers")
    case Some(List(entries)) =>
      if entries != [] {
        AddEntriesOverwriteNothing(env, Providers(AsTable(Lookup(config, "providers")), 0), entries);
      }
    case _ =>
  }

  /** A platform's own setting survives, every overridden platform has one, and the rest of the section is as it was. */
  lemma OverridesOnlyFillGaps(section: Option<Yaml>, plat: Scalar)
    requires Overrides(section).Set?
    ensures var was, now := AsTable(section), AsTable(Some(Overrides(section).value));
            var overrides := AsTable(Lookup(was, "tool_progress_overrides"));
            var had, cur := AsTable(Lookup(was, "platforms")), AsTable(Lookup(now, "platforms"));
            && (forall k | k != Str("platforms") :: k in now <==> k in was)
            && (forall k | k != Str("platforms") && k in was :: now[k] == was[k])
            && (plat in cur <==> plat in had || plat in overrides)
            && (plat in had && (plat !in overrides || (had[plat].Dict? && Str("tool_progress") in had[plat].fields))
                ==> cur[plat] == had[plat])
            && (plat in overrides && plat !in had ==> cur[plat] == Dict(map[Str("tool_progress") := overrides[plat]]))
            && (plat in overrides && plat in had && had[plat].Dict? && Str("tool_progress") !in had[plat].fields
                ==> cur[plat] == Dict(Put(had[plat].fields, "tool_progress", overrides[plat])))
  {
    var overrides := AsTable(Lookup(AsTable(section), "tool_progress_overrides"));
    var platforms := AsTable(Lookup(AsTable(section), "platforms"));
    assert plat in overrides ==> PlatformEntry(platforms, plat, overrides[plat]).Some?;
  }

  /** Nobody loses headroom: after step 33 the surviving cap is at least the old effective ones. */
  lemma DelegationKeepsHeadroom(env: Env, section: Option<Yaml>)
    requires Delegation(env, section).Set?
    ensures var was, now := AsTable(section), AsTable(Some(Delegation(env, section).value));
            && Str("max_async_children") !in now
            && Children(env, now) >= Children(env, was)
            && (Int(env, was[Str("max_async_children")]).Some? && Int(env, was[Str("max_async_children")]).value > 3
                ==> Children(env, now) >= Int(env, was[Str("max_async_children")]).value)
  {
    var was := AsTable(section);
    assert Children(env, Drop(was, "max_async_children")) == Children(env, was);
  }

  // ----- Repeating a step on its own result -----

  /** The one case in which step 14 undoes itself: the value moves under a provider named like the flat key. */
  predicate LosesModel(section: Option<Yaml>) {
    && section.Some? && HasModel(section.value)
    && SttProvider(section.value.fields) == Text1("model")
    && !HasModel(section.value.fields[Str("model")])
  }

  predicate Settles(change: Change, value: Yaml) {
    change == Keep || change == Set(value)
  }

  lemma SttAgain(section: Option<Yaml>)
    requires Stt(section).Set?
    ensures Settles(Stt(Some(Stt(section).value)), Stt(section).value) <==> !LosesModel(section)
  {
    var raw := section.value.fields;
    var after := Stt(section).value;
    if SttProvider(raw) == Text1("model") {
      assert raw[Str("model")] == section.value.fields[Str("model")];
    } else {
      assert !HasModel(after);
    }
  }

  lemma OverridesAgain(section: Option<Yaml>)
    requires Overrides(section).Set?
    ensures Settles(Overrides(Some(Overrides(section).value)), Overrides(section).value)
  {
    var was := AsTable(section);
    var now := AsTable(Some(Overrides(section).value));
    var overrides := AsTable(Lookup(was, "tool_progress_overrides"));
    var had, cur := AsTable(Lookup(was, "platforms")), AsTable(Lookup(now, "platforms"));
    assert cur == MergePlatforms(had, overrides);
    forall plat | plat in overrides
      ensures PlatformEntry(cur, plat, overrides[plat]) == Some(cur[plat])
    {
      assert PlatformEntry(had, plat, overrides[plat]).Some?;
    }
    assert MergePlatforms(cur, overrides) == cur;
    assert Put(now, "platforms", Dict(cur)) == now;
  }

  lemma SectionsAgain(env: Env, section: Option<Yaml>)
    ensures Interim(section).Set? ==> Interim(Some(Interim(section).value)) == Keep
    ensures Plugins(env, section).Set? ==> Plugins(env, Some(Plugins(env, section).value)) == Keep
    ensures Ttl(section).Set? ==> Ttl(Some(Ttl(section).value)) == Keep
    ensures WriteApproval(section).Set? ==> WriteApproval(Some(WriteApproval(section).value)) == Keep
    ensures Delegation(env, section).Set? ==> Delegation(env, Some(Delegation(env, section).value)) == Keep
  {
  }

  lemma VerifyAgain(section: Option<Yaml>)
    ensures VerifyOff(section).Set? ==> VerifyOff(Some(VerifyOff(section).value)) == Keep
    ensures VerifyBaked(section).Set? ==> VerifyBaked(Some(VerifyBaked(section).value)) == Keep
  {
  }

  lemma SeedAuxAgain(defaults: Table, section: Option<Yaml>)
    ensures SeedAux(defaults, section).Set? ==>
              SeedAux(defaults, Some(SeedAux(defaults, section).value)) == Keep
  {
  }
}
