/** The writers and schemas the results about interrupted runs hold for. */
module LadderWriters {
  import opened Collections
  import opened ConfigLoad
  import opened ConfigSteps
  import opened LadderRuns
  import opened LadderSteps
  import opened MigrationLadder
  import opened ProviderKeys
  import opened StepsAlike
  import Text

  /** A writer that leaves out defaults, protecting whatever it likes of the file it replaces. */
  ghost predicate Strips(env: Env, rule: Table -> Rule) {
    forall was, now :: env.persist(was, now) == StripTable(rule(was), env.defaults, now)
  }

  lemma StrippingWriterIsOk(env: Env, rule: Table -> Rule)
    requires Strips(env, rule)
    ensures WriterOk(env)
  {
    forall was, now
      ensures AlikeTables(env.defaults, env.persist(was, now), now)
    {
      StripLoads(rule(was), env.defaults, now);
    }
  }

  /** A writer that writes what it is given: no defaults come into it, and states are the same exactly if the files
      are equal. */
  lemma PlainWriterIsOk(env: Env)
    requires env.defaults == map[] && forall was, now :: env.persist(was, now) == now
    ensures Ok(env)
    ensures forall s, t :: SameState(env, s, t) <==> s == t
  {
    NoSchemaIsOk(env);
    forall s, t
      ensures SameState(env, s, t) <==> s == t
    {
      NoDefaults(s.config);
      NoDefaults(t.config);
    }
  }

  // ----- The shipped schema -----

  const OFF: Yaml := Leaf(Bool(false))
  const ON: Yaml := Leaf(Bool(true))

  const PLATFORMS: Table := map[
    Str("telegram") := Dict(map[Str("streaming") := ON]),
    Str("discord") := Dict(map[Str("streaming") := OFF]),
    Str("slack") := Dict(map[Str("streaming") := OFF])]

  predicate ShipsStt(stt: Table) {
    && Lookup(stt, "provider") == Some(Text1("local")) && Lookup(stt, "language") == Some(Text1("en"))
    && Str("model") !in stt
    && Lookup(stt, "local").Some? && Lookup(stt, "local").value.Dict?
    && Lookup(AsTable(Lookup(stt, "local")), "model") == Some(Text1("base"))
  }

  predicate ShipsDisplay(display: Table) {
    && Lookup(display, "interim_assistant_messages") == Some(ON)
    && Lookup(display, "platforms") == Some(Dict(PLATFORMS))
    && Str("tool_progress_overrides") !in display
  }

  predicate ShipsAuxiliary(aux: Table) {
    && Lookup(aux, "compression").Some? && Lookup(aux, "compression").value.Dict?
    && Lookup(aux, "curator").Some? && Lookup(aux, "curator").value.Dict?
    && var slot := AsTable(Lookup(aux, "compression"));
    && Lookup(slot, "provider") == Some(Text1("auto"))
    && Lookup(slot, "model") == Some(Text1("")) && Lookup(slot, "base_url") == Some(Text1(""))
  }

  /** The shipped defaults, as far as a step looks at them: every section is there except `plugins`, none of the legacy
      keys is, and step 23 seeds what is there. Keys no step tests may have any defaults. */
  ghost predicate Ships(env: Env) {
    && (forall name | name in SECTIONS - {"plugins"} :: Default(env, name).Some? && Default(env, name).value.Dict?)
    && Default(env, "plugins") == None && Default(env, "custom_providers") == None
    && Default(env, "providers") == Some(Dict(map[]))
    && ShipsStt(Group(env, "stt")) && ShipsDisplay(Group(env, "display")) && ShipsAuxiliary(Group(env, "auxiliary"))
    && (forall k | k in SUMMARY_KEYS :: k !in Group(env, "compression"))
    && env.curator == Group(env, "curator") && env.auxCurator == AsTable(Lookup(Group(env, "auxiliary"), "curator"))
    && Lookup(Group(env, "model_catalog"), "ttl_hours") == Some(Leaf(Num(1.0)))
    && Str("write_mode") !in Group(env, "memory") && Str("write_mode") !in Group(env, "skills")
    && Lookup(Group(env, "agent"), "verify_on_stop") == Some(Text1("auto"))
    && Lookup(Group(env, "delegation"), "max_concurrent_children") == Some(Leaf(Num(3.0)))
    && Str("max_async_children") !in Group(env, "delegation")
  }

  lemma AutoIsNoncommittal()
    ensures VerifyOk(Some(Text1("auto")))
  {
    Text.StripOfStripped("auto");
    assert Lower("auto") == "auto" by {
      assert Lower("o") == "o" && "to"[1..] == "o" && "uto"[1..] == "to" && "auto"[1..] == "uto";
    }
  }

  lemma ShippedDisplay(display: Table)
    requires ShipsDisplay(display)
    ensures DisplayOk(display)
  {
    forall p | p in PLATFORMS
      ensures PLATFORMS[p].Dict? && Str("tool_progress") !in PLATFORMS[p].fields
    {
      assert p in {Str("telegram"), Str("discord"), Str("slack")};
    }
  }

  lemma ShippedDelegation(env: Env, delegation: Table)
    requires Lookup(delegation, "max_concurrent_children") == Some(Leaf(Num(3.0)))
    requires Str("max_async_children") !in delegation
    ensures DelegationOk(env, delegation)
  {
    assert Int(env, Leaf(Num(3.0))) == Some(3);
  }

  lemma ShippedSeeds(env: Env)
    requires Ships(env)
    ensures SeedOk(env.curator, Default(env, "curator")) && AuxiliaryOk(Group(env, "auxiliary"), env.auxCurator)
  {
    assert "curator" in SECTIONS - {"plugins"};
  }

  lemma ShippedSections(env: Env)
    requires Ships(env)
    ensures forall name | name in SECTIONS :: TableDefault(Default(env, name))
  {
    forall name | name in SECTIONS
      ensures TableDefault(Default(env, name))
    {
      assert name == "plugins" || name in SECTIONS - {"plugins"};
    }
  }

  lemma ShippedAgent(agent: Table)
    requires Lookup(agent, "verify_on_stop") == Some(Text1("auto"))
    ensures VerifyOk(Lookup(agent, "verify_on_stop"))
  {
    AutoIsNoncommittal();
  }

  lemma ShippedKeys(env: Env)
    requires Ships(env)
    ensures Default(env, "custom_providers") == None && Group(env, "providers") == map[]
    ensures SttOk(Group(env, "stt")) && PluginsOk(Group(env, "plugins"))
    ensures forall k | k in SUMMARY_KEYS :: k !in Group(env, "compression")
    ensures Lookup(Group(env, "model_catalog"), "ttl_hours") != Some(Leaf(Num(24.0)))
    ensures Str("write_mode") !in Group(env, "memory") && Str("write_mode") !in Group(env, "skills")
  {
  }

  lemma ShippedSchemaIsOk(env: Env)
    requires Ships(env)
    ensures SchemaOk(env)
  {
    ShippedSections(env);
    ShippedKeys(env);
    ShippedDisplay(Group(env, "display"));
    ShippedDelegation(env, Group(env, "delegation"));
    ShippedSeeds(env);
    ShippedAgent(Group(env, "agent"));
  }

  /** The shipped schema and any writer that leaves out defaults. */
  lemma ShippedLadderConvergesIff(env: Env, rule: Table -> Rule, version: int, s: State, crashes: seq<nat>, t: State)
    requires Ships(env) && Strips(env, rule) && LeftAfter(env, Eligible(version), s, crashes, t)
    ensures SameOutcome(env, RunSteps(env, Eligible(version), t), RunSteps(env, Eligible(version), s))
            <==> !(Fragile(s) && PassedStt(Eligible(version), crashes))
  {
    ShippedSchemaIsOk(env);
    StrippingWriterIsOk(env, rule);
    AnyCrashesConvergeIff(env, version, s, crashes, t);
  }

  /** Files that are written as they are come out equal, key by key. */
  lemma PlainLadderConvergesIff(env: Env, version: int, s: State, crashes: seq<nat>, t: State)
    requires env.defaults == map[] && forall was, now :: env.persist(was, now) == now
    requires LeftAfter(env, Eligible(version), s, crashes, t)
    ensures RunSteps(env, Eligible(version), t) == RunSteps(env, Eligible(version), s)
            <==> !(Fragile(s) && PassedStt(Eligible(version), crashes))
  {
    PlainWriterIsOk(env);
    AnyCrashesConvergeIff(env, version, s, crashes, t);
  }

  // ----- Concrete files -----

  /** What loads as `stt.model`. */
  function FlatModel(env: Env, s: State): Option<Yaml> {
    Lookup(AsTable(Lookup(Config(env, s), "stt")), "model")
  }

  lemma FlatModelLoads(env: Env, s: State)
    requires SchemaOk(env)
    ensures FlatModel(env, s) == Lookup(AsTable(Lookup(s.config, "stt")), "model")
  {
    var d, x := Default(env, "stt"), Lookup(s.config, "stt");
    assert "stt" in SECTIONS;
    LoadAt(env.defaults, s.config, Str("stt"));
    if d.Some? {
      SectionLoads(d.value.fields, x);
      LoadAt(d.value.fields, AsTable(x), Str("model"));
    }
  }

  lemma TakeFlatModel(env: Env, s: State)
    requires Ok(env) && Take(env, To14, s).Some?
    ensures FlatModel(env, Take(env, To14, s).value) ==
            Lookup(AsTable(After(Lookup(s.config, "stt"), Stt(Lookup(s.config, "stt")))), "model")
  {
    TakeIsHanded(env, To14, s);
    FlatModelLoads(env, Handed(env, To14, s));
  }

  lemma DoomedStt(section: Option<Yaml>)
    requires SttForm(section) == Doomed
    ensures Stt(section).Set?
    ensures Lookup(AsTable(Some(Stt(section).value)), "model") ==
            Some(Dict(map[Str("model") := section.value.fields[Str("model")]]))
  {
  }

  /** What happens to the flat model of a file that meets the exception: moved by one pass, gone after two. */
  lemma FragileLosesModel(env: Env, s: State)
    requires Ok(env) && Fragile(s)
    ensures FlatModel(env, s).Some? && Take(env, To14, s).Some?
    ensures var once := Take(env, To14, s).value;
            && FlatModel(env, once) == Some(Dict(map[Str("model") := FlatModel(env, s).value]))
            && Take(env, To14, once).Some?
            && FlatModel(env, Take(env, To14, once).value) == None
  {
    FlatModelLoads(env, s);
    TakeForm(env, To14, s);
    DoomedStt(Lookup(s.config, "stt"));
    TakeFlatModel(env, s);
    var once := Take(env, To14, s).value;
    TakeForm(env, To14, once);
    FlatModelLoads(env, Take(env, To14, once).value);
  }

  lemma ModelLostExample(env: Env)
    requires Ok(env)
    ensures var s := State(map[Str("stt") := Dict(map[Str("provider") := Text1("model"), Str("model") := Text1("m")])],
                           map[]);
            var once := Take(env, To14, s);
            && once.Some? && FlatModel(env, once.value) == Some(Dict(map[Str("model") := Text1("m")]))
            && var again := Take(env, To14, once.value);
               again.Some? && FlatModel(env, again.value) == None
  {
    var raw := map[Str("provider") := Text1("model"), Str("model") := Text1("m")];
    var s := State(map[Str("stt") := Dict(raw)], map[]);
    assert Lookup(s.config, "stt") == Some(Dict(raw)) && SttForm(Some(Dict(raw))) == Doomed;
    FragileLosesModel(env, s);
    FlatModelLoads(env, s);
  }

  const INTERIM: Yaml := Dict(map[Str("interim_assistant_messages") := ON])

  lemma InterimIsStripped(rule: Rule, display: Table)
    requires forall path :: !rule.keep(path)
    requires rule.drops(ON) && Lookup(display, "interim_assistant_messages") == Some(ON)
    ensures StripValue(rule, [Str("display")], Some(Dict(display)), INTERIM) == None
  {
    var key, path := Str("interim_assistant_messages"), [Str("display")];
    assert StripValue(rule, path + [key], Some(ON), ON) == None;
    assert Pruned(INTERIM) by {
      assert key in INTERIM.fields;
    }
  }

  lemma InterimOnEmptyFile(env: Env)
    ensures ConfigStep(env, To15, map[]) == Some(map[Str("display") := INTERIM]) && Persists(env, To15, map[])
  {
    assert Put(map[], "interim_assistant_messages", ON) == INTERIM.fields;
    assert Interim(None) == Set(INTERIM);
    assert Put(map[], "display", INTERIM) == map[Str("display") := INTERIM];
  }

  /** The default step 15 writes down is left out again, so the step always writes; what loads stays the same. */
  lemma DroppedDefaultIsWrittenAgain(env: Env, rule: Table -> Rule)
    requires Ships(env) && Strips(env, rule)
    requires forall was, path :: !rule(was).keep(path)
    requires forall was :: rule(was).drops(ON)
    ensures Take(env, To15, State(map[], map[])) == Some(State(map[], map[]))
    ensures Persists(env, To15, map[])
  {
    var file: Table := map[Str("display") := INTERIM];
    assert "display" in SECTIONS - {"plugins"};
    InterimIsStripped(rule(map[]), Group(env, "display"));
    InterimOnEmptyFile(env);
    assert StripTable(rule(map[]), env.defaults, file) == map[];
    assert env.persist(map[], file) == map[];
  }

  /** Writing down one default of a section changes nothing that loads. */
  lemma BaseLoads(local: Table)
    requires Lookup(local, "model") == Some(Text1("base"))
    ensures Loaded(Some(Dict(local)), Dict(map[Str("model") := Text1("base")])) == Dict(local)
  {
    NothingLoadsDefaults(local);
    SetSameAlike(local, map[], Str("model"), Text1("base"));
    LoadedDict(local, map[Str("model") := Text1("base")]);
    assert (map[])[Str("model") := Text1("base")] == map[Str("model") := Text1("base")];
  }

  lemma WrittenBaseAlike(stt: Table, tiny: Yaml)
    requires ShipsStt(stt)
    ensures Alike(Some(Dict(stt)),
                  Some(Dict(map[Str("model") := tiny, Str("local") := Dict(map[Str("model") := Text1("base")])])),
                  Some(Dict(map[Str("model") := tiny])))
  {
    var base, left := Dict(map[Str("model") := Text1("base")]), map[Str("model") := tiny];
    var written := map[Str("model") := tiny, Str("local") := base];
    BaseLoads(AsTable(Lookup(stt, "local")));
    assert written == left[Str("local") := base];
    SetSameAlike(stt, left, Str("local"), base);
    TablesDecide(stt, Some(Dict(written)), Some(Dict(left)));
  }

  lemma TinyGoesToLocal(section: Option<Yaml>)
    requires section.Some? && HasModel(section.value) && Str("provider") !in section.value.fields
    requires section.value.fields[Str("model")] == Text1("tiny")
    ensures Target(section) == Some(Str("local"))
  {
  }

  /** Leaving out the model the user wrote down because it is the default makes step 14 put the flat one there. */
  lemma WrittenDefaultDecides(env: Env)
    requires Ships(env)
    ensures var tiny := Text1("tiny");
            var base := Dict(map[Str("model") := Text1("base")]);
            var written := Some(Dict(map[Str("model") := tiny, Str("local") := base]));
            var left := Some(Dict(map[Str("model") := tiny]));
            && Alike(Default(env, "stt"), written, left)
            && !ChangesAlike(Default(env, "stt"), written, Stt(written), left, Stt(left))
  {
    var d, base := Default(env, "stt"), Dict(map[Str("model") := Text1("base")]);
    var written := Some(Dict(map[Str("model") := Text1("tiny"), Str("local") := base]));
    var left := Some(Dict(map[Str("model") := Text1("tiny")]));
    assert "stt" in SECTIONS - {"plugins"};
    WrittenBaseAlike(Group(env, "stt"), Text1("tiny"));
    TinyGoesToLocal(written);
    assert OwnModel(written, Str("local")) && !OwnModel(left, Str("local"));
    assert ModelDefault(d, Str("local")) == Some(Text1("base"));
    SttAlikeIff(d, written, left);
  }

  lemma WrittenLanguageAlike(stt: Table, left: Table)
    requires ShipsStt(stt) && Str("language") !in left
    ensures Alike(Some(Dict(stt)), Some(Dict(left)), Some(Dict(left[Str("language") := Text1("en")])))
  {
    SetSameAlike(stt, left, Str("language"), Text1("en"));
    TablesDecide(stt, Some(Dict(left)), Some(Dict(left[Str("language") := Text1("en")])));
  }

  lemma ModelUnderLanguage(section: Table)
    requires Str("model") in section && Lookup(section, "provider") == Some(Text1("language"))
    ensures Str("language") !in section ==> Stt(Some(Dict(section))).Set?
    ensures Lookup(section, "language") == Some(Text1("en")) ==> Stt(Some(Dict(section))).Raise?
  {
    assert Target(Some(Dict(section))) == Some(Str("language"));
    PlacesIs(Some(Dict(section)), Str("language"));
  }

  /** With the provider named like a setting that is no section, step 14 adds a section where the setting is left out
      and raises where it is written down. */
  lemma WrittenLeafRaises(env: Env)
    requires Ships(env)
    ensures var left := map[Str("provider") := Text1("language"), Str("model") := Text1("m")];
            var written := left[Str("language") := Text1("en")];
            && Alike(Default(env, "stt"), Some(Dict(left)), Some(Dict(written)))
            && Stt(Some(Dict(left))).Set? && Stt(Some(Dict(written))).Raise?
  {
    var left := map[Str("provider") := Text1("language"), Str("model") := Text1("m")];
    assert "stt" in SECTIONS - {"plugins"};
    WrittenLanguageAlike(Group(env, "stt"), left);
    ModelUnderLanguage(left);
    ModelUnderLanguage(left[Str("language") := Text1("en")]);
  }
}
