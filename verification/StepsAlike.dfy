/** The steps of the ladder do the same to files that load alike.

    A step reads the raw file, so it can tell a default that is written down from one that is not. Except for step 14
    this makes no difference to what its result loads as, given a few facts about the schema defaults; for step 14 it
    is said when it does. */
module StepsAlike {
  import opened Collections
  import opened ConfigLoad
  import opened ConfigSteps
  import opened ProviderKeys
  import Text

  // ----- The facts about the schema -----

  function Default(env: Env, name: string): Option<Yaml> {
    Lookup(env.defaults, name)
  }

  function Group(env: Env, name: string): Table {
    AsTable(Default(env, name))
  }

  const SECTIONS: set<string> := {
    "providers", "stt", "display", "compression", "auxiliary", "plugins", "curator", "model_catalog", "memory",
    "skills", "agent", "delegation"}

  predicate Blank(y: Option<Yaml>, orAuto: bool) {
    y.None? || Falsy(y.value) || (orAuto && y.value == Text1("auto"))
  }

  /** A platform's defaults say nothing about tool progress. */
  predicate PlatformsOk(platforms: Table) {
    forall p | p in platforms :: platforms[p].Dict? && Str("tool_progress") !in platforms[p].fields
  }

  predicate SlotOk(slot: Table) {
    && Blank(Lookup(slot, "model"), false)
    && Blank(Lookup(slot, "provider"), true)
    && Blank(Lookup(slot, "base_url"), false)
  }

  predicate SeedOk(seeds: Table, d: Option<Yaml>) {
    TableDefault(d) && forall k | k in seeds && k in AsTable(d) :: AsTable(d)[k] == seeds[k]
  }

  predicate VerifyOk(y: Option<Yaml>) {
    y.None? || y.value == Leaf(Null) || IsWord(y.value, "auto") || y.value == Leaf(Bool(false))
  }

  predicate SttOk(stt: Table) {
    Str("model") !in stt && Lookup(stt, "provider") != Some(Text1("model"))
  }

  predicate DisplayOk(display: Table) {
    && Lookup(display, "interim_assistant_messages") in {None, Some(Leaf(Bool(true)))}
    && Str("tool_progress_overrides") !in display
    && TableDefault(Lookup(display, "platforms")) && PlatformsOk(AsTable(Lookup(display, "platforms")))
  }

  predicate AuxiliaryOk(aux: Table, seeds: Table) {
    && TableDefault(Lookup(aux, "compression")) && SlotOk(AsTable(Lookup(aux, "compression")))
    && SeedOk(seeds, Lookup(aux, "curator"))
  }

  predicate PluginsOk(plugins: Table) {
    Str("enabled") !in plugins && Str("disabled") !in plugins
  }

  predicate DelegationOk(env: Env, delegation: Table) {
    Str("max_async_children") !in delegation && Children(env, delegation) == 3
  }

  /** The schema knows none of the legacy keys, and where a step tests for a missing value its default counts as one. */
  predicate SchemaOk(env: Env) {
    && (forall name | name in SECTIONS :: TableDefault(Default(env, name)))
    && Default(env, "custom_providers") == None && Group(env, "providers") == map[]
    && SttOk(Group(env, "stt")) && DisplayOk(Group(env, "display"))
    && (forall k | k in SUMMARY_KEYS :: k !in Group(env, "compression"))
    && AuxiliaryOk(Group(env, "auxiliary"), env.auxCurator) && PluginsOk(Group(env, "plugins"))
    && SeedOk(env.curator, Default(env, "curator"))
    && Lookup(Group(env, "model_catalog"), "ttl_hours") != Some(Leaf(Num(24.0)))
    && Str("write_mode") !in Group(env, "memory") && Str("write_mode") !in Group(env, "skills")
    && VerifyOk(Lookup(Group(env, "agent"), "verify_on_stop"))
    && DelegationOk(env, Group(env, "delegation"))
  }

  /** The empty schema, under which a file loads as it is written, qualifies. */
  lemma NoSchemaIsOk(env: Env)
    requires env.defaults == map[]
    ensures SchemaOk(env)
  {
  }

  // ----- Changes to one section -----

  function After(x: Option<Yaml>, change: Change): Option<Yaml> {
    if change.Set? then Some(change.value) else x
  }

  ghost predicate ChangesAlike(d: Option<Yaml>, x: Option<Yaml>, change: Change, y: Option<Yaml>, change': Change) {
    && (change.Raise? <==> change'.Raise?)
    && Alike(d, After(x, change), After(y, change'))
  }

  lemma ApplyAlike(g: Table, c: Table, c': Table, name: string, change: Change, change': Change)
    requires AlikeTables(g, c, c')
    requires ChangesAlike(Lookup(g, name), Lookup(c, name), change, Lookup(c', name), change')
    ensures Apply(c, name, change).Some? <==> Apply(c', name, change').Some?
    ensures Apply(c, name, change).Some? ==>
              AlikeTables(g, Apply(c, name, change).value, Apply(c', name, change').value)
  {
    if !change.Raise? {
      var d, d' := Apply(c, name, change).value, Apply(c', name, change').value;
      forall k
        ensures Alike(Find(g, k), Find(d, k), Find(d', k))
      {
        if k != Str(name) {
          AlikeAt(g, c, c', k);
        }
      }
      AlikeEverywhere(g, d, d');
    }
  }

  /** Both files write a value under the same key of one section. */
  lemma PutBoth(g: Table, f: Table, f': Table, key: string, v: Yaml, v': Yaml)
    requires AlikeTables(g, f, f') && Loaded(Lookup(g, key), v) == Loaded(Lookup(g, key), v')
    ensures Alike(Some(Dict(g)), Some(Dict(Put(f, key, v))), Some(Dict(Put(f', key, v'))))
  {
    SetAlike(g, f, f', Str(key), v, v');
    AlikeFromTables(g, Some(Dict(Put(f, key, v))), Some(Dict(Put(f', key, v'))));
  }

  /** One file already says what the other writes. */
  lemma PutOne(g: Table, x: Option<Yaml>, y: Option<Yaml>, key: string, v: Yaml)
    requires TableOrMissing(x) && TableOrMissing(y) && AlikeTables(g, AsTable(x), AsTable(y))
    requires LoadSection(Lookup(g, key), Lookup(AsTable(x), key)) == Some(Loaded(Lookup(g, key), v))
    ensures Alike(Some(Dict(g)), x, Some(Dict(Put(AsTable(y), key, v))))
  {
    SetSameAlike(g, AsTable(x), Str(key), v);
    SetAlike(g, AsTable(x), AsTable(y), Str(key), v, v);
    AlikeFromTables(g, x, Some(Dict(Put(AsTable(y), key, v))));
  }

  // ----- The steps with one section -----

  lemma InterimAlike(d: Option<Yaml>, x: Option<Yaml>, y: Option<Yaml>)
    requires TableDefault(d) && Alike(d, x, y) && DisplayOk(AsTable(d))
    ensures ChangesAlike(d, x, Interim(x), y, Interim(y))
  {
    AlikeSections(d, x, y);
    if x != y {
      var g, key, on := d.value.fields, "interim_assistant_messages", Leaf(Bool(true));
      var f, f' := AsTable(x), AsTable(y);
      AlikeAt(g, f, f', Str(key));
      if Str(key) in f && Str(key) !in f' {
        PutOne(g, x, y, key, on);
      } else if Str(key) !in f && Str(key) in f' {
        PutOne(g, y, x, key, on);
      } else if Str(key) !in f {
        PutBoth(g, f, f', key, on, on);
      }
    }
  }

  lemma TtlAlike(d: Option<Yaml>, x: Option<Yaml>, y: Option<Yaml>)
    requires TableDefault(d) && Alike(d, x, y)
    requires Lookup(AsTable(d), "ttl_hours") != Some(Leaf(Num(24.0)))
    ensures ChangesAlike(d, x, Ttl(x), y, Ttl(y))
  {
    AlikeSections(d, x, y);
    if x != y {
      var g, f, f' := d.value.fields, AsTable(x), AsTable(y);
      AlikeAt(g, f, f', Str("ttl_hours"));
      LeafSeen(Lookup(g, "ttl_hours"), Lookup(f, "ttl_hours"), Lookup(f', "ttl_hours"), Leaf(Num(24.0)));
      if Ttl(x).Set? {
        PutBoth(g, f, f', "ttl_hours", Leaf(Num(1.0)), Leaf(Num(1.0)));
      }
    }
  }

  /** A leaf that is not the default cannot be hidden. */
  lemma LeafSeen(d: Option<Yaml>, x: Option<Yaml>, y: Option<Yaml>, leaf: Yaml)
    requires Alike(d, x, y) && leaf.Leaf? && d != Some(leaf)
    ensures x == Some(leaf) <==> y == Some(leaf)
  {
  }

  lemma WriteApprovalAlike(d: Option<Yaml>, x: Option<Yaml>, y: Option<Yaml>)
    requires TableDefault(d) && Alike(d, x, y) && Str("write_mode") !in AsTable(d)
    ensures ChangesAlike(d, x, WriteApproval(x), y, WriteApproval(y))
  {
    AlikeSections(d, x, y);
    if x != y {
      var g, f, f' := d.value.fields, AsTable(x), AsTable(y);
      UnknownKeyAlike(g, f, f', Str("write_mode"));
      if WriteApproval(x).Set? {
        RemoveAlike(g, f, f', {Str("write_mode")});
        var v := Leaf(Bool(IsWord(Lookup(f, "write_mode").value, "approve")));
        PutBoth(g, Drop(f, "write_mode"), Drop(f', "write_mode"), "write_approval", v, v);
      }
    }
  }

  predicate Noncommittal(y: Option<Yaml>) {
    y.None? || y.value == Leaf(Null) || IsWord(y.value, "auto")
  }

  /** Where one file commits to nothing and the other to something, the latter writes down a default of false. */
  lemma CommittedIsFalse(d: Option<Yaml>, x: Option<Yaml>, y: Option<Yaml>)
    requires Alike(d, x, y) && VerifyOk(d) && Noncommittal(x) && !Noncommittal(y)
    ensures y == Some(Leaf(Bool(false)))
  {
    if x.None? {
      assert d.Some? && d.value.Leaf? && y == d;
    }
  }

  lemma VerifyOffAlike(d: Option<Yaml>, x: Option<Yaml>, y: Option<Yaml>)
    requires TableDefault(d) && Alike(d, x, y) && VerifyOk(Lookup(AsTable(d), "verify_on_stop"))
    ensures ChangesAlike(d, x, VerifyOff(x), y, VerifyOff(y))
  {
    AlikeSections(d, x, y);
    if x != y {
      var g, f, f', off := d.value.fields, AsTable(x), AsTable(y), Leaf(Bool(false));
      var e, a, b := Lookup(g, "verify_on_stop"), Lookup(f, "verify_on_stop"), Lookup(f', "verify_on_stop");
      AlikeAt(g, f, f', Str("verify_on_stop"));
      assert VerifyOff(x).Set? == Noncommittal(a) && VerifyOff(y).Set? == Noncommittal(b);
      if Noncommittal(a) && Noncommittal(b) {
        PutBoth(g, f, f', "verify_on_stop", off, off);
      } else if Noncommittal(a) {
        CommittedIsFalse(e, a, b);
        PutOne(g, y, x, "verify_on_stop", off);
      } else if Noncommittal(b) {
        CommittedIsFalse(e, b, a);
        PutOne(g, x, y, "verify_on_stop", off);
      }
    }
  }

  lemma VerifyBakedAlike(d: Option<Yaml>, x: Option<Yaml>, y: Option<Yaml>)
    requires TableDefault(d) && Alike(d, x, y) && VerifyOk(Lookup(AsTable(d), "verify_on_stop"))
    ensures ChangesAlike(d, x, VerifyBaked(x), y, VerifyBaked(y))
  {
    AlikeSections(d, x, y);
    if x != y {
      var g, f, f', off := d.value.fields, AsTable(x), AsTable(y), Leaf(Bool(false));
      var e, a, b := Lookup(g, "verify_on_stop"), Lookup(f, "verify_on_stop"), Lookup(f', "verify_on_stop");
      AlikeAt(g, f, f', Str("verify_on_stop"));
      LeafSeen(e, a, b, Leaf(Bool(true)));
      if VerifyBaked(x).Set? {
        PutBoth(g, f, f', "verify_on_stop", off, off);
      }
    }
  }

  lemma ChildrenAlike(env: Env, g: Table, f: Table, f': Table)
    requires AlikeTables(g, f, f') && Children(env, g) == 3
    ensures Children(env, f) == Children(env, f')
  {
    AlikeAt(g, f, f', Str("max_concurrent_children"));
  }

  lemma DelegationAlike(env: Env, d: Option<Yaml>, x: Option<Yaml>, y: Option<Yaml>)
    requires TableDefault(d) && Alike(d, x, y) && DelegationOk(env, AsTable(d))
    ensures ChangesAlike(d, x, Delegation(env, x), y, Delegation(env, y))
  {
    AlikeSections(d, x, y);
    if x != y {
      var g, f, f' := d.value.fields, AsTable(x), AsTable(y);
      UnknownKeyAlike(g, f, f', Str("max_async_children"));
      if Delegation(env, x).Set? {
        var t, t' := Drop(f, "max_async_children"), Drop(f', "max_async_children");
        RemoveAlike(g, f, f', {Str("max_async_children")});
        ChildrenAlike(env, g, t, t');
        AlikeFromTables(g, Some(Dict(t)), Some(Dict(t')));
        var n := Int(env, Lookup(f, "max_async_children").value);
        if n.Some? {
          var v := Leaf(Num(n.value as real));
          PutBoth(g, t, t', "max_concurrent_children", v, v);
        }
      }
    }
  }

  lemma PluginsAlike(env: Env, d: Option<Yaml>, x: Option<Yaml>, y: Option<Yaml>)
    requires TableDefault(d) && Alike(d, x, y) && PluginsOk(AsTable(d))
    ensures ChangesAlike(d, x, Plugins(env, x), y, Plugins(env, y))
  {
    AlikeSections(d, x, y);
    if x != y {
      var g, f, f' := d.value.fields, AsTable(x), AsTable(y);
      UnknownKeyAlike(g, f, f', Str("enabled"));
      UnknownKeyAlike(g, f, f', Str("disabled"));
      assert Disabled(f) == Disabled(f');
      if Plugins(env, x).Set? {
        var v := List(Grandfathered(env.installed, Disabled(f)));
        PutBoth(g, f, f', "enabled", v, v);
      }
    }
  }

  // ----- Step 16 -----

  /** One platform of two alike sections. */
  lemma PlatformAlike(g: Table, p: Table, p': Table, plat: Scalar, mode: Yaml)
    requires AlikeTables(g, p, p') && PlatformsOk(g)
    ensures PlatformEntry(p, plat, mode).Some? <==> PlatformEntry(p', plat, mode).Some?
    ensures PlatformEntry(p, plat, mode).Some? ==>
              Loaded(Find(g, plat), PlatformEntry(p, plat, mode).value) ==
              Loaded(Find(g, plat), PlatformEntry(p', plat, mode).value)
  {
    var d, x, y := Find(g, plat), Find(p, plat), Find(p', plat);
    AlikeAt(g, p, p', plat);
    AlikeSections(d, x, y);
    if x != y {
      var h, f, f' := d.value.fields, AsTable(x), AsTable(y);
      UnknownKeyAlike(h, f, f', Str("tool_progress"));
      assert Put(map[], "tool_progress", mode) == map[Str("tool_progress") := mode];
      PutBoth(h, f, f', "tool_progress", mode, mode);
      assert Alike(Some(Dict(h)), x, y);
    }
  }

  lemma MergeAlike(g: Table, p: Table, p': Table, overrides: Table)
    requires AlikeTables(g, p, p') && PlatformsOk(g)
    ensures Mergeable(p, overrides) <==> Mergeable(p', overrides)
    ensures Mergeable(p, overrides) ==> AlikeTables(g, MergePlatforms(p, overrides), MergePlatforms(p', overrides))
  {
    forall plat | plat in overrides
      ensures PlatformEntry(p, plat, overrides[plat]).Some? <==> PlatformEntry(p', plat, overrides[plat]).Some?
    {
      PlatformAlike(g, p, p', plat, overrides[plat]);
    }
    if Mergeable(p, overrides) {
      var m, m' := MergePlatforms(p, overrides), MergePlatforms(p', overrides);
      forall k
        ensures Alike(Find(g, k), Find(m, k), Find(m', k))
      {
        if k in overrides {
          PlatformAlike(g, p, p', k, overrides[k]);
          assert PlatformEntry(p, k, overrides[k]).Some?;
        } else {
          AlikeAt(g, p, p', k);
        }
      }
      AlikeEverywhere(g, m, m');
    }
  }

  lemma OverridesAlike(d: Option<Yaml>, x: Option<Yaml>, y: Option<Yaml>)
    requires TableDefault(d) && Alike(d, x, y) && DisplayOk(AsTable(d))
    ensures ChangesAlike(d, x, Overrides(x), y, Overrides(y))
  {
    AlikeSections(d, x, y);
    if x != y {
      var g, f, f' := d.value.fields, AsTable(x), AsTable(y);
      UnknownKeyAlike(g, f, f', Str("tool_progress_overrides"));
      var overrides := AsTable(Lookup(f, "tool_progress_overrides"));
      var dp, xp, yp := Lookup(g, "platforms"), Lookup(f, "platforms"), Lookup(f', "platforms");
      AlikeAt(g, f, f', Str("platforms"));
      AlikeSections(dp, xp, yp);
      if xp == yp {
        if Overrides(x).Set? {
          var v := Dict(MergePlatforms(AsTable(xp), overrides));
          PutBoth(g, f, f', "platforms", v, v);
        }
      } else {
        var gp := dp.value.fields;
        MergeAlike(gp, AsTable(xp), AsTable(yp), overrides);
        if Overrides(x).Set? {
          var m, m' := MergePlatforms(AsTable(xp), overrides), MergePlatforms(AsTable(yp), overrides);
          LoadedDict(gp, m);
          LoadedDict(gp, m');
          PutBoth(g, f, f', "platforms", Dict(m), Dict(m'));
        }
      }
    }
  }

  // ----- Step 17 -----

  lemma FoldKeyAlike(g: Table, slot: Table, slot': Table, key: string, text: Option<string>, overAuto: bool)
    requires AlikeTables(g, slot, slot') && Blank(Lookup(g, key), overAuto)
    ensures AlikeTables(g, FoldKey(slot, key, text, overAuto), FoldKey(slot', key, text, overAuto))
  {
    AlikeAt(g, slot, slot', Str(key));
    BlankAlike(Lookup(g, key), Lookup(slot, key), Lookup(slot', key), overAuto);
    if text.Some? && Blank(Lookup(slot, key), overAuto) {
      SetAlike(g, slot, slot', Str(key), Text1(text.value), Text1(text.value));
    }
  }

  lemma BlankAlike(d: Option<Yaml>, x: Option<Yaml>, y: Option<Yaml>, orAuto: bool)
    requires Alike(d, x, y) && Blank(d, orAuto)
    ensures Blank(x, orAuto) <==> Blank(y, orAuto)
  {
    if d.Some? && d.value.Dict? {
      AlikeSections(d, x, y);
      NoDefaults(AsTable(x));
      NoDefaults(AsTable(y));
    }
  }

  lemma AuxFoldAlike(d: Option<Yaml>, x: Option<Yaml>, y: Option<Yaml>,
                     model: Option<string>, provider: Option<string>, url: Option<string>)
    requires TableDefault(d) && Alike(d, x, y) && TableDefault(Lookup(AsTable(d), "compression"))
    requires SlotOk(AsTable(Lookup(AsTable(d), "compression")))
    ensures ChangesAlike(d, x, AuxFold(x, model, provider, url), y, AuxFold(y, model, provider, url))
  {
    AlikeSections(d, x, y);
    if x != y && !(model.None? && provider.None? && url.None?) {
      var g, f, f' := d.value.fields, AsTable(x), AsTable(y);
      var dc, xc, yc := Lookup(g, "compression"), Lookup(f, "compression"), Lookup(f', "compression");
      AlikeAt(g, f, f', Str("compression"));
      AlikeSections(dc, xc, yc);
      if xc == yc {
        if TableOrMissing(xc) {
          var v := Dict(FoldSlot(AsTable(xc), model, provider, url));
          PutBoth(g, f, f', "compression", v, v);
        }
      } else {
        var gc := dc.value.fields;
        FoldSlotAlike(gc, AsTable(xc), AsTable(yc), model, provider, url);
        var v, v' := FoldSlot(AsTable(xc), model, provider, url), FoldSlot(AsTable(yc), model, provider, url);
        LoadedDict(gc, v);
        LoadedDict(gc, v');
        PutBoth(g, f, f', "compression", Dict(v), Dict(v'));
      }
    }
  }

  lemma FoldSlotAlike(g: Table, slot: Table, slot': Table,
                      model: Option<string>, provider: Option<string>, url: Option<string>)
    requires AlikeTables(g, slot, slot') && SlotOk(g)
    ensures AlikeTables(g, FoldSlot(slot, model, provider, url), FoldSlot(slot', model, provider, url))
  {
    FoldKeyAlike(g, slot, slot', "model", model, false);
    var a, a' := FoldKey(slot, "model", model, false), FoldKey(slot', "model", model, false);
    FoldKeyAlike(g, a, a', "provider", provider, true);
    FoldKeyAlike(g, FoldKey(a, "provider", provider, true), FoldKey(a', "provider", provider, true), "base_url", url,
                 false);
  }

  lemma Step17Alike(env: Env, c: Table, c': Table)
    requires SchemaOk(env) && AlikeTables(env.defaults, c, c')
    ensures Step17(env, c).Some? <==> Step17(env, c').Some?
    ensures Step17(env, c).Some? ==> AlikeTables(env.defaults, Step17(env, c).value, Step17(env, c').value)
  {
    var dc, dx, dy := Default(env, "compression"), Lookup(c, "compression"), Lookup(c', "compression");
    AlikeAt(env.defaults, c, c', Str("compression"));
    AlikeAt(env.defaults, c, c', Str("auxiliary"));
    AlikeSections(dc, dx, dy);
    var comp, comp' := AsTable(dx), AsTable(dy);
    if dx != dy {
      forall k | k in SUMMARY_KEYS
        ensures Find(comp, k) == Find(comp', k)
      {
        UnknownKeyAlike(dc.value.fields, comp, comp', k);
      }
    }
    SummaryAlike(comp, comp');
    if HasSummary(comp) {
      var model := Legacy(env, Lookup(comp, "summary_model"), {});
      var provider := Legacy(env, Lookup(comp, "summary_provider"), {"auto"});
      var url := Legacy(env, Lookup(comp, "summary_base_url"), {});
      var fold := AuxFold(Lookup(c, "auxiliary"), model, provider, url);
      var fold' := AuxFold(Lookup(c', "auxiliary"), model, provider, url);
      AuxFoldAlike(Default(env, "auxiliary"), Lookup(c, "auxiliary"), Lookup(c', "auxiliary"), model, provider, url);
      ApplyAlike(env.defaults, c, c', "auxiliary", fold, fold');
      if !fold.Raise? {
        RestAlike(dc, dx, dy);
        SetAlike(env.defaults, Apply(c, "auxiliary", fold).value, Apply(c', "auxiliary", fold').value,
                 Str("compression"), Dict(comp - SUMMARY_KEYS), Dict(comp' - SUMMARY_KEYS));
      }
    }
  }

  lemma SummaryAlike(comp: Table, comp': Table)
    requires forall k | k in SUMMARY_KEYS :: Find(comp, k) == Find(comp', k)
    ensures HasSummary(comp) <==> HasSummary(comp')
    ensures Lookup(comp, "summary_model") == Lookup(comp', "summary_model")
    ensures Lookup(comp, "summary_provider") == Lookup(comp', "summary_provider")
    ensures Lookup(comp, "summary_base_url") == Lookup(comp', "summary_base_url")
  {
    assert Find(comp, Str("summary_model")) == Find(comp', Str("summary_model"));
    assert Find(comp, Str("summary_provider")) == Find(comp', Str("summary_provider"));
    assert Find(comp, Str("summary_base_url")) == Find(comp', Str("summary_base_url"));
  }

  /** What is left of two alike sections without the legacy keys. */
  lemma RestAlike(d: Option<Yaml>, x: Option<Yaml>, y: Option<Yaml>)
    requires TableDefault(d) && Alike(d, x, y)
    ensures Loaded(d, Dict(AsTable(x) - SUMMARY_KEYS)) == Loaded(d, Dict(AsTable(y) - SUMMARY_KEYS))
  {
    AlikeSections(d, x, y);
    if x != y {
      RemoveAlike(d.value.fields, AsTable(x), AsTable(y), SUMMARY_KEYS);
      LoadedDict(d.value.fields, AsTable(x) - SUMMARY_KEYS);
      LoadedDict(d.value.fields, AsTable(y) - SUMMARY_KEYS);
    }
  }

  // ----- Step 23 -----

  /** Seeding adds to what loads exactly the seeds that do not load already. */
  lemma SeededLoads(seeds: Table, g: Table, t: Table)
    requires SeedOk(seeds, Some(Dict(g)))
    ensures LoadTable(g, seeds + t) == seeds + LoadTable(g, t)
  {
    forall k
      ensures Find(LoadTable(g, seeds + t), k) == Find(seeds + LoadTable(g, t), k)
    {
      LoadAt(g, seeds + t, k);
      LoadAt(g, t, k);
      if k in seeds && k !in t && k in g {
        DefaultLoadsAsItself(g[k]);
      }
    }
    SameFinds(LoadTable(g, seeds + t), seeds + LoadTable(g, t));
  }

  lemma SeedAlike(seeds: Table, d: Option<Yaml>, x: Option<Yaml>, y: Option<Yaml>)
    requires SeedOk(seeds, d) && Alike(d, x, y)
    ensures ChangesAlike(d, x, Seed(seeds, x), y, Seed(seeds, y))
  {
    AlikeSections(d, x, y);
    if x != y {
      var g := d.value.fields;
      SeedLoads(seeds, g, x);
      SeedLoads(seeds, g, y);
    }
  }

  lemma SeedLoads(seeds: Table, g: Table, x: Option<Yaml>)
    requires SeedOk(seeds, Some(Dict(g))) && TableOrMissing(x)
    ensures LoadSection(Some(Dict(g)), After(x, Seed(seeds, x))) == Some(Dict(seeds + LoadTable(g, AsTable(x))))
  {
    var t := AsTable(x);
    SeededLoads(seeds, g, t);
    SectionLoads(g, After(x, Seed(seeds, x)));
    if Seed(seeds, x).Keep? {
      assert seeds + t == t;
    }
  }

  lemma SeedAuxAlike(seeds: Table, d: Option<Yaml>, x: Option<Yaml>, y: Option<Yaml>)
    requires TableDefault(d) && SeedOk(seeds, Lookup(AsTable(d), "curator")) && Alike(d, x, y)
    ensures ChangesAlike(d, x, SeedAux(seeds, x), y, SeedAux(seeds, y))
  {
    AlikeSections(d, x, y);
    if x != y {
      var g, f, f' := d.value.fields, AsTable(x), AsTable(y);
      var dc, xc, yc := Lookup(g, "curator"), Lookup(f, "curator"), Lookup(f', "curator");
      AlikeAt(g, f, f', Str("curator"));
      SeedAlike(seeds, dc, xc, yc);
      var a, b := Seed(seeds, xc), Seed(seeds, yc);
      if a.Set? && b.Set? {
        PutBoth(g, f, f', "curator", a.value, b.value);
      } else if a.Set? {
        KeptIsSaid(g, f', "curator", yc, dc, a.value);
        PutOne(g, y, x, "curator", a.value);
      } else if b.Set? {
        KeptIsSaid(g, f, "curator", xc, dc, b.value);
        PutOne(g, x, y, "curator", b.value);
      }
    }
  }

  lemma KeptIsSaid(g: Table, f: Table, key: string, x: Option<Yaml>, d: Option<Yaml>, v: Yaml)
    requires x == Lookup(f, key) && d == Lookup(g, key) && Alike(d, x, Some(v))
    ensures LoadSection(Lookup(g, key), Lookup(f, key)) == Some(Loaded(Lookup(g, key), v))
  {
  }

  lemma Step23Alike(env: Env, c: Table, c': Table)
    requires SchemaOk(env) && AlikeTables(env.defaults, c, c')
    ensures Step23(env, c).Some? <==> Step23(env, c').Some?
    ensures Step23(env, c).Some? ==> AlikeTables(env.defaults, Step23(env, c).value, Step23(env, c').value)
  {
    var a, a' := Seed(env.curator, Lookup(c, "curator")), Seed(env.curator, Lookup(c', "curator"));
    AlikeAt(env.defaults, c, c', Str("curator"));
    SeedAlike(env.curator, Default(env, "curator"), Lookup(c, "curator"), Lookup(c', "curator"));
    ApplyAlike(env.defaults, c, c', "curator", a, a');
    var e, e' := Apply(c, "curator", a).value, Apply(c', "curator", a').value;
    AlikeAt(env.defaults, e, e', Str("auxiliary"));
    SeedAuxAlike(env.auxCurator, Default(env, "auxiliary"), Lookup(e, "auxiliary"), Lookup(e', "auxiliary"));
    ApplyAlike(env.defaults, e, e', "auxiliary", SeedAux(env.auxCurator, Lookup(e, "auxiliary")),
               SeedAux(env.auxCurator, Lookup(e', "auxiliary")));
  }

  // ----- Steps 12 and 29 -----

  /** The two sections of step 12, with its result spelled out from them. */
  function Moved(env: Env, legacy: Option<Yaml>, providers: Table): Option<Providers> {
    match legacy
    case Some(List(entries)) => AddEntries(env, Providers(providers, 0), entries)
    case _ => Some(Providers(providers, 0))
  }

  lemma Step12Is(env: Env, c: Table)
    ensures var p := Moved(env, Lookup(c, "custom_providers"), AsTable(Lookup(c, "providers")));
            && (Step12(env, c).Some? <==> p.Some?)
            && (p.Some? ==> Step12(env, c).value == if p.value.count == 0 then c
                            else Drop(Put(c, "providers", Dict(p.value.table)), "custom_providers"))
  {
  }

  lemma Step12Alike(env: Env, c: Table, c': Table)
    requires SchemaOk(env) && AlikeTables(env.defaults, c, c')
    ensures Step12(env, c).Some? <==> Step12(env, c').Some?
    ensures Step12(env, c).Some? ==> AlikeTables(env.defaults, Step12(env, c).value, Step12(env, c').value)
  {
    ProvidersAlike(env, c, c');
    Step12Is(env, c);
    Step12Is(env, c');
    var p := Moved(env, Lookup(c, "custom_providers"), AsTable(Lookup(c, "providers")));
    if p.Some? && p.value.count > 0 {
      var v := Dict(p.value.table);
      SetAlike(env.defaults, c, c', Str("providers"), v, v);
      RemoveAlike(env.defaults, Put(c, "providers", v), Put(c', "providers", v), {Str("custom_providers")});
    }
  }

  lemma ProvidersAlike(env: Env, c: Table, c': Table)
    requires SchemaOk(env) && AlikeTables(env.defaults, c, c')
    ensures Lookup(c, "custom_providers") == Lookup(c', "custom_providers")
    ensures AsTable(Lookup(c, "providers")) == AsTable(Lookup(c', "providers"))
  {
    var d, x, y := Default(env, "providers"), Lookup(c, "providers"), Lookup(c', "providers");
    AlikeAt(env.defaults, c, c', Str("custom_providers"));
    AlikeAt(env.defaults, c, c', Str("providers"));
    assert "providers" in SECTIONS;
    AlikeSections(d, x, y);
    NoDefaults(AsTable(x));
    NoDefaults(AsTable(y));
  }

  lemma Step29Alike(env: Env, c: Table, c': Table)
    requires SchemaOk(env) && AlikeTables(env.defaults, c, c')
    ensures Step29(c).Some? <==> Step29(c').Some?
    ensures Step29(c).Some? ==> AlikeTables(env.defaults, Step29(c).value, Step29(c').value)
  {
    var a, a' := WriteApproval(Lookup(c, "memory")), WriteApproval(Lookup(c', "memory"));
    AlikeAt(env.defaults, c, c', Str("memory"));
    WriteApprovalAlike(Default(env, "memory"), Lookup(c, "memory"), Lookup(c', "memory"));
    ApplyAlike(env.defaults, c, c', "memory", a, a');
    var e, e' := Apply(c, "memory", a).value, Apply(c', "memory", a').value;
    AlikeAt(env.defaults, e, e', Str("skills"));
    WriteApprovalAlike(Default(env, "skills"), Lookup(e, "skills"), Lookup(e', "skills"));
    ApplyAlike(env.defaults, e, e', "skills", WriteApproval(Lookup(e, "skills")), WriteApproval(Lookup(e', "skills")));
  }

  // ----- Step 14 -----

  /** Where step 14 moves the flat model, unless there is a model already; nowhere if it drops it, raises, finds none,
      or puts it back under the flat key. */
  function Target(section: Option<Yaml>): Option<Scalar> {
    if section.None? || !HasModel(section.value) then None
    else
      var legacy := section.value.fields[Str("model")];
      match SttProvider(section.value.fields)
      case Leaf(provider) =>
        if provider in {Str("local"), Str("local_command")} then
          if legacy.Leaf? && legacy.v in LOCAL_MODELS then Some(Str("local")) else None
        else if provider == Str("model") then None
        else Some(provider)
      case _ => None
  }

  predicate OwnModel(section: Option<Yaml>, target: Scalar) {
    target in AsTable(section) && HasModel(AsTable(section)[target])
  }

  function ModelDefault(d: Option<Yaml>, target: Scalar): Option<Yaml> {
    Lookup(AsTable(Find(AsTable(d), target)), "model")
  }

  function Placed(f: Table, target: Scalar, legacy: Yaml): Table {
    Drop(f, "model")[target := Dict(Put(AsTable(Find(f, target)), "model", legacy))]
  }

  /** What becomes of the section's table; None when the step raises. */
  function PlaceTable(f: Table, target: Scalar): Option<Table>
    requires Str("model") in f
  {
    if OwnModel(Some(Dict(f)), target) then Some(Drop(f, "model"))
    else if TableOrMissing(Find(f, target)) then Some(Placed(f, target, f[Str("model")]))
    else None
  }

  lemma PlacesIs(section: Option<Yaml>, target: Scalar)
    requires Target(section) == Some(target)
    ensures var t := PlaceTable(AsTable(section), target);
            Stt(section) == if t.Some? then Set(Dict(t.value)) else Raise
  {
    assert Put(map[], "model", section.value.fields[Str("model")]) ==
           map[Str("model") := section.value.fields[Str("model")]];
  }

  lemma PlacedAlike(g: Table, f: Table, f': Table, target: Scalar, legacy: Yaml)
    requires AlikeTables(g, f, f') && TableDefault(Find(g, target)) && TableOrMissing(Find(f, target))
    ensures AlikeTables(g, Placed(f, target, legacy), Placed(f', target, legacy))
  {
    var d, x, y := Find(g, target), Find(f, target), Find(f', target);
    var v, v' := Put(AsTable(x), "model", legacy), Put(AsTable(y), "model", legacy);
    RemoveAlike(g, f, f', {Str("model")});
    AlikeAt(g, f, f', target);
    AlikeSections(d, x, y);
    if x != y {
      SetAlike(d.value.fields, AsTable(x), AsTable(y), Str("model"), legacy, legacy);
      LoadedDict(d.value.fields, v);
      LoadedDict(d.value.fields, v');
    }
    SetAlike(g, Drop(f, "model"), Drop(f', "model"), target, Dict(v), Dict(v'));
  }

  lemma OneOwnShape(g: Table, f: Table, f': Table, target: Scalar)
    requires AlikeTables(g, f, f') && TableDefault(Find(g, target))
    requires OwnModel(Some(Dict(f)), target) && !OwnModel(Some(Dict(f')), target)
    ensures Find(g, target).Some? && TableOrMissing(Find(f, target)) && TableOrMissing(Find(f', target))
    ensures AlikeTables(Find(g, target).value.fields, AsTable(Find(f, target)), AsTable(Find(f', target)))
    ensures Str("model") !in AsTable(Find(f', target))
  {
    AlikeAt(g, f, f', target);
    AlikeSections(Find(g, target), Find(f, target), Find(f', target));
  }

  /** Only `f` has a model under the target, so it is the default written down. */
  lemma OneOwnModel(g: Table, f: Table, f': Table, target: Scalar, legacy: Yaml)
    requires AlikeTables(g, f, f') && TableDefault(Find(g, target)) && target != Str("model")
    requires OwnModel(Some(Dict(f)), target) && !OwnModel(Some(Dict(f')), target)
    ensures TableOrMissing(Find(f', target))
    ensures AlikeTables(g, Drop(f, "model"), Placed(f', target, legacy))
            <==> Alike(ModelDefault(Some(Dict(g)), target), None, Some(legacy))
  {
    var d, x, y := Find(g, target), Find(f, target), Find(f', target);
    OneOwnShape(g, f, f', target);
    OwnModelDecides(d.value.fields, x, y, legacy);
    RemoveAlike(g, f, f', {Str("model")});
    OneKeyDecides(g, Drop(f, "model"), Drop(f', "model"), target, x, Some(Dict(Put(AsTable(y), "model", legacy))));
  }

  lemma OwnModelDecides(h: Table, x: Option<Yaml>, y: Option<Yaml>, legacy: Yaml)
    requires TableOrMissing(x) && TableOrMissing(y) && AlikeTables(h, AsTable(x), AsTable(y))
    requires Str("model") !in AsTable(y)
    ensures Alike(Some(Dict(h)), x, Some(Dict(Put(AsTable(y), "model", legacy))))
            <==> Alike(Lookup(h, "model"), None, Some(legacy))
  {
    ModelDecides(h, AsTable(x), AsTable(y), legacy);
    TablesDecide(h, x, Some(Dict(Put(AsTable(y), "model", legacy))));
  }

  lemma ModelDecides(h: Table, t: Table, u: Table, legacy: Yaml)
    requires AlikeTables(h, t, u) && Str("model") !in u
    ensures AlikeTables(h, t, Put(u, "model", legacy)) <==> Alike(Lookup(h, "model"), None, Some(legacy))
  {
    AlikeAt(h, t, u, Str("model"));
    OneKeyDecides(h, t, u, Str("model"), Lookup(t, "model"), Some(legacy));
  }

  /** After one file got a new value under one key, only that key can tell them apart. */
  lemma OneKeyDecides(g: Table, f: Table, f': Table, k: Scalar, x: Option<Yaml>, v: Option<Yaml>)
    requires AlikeTables(g, f, f') && Find(f, k) == x && v.Some?
    ensures AlikeTables(g, f, f'[k := v.value]) <==> Alike(Find(g, k), x, v)
  {
    if AlikeTables(g, f, f'[k := v.value]) {
      AlikeAt(g, f, f'[k := v.value], k);
    }
    if Alike(Find(g, k), x, v) {
      forall j
        ensures Alike(Find(g, j), Find(f, j), Find(f'[k := v.value], j))
      {
        if j != k {
          AlikeAt(g, f, f', j);
        }
      }
      AlikeEverywhere(g, f, f'[k := v.value]);
    }
  }

  lemma TablesDecide(h: Table, x: Option<Yaml>, y: Option<Yaml>)
    requires TableOrMissing(x) && TableOrMissing(y)
    ensures Alike(Some(Dict(h)), x, y) <==> AlikeTables(h, AsTable(x), AsTable(y))
  {
    SectionLoads(h, x);
    SectionLoads(h, y);
  }

  lemma PlaceTablesAlikeIff(g: Table, f: Table, f': Table, target: Scalar)
    requires AlikeTables(g, f, f') && TableDefault(Find(g, target)) && target != Str("model")
    requires Str("model") !in g && Str("model") in f && Str("model") in f'
    ensures var t, t' := PlaceTable(f, target), PlaceTable(f', target);
            && (t.Some? <==> t'.Some?)
            && ((t.Some? ==> AlikeTables(g, t.value, t'.value)) <==>
                || (OwnModel(Some(Dict(f)), target) <==> OwnModel(Some(Dict(f')), target))
                || Alike(ModelDefault(Some(Dict(g)), target), None, Some(f[Str("model")])))
  {
    UnknownKeyAlike(g, f, f', Str("model"));
    var legacy := f[Str("model")];
    if OwnModel(Some(Dict(f)), target) && OwnModel(Some(Dict(f')), target) {
      RemoveAlike(g, f, f', {Str("model")});
    } else if OwnModel(Some(Dict(f)), target) {
      OneOwnModel(g, f, f', target, legacy);
    } else if OwnModel(Some(Dict(f')), target) {
      OneOwnModel(g, f', f, target, legacy);
    } else {
      AlikeAt(g, f, f', target);
      AlikeSections(Find(g, target), Find(f, target), Find(f', target));
      if TableOrMissing(Find(f, target)) {
        PlacedAlike(g, f, f', target, legacy);
      }
    }
  }

  /** Under a target whose default is no dictionary, a value that is written down makes the step raise. */
  lemma PlaceOverLeafIff(g: Table, f: Table, f': Table, target: Scalar)
    requires AlikeTables(g, f, f') && !TableDefault(Find(g, target)) && target != Str("model")
    requires Str("model") !in g && Str("model") in f && Str("model") in f'
    ensures var t, t' := PlaceTable(f, target), PlaceTable(f', target);
            (t.Some? <==> t'.Some?) && (t.Some? ==> AlikeTables(g, t.value, t'.value))
            <==> (target in f <==> target in f')
  {
    UnknownKeyAlike(g, f, f', Str("model"));
    RemoveAlike(g, f, f', {Str("model")});
    AlikeAt(g, f, f', target);
    if target in f <==> target in f' {
      assert Find(f, target) == Find(f', target);
      if TableOrMissing(Find(f, target)) {
        var v := Dict(Put(AsTable(Find(f, target)), "model", f[Str("model")]));
        SetAlike(g, Drop(f, "model"), Drop(f', "model"), target, v, v);
      }
    }
  }

  /** The provider the step assumes is the one the schema has, if any. */
  predicate LocalByDefault(stt: Table) {
    Lookup(stt, "provider") in {None, Some(Text1("local"))}
  }

  lemma SameProvider(g: Table, f: Table, f': Table)
    requires AlikeTables(g, f, f') && LocalByDefault(g)
    ensures SttProvider(f) == SttProvider(f')
  {
    AlikeAt(g, f, f', Str("provider"));
  }

  /** What the step does with a flat model that goes nowhere; `rest` is the section without it. */
  function Untargeted(provider: Yaml, legacy: Yaml, rest: Table): Change {
    if !provider.Leaf? || (provider.v in {Str("local"), Str("local_command")} && !legacy.Leaf?) then Raise
    else if provider.v == Str("model") && !HasModel(legacy) then
      Set(Dict(rest[Str("model") := Dict(map[Str("model") := legacy])]))
    else Set(Dict(rest))
  }

  lemma UntargetedIs(f: Table)
    requires Str("model") in f && Target(Some(Dict(f))) == None
    ensures Stt(Some(Dict(f))) == Untargeted(SttProvider(f), f[Str("model")], Drop(f, "model"))
  {
  }

  lemma UntargetedSame(g: Table, f: Table, f': Table, provider: Yaml, legacy: Yaml)
    requires AlikeTables(g, f, f')
    ensures ChangesAlike(Some(Dict(g)), Some(Dict(f)), Untargeted(provider, legacy, Drop(f, "model")),
                         Some(Dict(f')), Untargeted(provider, legacy, Drop(f', "model")))
  {
    var e, e', v := Drop(f, "model"), Drop(f', "model"), Dict(map[Str("model") := legacy]);
    RemoveAlike(g, f, f', {Str("model")});
    SetAlike(g, e, e', Str("model"), v, v);
    TablesDecide(g, Some(Dict(f)), Some(Dict(f')));
    TablesDecide(g, Some(Dict(e)), Some(Dict(e')));
    TablesDecide(g, Some(Dict(e[Str("model") := v])), Some(Dict(e'[Str("model") := v])));
  }

  lemma UntargetedAlike(g: Table, f: Table, f': Table)
    requires AlikeTables(g, f, f') && LocalByDefault(g) && Str("model") !in g
    requires Target(Some(Dict(f))) == None
    ensures ChangesAlike(Some(Dict(g)), Some(Dict(f)), Stt(Some(Dict(f))), Some(Dict(f')), Stt(Some(Dict(f'))))
  {
    SameProvider(g, f, f');
    UnknownKeyAlike(g, f, f', Str("model"));
    if Str("model") in f {
      assert Target(Some(Dict(f'))) == None;
      UntargetedIs(f);
      UntargetedIs(f');
      UntargetedSame(g, f, f', SttProvider(f), f[Str("model")]);
    } else {
      TablesDecide(g, Some(Dict(f)), Some(Dict(f')));
    }
  }

  /** Nothing that step 14 looks at differs between the two sections. */
  ghost predicate SeenAlike(d: Option<Yaml>, x: Option<Yaml>, y: Option<Yaml>) {
    Target(x).Some? ==>
      var target := Target(x).value;
      if TableDefault(Find(AsTable(d), target)) then
        || (OwnModel(x, target) <==> OwnModel(y, target))
        || Alike(ModelDefault(d, target), None, Some(x.value.fields[Str("model")]))
      else target in AsTable(x) <==> target in AsTable(y)
  }

  lemma TargetedAlikeIff(g: Table, f: Table, f': Table)
    requires AlikeTables(g, f, f') && LocalByDefault(g) && Str("model") !in g
    requires Target(Some(Dict(f))).Some?
    ensures var x, y := Some(Dict(f)), Some(Dict(f'));
            ChangesAlike(Some(Dict(g)), x, Stt(x), y, Stt(y)) <==> SeenAlike(Some(Dict(g)), x, y)
  {
    var x, y := Some(Dict(f)), Some(Dict(f'));
    var target := Target(x).value;
    SameProvider(g, f, f');
    UnknownKeyAlike(g, f, f', Str("model"));
    assert Target(y) == Some(target);
    PlacesIs(x, target);
    PlacesIs(y, target);
    TablesDecide(g, x, y);
    if TableDefault(Find(g, target)) {
      PlaceTablesAlikeIff(g, f, f', target);
    } else {
      PlaceOverLeafIff(g, f, f', target);
    }
    if PlaceTable(f, target).Some? && PlaceTable(f', target).Some? {
      TablesDecide(g, Some(Dict(PlaceTable(f, target).value)), Some(Dict(PlaceTable(f', target).value)));
    }
  }

  /** Step 14 does the same to alike sections, except exactly in two cases, both about the key it moves the flat model
      under. One section writes down the default model there, the other leaves it out, and the flat model is another
      one: it counts as the user's own in the first and is replaced in the second. Or what the schema has there is no
      dictionary, and only one section writes it down: the step raises on it. */
  lemma SttAlikeIff(d: Option<Yaml>, x: Option<Yaml>, y: Option<Yaml>)
    requires TableDefault(d) && SttOk(AsTable(d)) && LocalByDefault(AsTable(d)) && Alike(d, x, y)
    ensures ChangesAlike(d, x, Stt(x), y, Stt(y)) <==> SeenAlike(d, x, y)
  {
    AlikeSections(d, x, y);
    if x != y {
      var g, f, f' := d.value.fields, AsTable(x), AsTable(y);
      SttOfTable(x);
      SttOfTable(y);
      if Target(x).Some? {
        UnknownKeyAlike(g, f, f', Str("model"));
        TargetedAlikeIff(g, f, f');
      } else {
        UntargetedAlike(g, f, f');
        MissingIsEmpty(g, x);
        MissingIsEmpty(g, y);
      }
    }
  }

  lemma SttOfTable(section: Option<Yaml>)
    requires TableOrMissing(section)
    ensures Stt(section) == Stt(Some(Dict(AsTable(section)))) && Target(section) == Target(Some(Dict(AsTable(section))))
  {
  }

  lemma MissingIsEmpty(g: Table, section: Option<Yaml>)
    requires TableOrMissing(section)
    ensures Alike(Some(Dict(g)), section, Some(Dict(AsTable(section))))
  {
    TablesDecide(g, section, Some(Dict(AsTable(section))));
  }
}
