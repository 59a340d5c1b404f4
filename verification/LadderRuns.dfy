/** Runs of the ladder that are cut off and started over, through a writer that may leave out defaults.

    Two states are the same if the same configuration loads from them. A run that dies between two writes starts over
    from the same version on the file it left behind. */
module LadderRuns {
  import opened Collections
  import opened ConfigLoad
  import opened ConfigSteps
  import opened LadderSteps
  import opened MigrationLadder
  import opened StepsAlike

  /** Whatever the writer leaves out, what it was given loads. */
  ghost predicate WriterOk(env: Env) {
    forall was, now :: AlikeTables(env.defaults, env.persist(was, now), now)
  }

  ghost predicate Ok(env: Env) {
    WriterOk(env) && SchemaOk(env)
  }

  function Config(env: Env, s: State): Table {
    LoadTable(env.defaults, s.config)
  }

  predicate SameState(env: Env, s: State, t: State) {
    Config(env, s) == Config(env, t) && s.dotenv == t.dotenv
  }

  predicate SameOutcome(env: Env, a: Outcome, b: Outcome) {
    a.Done? == b.Done? && SameState(env, a.s, b.s)
  }

  // ----- Single steps -----

  /** What the step hands to the writer, taken as a state. */
  function Handed(env: Env, step: Step, s: State): State
    requires ConfigStep(env, step, s.config).Some?
  {
    State(ConfigStep(env, step, s.config).value, EnvStep(env, step, s.dotenv))
  }

  lemma TakeIsHanded(env: Env, step: Step, s: State)
    requires WriterOk(env) && Take(env, step, s).Some?
    ensures SameState(env, Take(env, step, s).value, Handed(env, step, s))
  {
    var d := ConfigStep(env, step, s.config).value;
    if Persists(env, step, s.config) {
      assert AlikeTables(env.defaults, env.persist(s.config, d), d);
    } else {
      UnpersistedIsSame(env, step, s.config);
    }
  }

  ghost predicate SameStt(step: Step, c: Table, c': Table) {
    step.To14? ==> Lookup(c, "stt") == Lookup(c', "stt")
  }

  ghost predicate OutputsAlike(env: Env, d: Option<Table>, d': Option<Table>) {
    && (d.Some? <==> d'.Some?)
    && (d.Some? ==> AlikeTables(env.defaults, d.value, d'.value))
  }

  lemma SectionsAlike(env: Env, c: Table, c': Table, name: string)
    requires SchemaOk(env) && AlikeTables(env.defaults, c, c') && name in SECTIONS
    ensures TableDefault(Default(env, name)) && Alike(Default(env, name), Lookup(c, name), Lookup(c', name))
  {
    AlikeAt(env.defaults, c, c', Str(name));
  }

  lemma DisplayStepsAlike(env: Env, c: Table, c': Table)
    requires SchemaOk(env) && AlikeTables(env.defaults, c, c')
    ensures OutputsAlike(env, ConfigStep(env, To15, c), ConfigStep(env, To15, c'))
    ensures OutputsAlike(env, ConfigStep(env, To16, c), ConfigStep(env, To16, c'))
  {
    var d, x, y := Default(env, "display"), Lookup(c, "display"), Lookup(c', "display");
    SectionsAlike(env, c, c', "display");
    InterimAlike(d, x, y);
    ApplyAlike(env.defaults, c, c', "display", Interim(x), Interim(y));
    OverridesAlike(d, x, y);
    ApplyAlike(env.defaults, c, c', "display", Overrides(x), Overrides(y));
  }

  lemma VerifyOffStepAlike(env: Env, c: Table, c': Table)
    requires SchemaOk(env) && AlikeTables(env.defaults, c, c')
    ensures OutputsAlike(env, ConfigStep(env, To31, c), ConfigStep(env, To31, c'))
  {
    var x, y := Lookup(c, "agent"), Lookup(c', "agent");
    SectionsAlike(env, c, c', "agent");
    VerifyOffAlike(Default(env, "agent"), x, y);
    ApplyAlike(env.defaults, c, c', "agent", VerifyOff(x), VerifyOff(y));
  }

  lemma VerifyBakedStepAlike(env: Env, c: Table, c': Table)
    requires SchemaOk(env) && AlikeTables(env.defaults, c, c')
    ensures OutputsAlike(env, ConfigStep(env, To32, c), ConfigStep(env, To32, c'))
  {
    var x, y := Lookup(c, "agent"), Lookup(c', "agent");
    SectionsAlike(env, c, c', "agent");
    VerifyBakedAlike(Default(env, "agent"), x, y);
    ApplyAlike(env.defaults, c, c', "agent", VerifyBaked(x), VerifyBaked(y));
  }

  lemma PluginsStepAlike(env: Env, c: Table, c': Table)
    requires SchemaOk(env) && AlikeTables(env.defaults, c, c')
    ensures OutputsAlike(env, ConfigStep(env, To21, c), ConfigStep(env, To21, c'))
  {
    var x, y := Lookup(c, "plugins"), Lookup(c', "plugins");
    SectionsAlike(env, c, c', "plugins");
    PluginsAlike(env, Default(env, "plugins"), x, y);
    ApplyAlike(env.defaults, c, c', "plugins", Plugins(env, x), Plugins(env, y));
  }

  lemma CatalogStepAlike(env: Env, c: Table, c': Table)
    requires SchemaOk(env) && AlikeTables(env.defaults, c, c')
    ensures OutputsAlike(env, ConfigStep(env, To25, c), ConfigStep(env, To25, c'))
  {
    var x, y := Lookup(c, "model_catalog"), Lookup(c', "model_catalog");
    SectionsAlike(env, c, c', "model_catalog");
    TtlAlike(Default(env, "model_catalog"), x, y);
    ApplyAlike(env.defaults, c, c', "model_catalog", Ttl(x), Ttl(y));
  }

  lemma DelegationStepAlike(env: Env, c: Table, c': Table)
    requires SchemaOk(env) && AlikeTables(env.defaults, c, c')
    ensures OutputsAlike(env, ConfigStep(env, To33, c), ConfigStep(env, To33, c'))
  {
    var x, y := Lookup(c, "delegation"), Lookup(c', "delegation");
    SectionsAlike(env, c, c', "delegation");
    DelegationAlike(env, Default(env, "delegation"), x, y);
    ApplyAlike(env.defaults, c, c', "delegation", Delegation(env, x), Delegation(env, y));
  }

  /** Every step of the ladder, step 14 given the same section. */
  lemma ConfigStepAlike(env: Env, step: Step, c: Table, c': Table)
    requires SchemaOk(env) && AlikeTables(env.defaults, c, c') && SameStt(step, c, c')
    ensures OutputsAlike(env, ConfigStep(env, step, c), ConfigStep(env, step, c'))
  {
    match step
    case To12 => Step12Alike(env, c, c');
    case ClearEnv(_) =>
    case To14 =>
      var change := Stt(Lookup(c, "stt"));
      ApplyAlike(env.defaults, c, c', "stt", change, change);
    case To15 => DisplayStepsAlike(env, c, c');
    case To16 => DisplayStepsAlike(env, c, c');
    case To17 => Step17Alike(env, c, c');
    case To21 => PluginsStepAlike(env, c, c');
    case To23 => Step23Alike(env, c, c');
    case To25 => CatalogStepAlike(env, c, c');
    case To29 => Step29Alike(env, c, c');
    case To31 => VerifyOffStepAlike(env, c, c');
    case To32 => VerifyBakedStepAlike(env, c, c');
    case To33 => DelegationStepAlike(env, c, c');
  }

  lemma TakeAlike(env: Env, step: Step, s: State, t: State)
    requires Ok(env) && SameState(env, s, t) && SameStt(step, s.config, t.config)
    ensures Take(env, step, s).Some? <==> Take(env, step, t).Some?
    ensures Take(env, step, s).Some? ==> SameState(env, Take(env, step, s).value, Take(env, step, t).value)
  {
    ConfigStepAlike(env, step, s.config, t.config);
    if Take(env, step, s).Some? {
      TakeIsHanded(env, step, s);
      TakeIsHanded(env, step, t);
    }
  }

  lemma {:induction false} RunAlike(env: Env, steps: seq<Step>, s: State, t: State)
    requires Ok(env) && SameState(env, s, t) && To14 !in steps
    ensures SameOutcome(env, RunSteps(env, steps, s), RunSteps(env, steps, t))
    decreases |steps|
  {
    if steps != [] {
      TakeAlike(env, steps[0], s, t);
      if Take(env, steps[0], s).Some? {
        RunAlike(env, steps[1..], Take(env, steps[0], s).value, Take(env, steps[0], t).value);
      }
    }
  }

  // ----- Where the flat model is -----

  /** How step 14 finds the section: with a flat model it will move under the flat key itself, with a model already
      there, with the provider that caused it and no model at all, or any other way. */
  datatype Form = Doomed | Moved | Gone | Other

  function SttForm(section: Option<Yaml>): Form {
    if section.None? || !section.value.Dict? || SttProvider(section.value.fields) != Text1("model") then Other
    else if !HasModel(section.value) then Gone
    else if HasModel(section.value.fields[Str("model")]) then Moved
    else Doomed
  }

  function FormOf(s: State): Form {
    SttForm(Lookup(s.config, "stt"))
  }

  function Next(form: Form): Form {
    match form
    case Doomed => Moved
    case Moved => Gone
    case Gone => Gone
    case Other => Other
  }

  /** The run would take the flat model through step 14 in the one way that does not survive a second pass. */
  predicate Fragile(s: State) {
    FormOf(s) == Doomed
  }

  /** It is a condition on the file: the provider is named `model`, and the flat model is no section with a model. */
  lemma FragileIsLosesModel(s: State)
    ensures Fragile(s) <==> LosesModel(Lookup(s.config, "stt"))
  {
  }

  /** Two alike `stt` sections hold the same flat model, and the provider `model` shows in both or in neither. */
  lemma SttAlike(d: Option<Yaml>, x: Option<Yaml>, y: Option<Yaml>)
    requires TableDefault(d) && Alike(d, x, y) && SttOk(AsTable(d))
    ensures SttForm(x) == SttForm(y)
    ensures Lookup(AsTable(x), "model") == Lookup(AsTable(y), "model")
  {
    AlikeSections(d, x, y);
    if x != y {
      var g, f, f' := d.value.fields, AsTable(x), AsTable(y);
      UnknownKeyAlike(g, f, f', Str("model"));
      AlikeAt(g, f, f', Str("provider"));
      LeafSeen(Lookup(g, "provider"), Lookup(f, "provider"), Lookup(f', "provider"), Text1("model"));
    }
  }

  lemma FormAlike(env: Env, c: Table, c': Table)
    requires SchemaOk(env) && Alike(Default(env, "stt"), Lookup(c, "stt"), Lookup(c', "stt"))
    ensures SttForm(Lookup(c, "stt")) == SttForm(Lookup(c', "stt"))
    ensures Lookup(AsTable(Lookup(c, "stt")), "model") == Lookup(AsTable(Lookup(c', "stt")), "model")
  {
    assert "stt" in SECTIONS;
    SttAlike(Default(env, "stt"), Lookup(c, "stt"), Lookup(c', "stt"));
  }

  lemma SameForm(env: Env, s: State, t: State)
    requires SchemaOk(env) && SameState(env, s, t)
    ensures FormOf(s) == FormOf(t)
    ensures Lookup(AsTable(Lookup(s.config, "stt")), "model") == Lookup(AsTable(Lookup(t.config, "stt")), "model")
  {
    AlikeAt(env.defaults, s.config, t.config, Str("stt"));
    FormAlike(env, s.config, t.config);
  }

  lemma SttStepForm(section: Option<Yaml>)
    ensures SttForm(section) != Other ==> !Stt(section).Raise?
    ensures !Stt(section).Raise? ==> SttForm(After(section, Stt(section))) == Next(SttForm(section))
  {
    if Stt(section).Set? && SttForm(section) == Other {
      var raw := section.value.fields;
      assert SttProvider(AsTable(Some(Stt(section).value))) == SttProvider(raw);
    }
  }

  /** A step leaves what loads of a section it does not write. */
  lemma TakeFrame(env: Env, step: Step, s: State, name: string)
    requires WriterOk(env) && Take(env, step, s).Some? && name !in Writes(step)
    ensures Lookup(Config(env, Take(env, step, s).value), name) == Lookup(Config(env, s), name)
    ensures Alike(Default(env, name), Lookup(s.config, name), Lookup(Take(env, step, s).value.config, name))
  {
    TakeIsHanded(env, step, s);
    StepFrame(env, step, s.config, name);
    LoadAt(env.defaults, s.config, Str(name));
    LoadAt(env.defaults, Handed(env, step, s).config, Str(name));
    LoadAt(env.defaults, Take(env, step, s).value.config, Str(name));
  }

  lemma TakeForm(env: Env, step: Step, s: State)
    requires Ok(env)
    ensures step.To14? && FormOf(s) != Other ==> Take(env, step, s).Some?
    ensures Take(env, step, s).Some? ==>
              FormOf(Take(env, step, s).value) == if step.To14? then Next(FormOf(s)) else FormOf(s)
  {
    if step.To14? {
      SttStepForm(Lookup(s.config, "stt"));
    }
    if Take(env, step, s).Some? {
      if step.To14? {
        TakeIsHanded(env, step, s);
        SameForm(env, Take(env, step, s).value, Handed(env, step, s));
      } else {
        TakeFrame(env, step, s, "stt");
        FormAlike(env, s.config, Take(env, step, s).value.config);
      }
    }
  }

  lemma {:induction false} RunKeepsForm(env: Env, steps: seq<Step>, s: State)
    requires Ok(env) && To14 !in steps
    ensures FormOf(RunSteps(env, steps, s).s) == FormOf(s)
    decreases |steps|
  {
    if steps != [] && Take(env, steps[0], s).Some? {
      TakeForm(env, steps[0], s);
      RunKeepsForm(env, steps[1..], Take(env, steps[0], s).value);
    }
  }

  /** What a run that gets to step 14 leaves of the section. */
  lemma RunForm(env: Env, steps: seq<Step>, s: State, i: nat)
    requires Ok(env) && Ascending(steps) && i < |steps| && steps[i] == To14
    requires RunSteps(env, steps[..i], s).Done?
    requires FormOf(s) != Other || RunSteps(env, steps, s).Done?
    ensures FormOf(RunSteps(env, steps, s).s) == Next(FormOf(s))
  {
    var t, rest := RunSteps(env, steps[..i], s).s, steps[i..];
    assert steps == steps[..i] + rest && rest[0] == To14;
    RunConcat(env, steps[..i], rest, s);
    forall x | x in steps[..i]
      ensures x != To14
    {
      assert Rank(x) < Rank(steps[i]);
    }
    RunKeepsForm(env, steps[..i], s);
    TakeForm(env, To14, t);
    forall x | x in rest[1..]
      ensures x != To14
    {
      assert Rank(steps[i]) < Rank(x);
    }
    RunKeepsForm(env, rest[1..], Take(env, To14, t).value);
  }

  // ----- Nothing left to do -----

  /** The step has nothing left to do: after it the same configuration loads. */
  predicate Quiet(env: Env, step: Step, s: State) {
    Take(env, step, s).Some? && SameState(env, Take(env, step, s).value, s)
  }

  lemma ClearedEnv(env: Env, step: Step, dotenv: map<string, string>)
    ensures EnvStep(env, step, dotenv) == dotenv <==>
            (step.ClearEnv? && SeesEnv(env, step.name, dotenv) ==> step.name in dotenv && dotenv[step.name] == "")
  {
    if step.ClearEnv? && SeesEnv(env, step.name, dotenv) {
      assert EnvStep(env, step, dotenv)[step.name] == "";
    }
  }

  /** With nothing left to do, step 14 finds no flat model. */
  lemma QuietStt(env: Env, s: State)
    requires Ok(env) && Quiet(env, To14, s)
    ensures Stt(Lookup(s.config, "stt")) == Keep
  {
    var x := Lookup(s.config, "stt");
    TakeIsHanded(env, To14, s);
    SameForm(env, s, Handed(env, To14, s));
    SttTakesModel(x);
    SttStepForm(x);
  }

  lemma SttTakesModel(section: Option<Yaml>)
    ensures Stt(section).Set? ==>
              Lookup(AsTable(Some(Stt(section).value)), "model") != Lookup(AsTable(section), "model")
  {
    if Stt(section).Set? && HasModel(Stt(section).value) {
      var raw := section.value.fields;
      assert !HasModel(raw[Str("model")]);
      assert HasModel(Stt(section).value.fields[Str("model")]);
    }
  }

  lemma QuietAlike(env: Env, step: Step, s: State, t: State)
    requires Ok(env) && SameState(env, s, t) && Quiet(env, step, s)
    ensures Quiet(env, step, t)
  {
    if step.To14? {
      QuietStt(env, s);
      SameForm(env, s, t);
    } else {
      TakeAlike(env, step, s, t);
    }
  }

  lemma SettledIsQuiet(env: Env, step: Step, s: State)
    requires WriterOk(env) && Settled(env, step, s.config) && EnvStep(env, step, s.dotenv) == s.dotenv
    ensures Quiet(env, step, s)
  {
    TakeIsHanded(env, step, s);
  }

  lemma StepQuiets(env: Env, step: Step, s: State)
    requires Ok(env) && !(step.To14? && Fragile(s))
    ensures Take(env, step, s).Some? ==> Quiet(env, step, Take(env, step, s).value)
  {
    if Take(env, step, s).Some? {
      FragileIsLosesModel(s);
      StepSettles(env, step, s.config);
      ClearedEnv(env, step, EnvStep(env, step, s.dotenv));
      SettledIsQuiet(env, step, Handed(env, step, s));
      TakeIsHanded(env, step, s);
      QuietAlike(env, step, Handed(env, step, s), Take(env, step, s).value);
    }
  }

  /** What the step would hand to the writer, once more; nothing is left to do on it, and it loads like the file. */
  lemma QuietHanded(env: Env, step: Step, s: State)
    requires Ok(env) && Quiet(env, step, s)
    ensures Settled(env, step, Handed(env, step, s).config)
    ensures SameState(env, Handed(env, step, s), s) && EnvStep(env, step, s.dotenv) == s.dotenv
  {
    if step.To14? {
      QuietStt(env, s);
    }
    StepSettles(env, step, s.config);
    TakeIsHanded(env, step, s);
  }

  lemma SettledStays(env: Env, step: Step, later: Step, u: State)
    requires WriterOk(env) && Rank(step) < Rank(later) && Take(env, later, u).Some?
    requires Settled(env, step, u.config) && EnvStep(env, step, u.dotenv) == u.dotenv
    ensures Quiet(env, step, Handed(env, later, u))
  {
    LaterStepKeepsSettled(env, step, later, u.config);
    ClearedEnv(env, step, u.dotenv);
    ClearedEnv(env, step, EnvStep(env, later, u.dotenv));
    SettledIsQuiet(env, step, Handed(env, later, u));
  }

  lemma HandedStt(env: Env, step: Step, later: Step, s: State)
    requires Rank(step) < Rank(later) && ConfigStep(env, step, s.config).Some?
    ensures SameStt(later, s.config, Handed(env, step, s).config)
  {
    if later.To14? {
      assert "stt" !in Writes(step);
      StepFrame(env, step, s.config, "stt");
    }
  }

  lemma QuietStays(env: Env, step: Step, later: Step, s: State)
    requires Ok(env) && Rank(step) < Rank(later) && Quiet(env, step, s)
    ensures Take(env, later, s).Some? ==> Quiet(env, step, Take(env, later, s).value)
  {
    var u := Handed(env, step, s);
    QuietHanded(env, step, s);
    HandedStt(env, step, later, s);
    TakeAlike(env, later, s, u);
    if Take(env, later, s).Some? {
      SettledStays(env, step, later, u);
      TakeIsHanded(env, later, u);
      QuietAlike(env, step, Handed(env, later, u), Take(env, later, s).value);
    }
  }

  lemma {:induction false} QuietThroughRun(env: Env, step: Step, steps: seq<Step>, s: State)
    requires Ok(env) && forall x | x in steps :: Rank(step) < Rank(x)
    requires Quiet(env, step, s) && RunSteps(env, steps, s).Done?
    ensures Quiet(env, step, RunSteps(env, steps, s).s)
    decreases |steps|
  {
    if steps != [] {
      QuietStays(env, step, steps[0], s);
      QuietThroughRun(env, step, steps[1..], Take(env, steps[0], s).value);
    }
  }

  /** After a run every step in it has nothing left to do, apart from step 14 on a fragile file. */
  lemma {:induction false} RunSettles(env: Env, steps: seq<Step>, s: State)
    requires Ok(env) && Ascending(steps) && RunSteps(env, steps, s).Done?
    ensures forall step | step in steps && !(step.To14? && Fragile(s)) :: Quiet(env, step, RunSteps(env, steps, s).s)
    decreases |steps|
  {
    if steps != [] {
      var x, rest := steps[0], steps[1..];
      var t := Take(env, x, s).value;
      RunSettles(env, rest, t);
      TakeForm(env, x, s);
      if !(x.To14? && Fragile(s)) {
        StepQuiets(env, x, s);
        QuietThroughRun(env, x, rest, t);
      }
      forall step | step in steps && !(step.To14? && Fragile(s))
        ensures Quiet(env, step, RunSteps(env, steps, s).s)
      {
        if step in rest {
          assert Rank(x) < Rank(step);
          assert Quiet(env, step, RunSteps(env, rest, t).s);
        }
      }
    }
  }

  lemma {:induction false} QuietRun(env: Env, steps: seq<Step>, s: State)
    requires Ok(env) && forall step | step in steps :: Quiet(env, step, s)
    ensures SameOutcome(env, RunSteps(env, steps, s), Done(s))
    decreases |steps|
  {
    if steps != [] {
      assert Quiet(env, steps[0], s);
      var t := Take(env, steps[0], s).value;
      forall step | step in steps[1..]
        ensures Quiet(env, step, t)
      {
        QuietAlike(env, step, s, t);
      }
      QuietRun(env, steps[1..], t);
    }
  }

  /** The steps before step 14 do not even write when they have nothing left to do. */
  lemma QuietIsStill(env: Env, step: Step, s: State)
    requires Ok(env) && Quiet(env, step, s) && Rank(step) < Rank(To14)
    ensures Take(env, step, s) == Some(s)
  {
    if step.To12? {
      var d := ConfigStep(env, To12, s.config).value;
      TakeIsHanded(env, To12, s);
      UnknownKeyAlike(env.defaults, s.config, d, Str("custom_providers"));
      assert d != s.config ==> Str("custom_providers") in s.config && Str("custom_providers") !in d;
      assert !Persists(env, To12, s.config);
    }
  }

  lemma {:induction false} StillRun(env: Env, steps: seq<Step>, s: State)
    requires forall step | step in steps :: Take(env, step, s) == Some(s)
    ensures RunSteps(env, steps, s) == Done(s)
    decreases |steps|
  {
    if steps != [] {
      assert Take(env, steps[0], s) == Some(s);
      StillRun(env, steps[1..], s);
    }
  }

  lemma {:induction false} RunConcat(env: Env, a: seq<Step>, b: seq<Step>, s: State)
    ensures RunSteps(env, a + b, s) ==
            var first := RunSteps(env, a, s);
            if first.Done? then RunSteps(env, b, first.s) else first
    decreases |a|
  {
    if a == [] {
      assert a + b == b;
    } else {
      assert (a + b)[1..] == a[1..] + b;
      if Take(env, a[0], s).Some? {
        RunConcat(env, a[1..], b, Take(env, a[0], s).value);
      }
    }
  }

  // ----- One interrupted run -----

  /** Dying after `k` writes and starting over ends like one run, unless step 14 was among them on a fragile file. */
  lemma RestartConverges(env: Env, steps: seq<Step>, s: State, k: nat)
    requires Ok(env) && Ascending(steps) && k <= |steps| && RunSteps(env, steps[..k], s).Done?
    requires !(To14 in steps[..k] && Fragile(s))
    ensures SameOutcome(env, RunSteps(env, steps, RunSteps(env, steps[..k], s).s), RunSteps(env, steps, s))
  {
    var first, rest := steps[..k], steps[k..];
    var t := RunSteps(env, first, s).s;
    assert steps == first + rest;
    RunConcat(env, first, rest, s);
    RunConcat(env, first, rest, t);
    RunSettles(env, first, s);
    if To14 in rest {
      StillBefore(env, steps, t, k);
      StillRun(env, first, t);
    } else {
      QuietRun(env, first, t);
      RunAlike(env, rest, RunSteps(env, first, t).s, t);
    }
  }

  lemma StillBefore(env: Env, steps: seq<Step>, t: State, k: nat)
    requires Ok(env) && Ascending(steps) && k <= |steps| && To14 in steps[k..]
    requires forall step | step in steps[..k] && !step.To14? :: Quiet(env, step, t)
    ensures forall step | step in steps[..k] :: Take(env, step, t) == Some(t)
  {
    var i :| 0 <= i < |steps[k..]| && steps[k..][i] == To14;
    assert steps[k + i] == To14;
    forall step | step in steps[..k]
      ensures Take(env, step, t) == Some(t)
    {
      assert Rank(step) < Rank(steps[k + i]);
      QuietIsStill(env, step, t);
    }
  }

  lemma QuietBefore(env: Env, steps: seq<Step>, s: State, k: nat, i: nat)
    requires Ok(env) && Ascending(steps) && i < k <= |steps| && steps[i] == To14
    requires RunSteps(env, steps[..k], s).Done?
    ensures forall step | step in steps[..i] :: Quiet(env, step, RunSteps(env, steps[..k], s).s)
  {
    RunSettles(env, steps[..k], s);
    forall step | step in steps[..i]
      ensures Quiet(env, step, RunSteps(env, steps[..k], s).s)
    {
      assert steps[..i] == steps[..k][..i];
      assert Rank(step) < Rank(steps[i]);
    }
  }

  lemma EarlierDone(env: Env, steps: seq<Step>, s: State, k: nat, i: nat)
    requires i < k <= |steps| && RunSteps(env, steps[..k], s).Done?
    ensures RunSteps(env, steps[..i], s).Done?
  {
    assert steps[..k] == steps[..i] + steps[i..k];
    RunConcat(env, steps[..i], steps[i..k], s);
  }

  /** What an interrupted run that got past step 14 leaves of the section. */
  lemma PrefixForm(env: Env, steps: seq<Step>, s: State, k: nat, i: nat)
    requires Ok(env) && Ascending(steps) && i < k <= |steps| && steps[i] == To14
    requires RunSteps(env, steps[..k], s).Done?
    ensures FormOf(RunSteps(env, steps[..k], s).s) == Next(FormOf(s))
  {
    EarlierDone(env, steps, s, k, i);
    assert steps[..k][..i] == steps[..i];
    RunForm(env, steps[..k], s, i);
  }

  /** Step 14 has been through a fragile file; the steps before it have nothing left to do. */
  ghost predicate Spent(env: Env, steps: seq<Step>, i: nat, s: State)
    requires i <= |steps|
  {
    FormOf(s) in {Moved, Gone} && forall step | step in steps[..i] :: Quiet(env, step, s)
  }

  lemma SpentEndsGone(env: Env, steps: seq<Step>, s: State, i: nat)
    requires Ok(env) && Ascending(steps) && i < |steps| && steps[i] == To14 && Spent(env, steps, i, s)
    ensures FormOf(RunSteps(env, steps, s).s) == Gone
  {
    QuietRun(env, steps[..i], s);
    RunForm(env, steps, s, i);
  }

  lemma FirstPassSpends(env: Env, steps: seq<Step>, s: State, k: nat, i: nat)
    requires Ok(env) && Ascending(steps) && i < k <= |steps| && steps[i] == To14
    requires RunSteps(env, steps[..k], s).Done?
    ensures Fragile(s) ==> Spent(env, steps, i, RunSteps(env, steps[..k], s).s)
    ensures Fragile(s) ==> FormOf(RunSteps(env, steps, s).s) == Moved
  {
    if Fragile(s) {
      QuietBefore(env, steps, s, k, i);
      PrefixForm(env, steps, s, k, i);
      EarlierDone(env, steps, s, k, i);
      RunForm(env, steps, s, i);
    }
  }

  /** Restarting from the same version converges for every crash point and file, except exactly when step 14 had
      already been written on a fragile file. */
  lemma CrashConvergesIff(env: Env, version: int, s: State, k: nat)
    requires Ok(env) && k <= |Eligible(version)| && RunSteps(env, Eligible(version)[..k], s).Done?
    ensures SameOutcome(env, RunSteps(env, Eligible(version), RunSteps(env, Eligible(version)[..k], s).s),
                        RunSteps(env, Eligible(version), s))
            <==> !(To14 in Eligible(version)[..k] && Fragile(s))
  {
    var steps := Eligible(version);
    EligibleIsGated(version);
    if To14 in steps[..k] && Fragile(s) {
      var i :| 0 <= i < k && steps[i] == To14;
      var t := RunSteps(env, steps[..k], s).s;
      FirstPassSpends(env, steps, s, k, i);
      SpentEndsGone(env, steps, t, i);
      DifferentForms(env, RunSteps(env, steps, t), RunSteps(env, steps, s));
    } else {
      RestartConverges(env, steps, s, k);
    }
  }

  lemma DifferentForms(env: Env, a: Outcome, b: Outcome)
    requires SchemaOk(env) && FormOf(a.s) != FormOf(b.s)
    ensures !SameOutcome(env, a, b)
  {
    if SameState(env, a.s, b.s) {
      SameForm(env, a.s, b.s);
    }
  }

  // ----- Any number of interrupted runs -----

  /** `t` is left after interrupted runs, the first of which made `crashes[0]` writes, and so on. */
  ghost predicate LeftAfter(env: Env, steps: seq<Step>, s: State, crashes: seq<nat>, t: State)
    decreases |crashes|
  {
    if crashes == [] then t == s
    else
      && crashes[0] <= |steps|
      && RunSteps(env, steps[..crashes[0]], s).Done?
      && LeftAfter(env, steps, RunSteps(env, steps[..crashes[0]], s).s, crashes[1..], t)
  }

  lemma SpentStays(env: Env, steps: seq<Step>, s: State, k: nat, i: nat)
    requires Ok(env) && Ascending(steps) && i < |steps| && k <= |steps| && steps[i] == To14
    requires Spent(env, steps, i, s)
    ensures RunSteps(env, steps[..k], s).Done? ==> Spent(env, steps, i, RunSteps(env, steps[..k], s).s)
  {
    if k <= i {
      forall step | step in steps[..k]
        ensures Quiet(env, step, s)
      {
        assert step in steps[..i];
      }
      QuietRun(env, steps[..k], s);
      SameSpent(env, steps, i, s, RunSteps(env, steps[..k], s).s);
    } else if RunSteps(env, steps[..k], s).Done? {
      QuietBefore(env, steps, s, k, i);
      PrefixForm(env, steps, s, k, i);
    }
  }

  lemma SameSpent(env: Env, steps: seq<Step>, i: nat, s: State, t: State)
    requires Ok(env) && i <= |steps| && Spent(env, steps, i, s) && SameState(env, s, t)
    ensures Spent(env, steps, i, t)
  {
    SameForm(env, s, t);
    forall step | step in steps[..i]
      ensures Quiet(env, step, t)
    {
      QuietAlike(env, step, s, t);
    }
  }

  lemma {:induction false} SpentAfterCrashes(env: Env, steps: seq<Step>, s: State, crashes: seq<nat>, t: State, i: nat)
    requires Ok(env) && Ascending(steps) && i < |steps| && steps[i] == To14 && Spent(env, steps, i, s)
    requires LeftAfter(env, steps, s, crashes, t)
    ensures Spent(env, steps, i, t)
    decreases |crashes|
  {
    if crashes != [] {
      SpentStays(env, steps, s, crashes[0], i);
      SpentAfterCrashes(env, steps, RunSteps(env, steps[..crashes[0]], s).s, crashes[1..], t, i);
    }
  }

  /** An interrupted run that leaves a fragile file alone does not change whether the file is fragile. */
  lemma FragileKept(env: Env, steps: seq<Step>, s: State, k: nat)
    requires Ok(env) && Ascending(steps) && k <= |steps| && RunSteps(env, steps[..k], s).Done?
    requires !(To14 in steps[..k] && Fragile(s))
    ensures Fragile(RunSteps(env, steps[..k], s).s) <==> Fragile(s)
  {
    if To14 in steps[..k] {
      var i :| 0 <= i < k && steps[i] == To14;
      PrefixForm(env, steps, s, k, i);
    } else {
      RunKeepsForm(env, steps[..k], s);
    }
  }

  /** Some interrupted run got past step 14. */
  predicate PassedStt(steps: seq<Step>, crashes: seq<nat>) {
    exists j :: 0 <= j < |crashes| && crashes[j] <= |steps| && To14 in steps[..crashes[j]]
  }

  lemma PassedSttHead(steps: seq<Step>, crashes: seq<nat>)
    requires crashes != [] && crashes[0] <= |steps|
    ensures PassedStt(steps, crashes) <==> To14 in steps[..crashes[0]] || PassedStt(steps, crashes[1..])
  {
    if PassedStt(steps, crashes[1..]) {
      var j :| 0 <= j < |crashes[1..]| && crashes[1..][j] <= |steps| && To14 in steps[..crashes[1..][j]];
      assert crashes[j + 1] <= |steps| && To14 in steps[..crashes[j + 1]];
    }
    if j :| 0 < j < |crashes| && crashes[j] <= |steps| && To14 in steps[..crashes[j]] {
      assert crashes[1..][j - 1] == crashes[j];
    }
  }

  /** Any number of interrupted runs, wherever each one died: restarting ends like one run, except exactly when the
      file was fragile and one of them got past step 14. */
  lemma {:induction false} AnyCrashesConvergeIff(env: Env, version: int, s: State, crashes: seq<nat>, t: State)
    requires Ok(env) && LeftAfter(env, Eligible(version), s, crashes, t)
    ensures SameOutcome(env, RunSteps(env, Eligible(version), t), RunSteps(env, Eligible(version), s))
            <==> !(Fragile(s) && PassedStt(Eligible(version), crashes))
    decreases |crashes|
  {
    if crashes != [] {
      var steps, k := Eligible(version), crashes[0];
      var u := RunSteps(env, steps[..k], s).s;
      EligibleIsGated(version);
      PassedSttHead(steps, crashes);
      if To14 in steps[..k] && Fragile(s) {
        var i :| 0 <= i < k && steps[i] == To14;
        FirstPassSpends(env, steps, s, k, i);
        SpentAfterCrashes(env, steps, u, crashes[1..], t, i);
        SpentEndsGone(env, steps, t, i);
        DifferentForms(env, RunSteps(env, steps, t), RunSteps(env, steps, s));
      } else {
        RestartConverges(env, steps, s, k);
        FragileKept(env, steps, s, k);
        AnyCrashesConvergeIff(env, version, u, crashes[1..], t);
      }
    }
  }

  /** Running a completed ladder again changes nothing that loads, except exactly when step 14 ran on a fragile file;
      otherwise every step has nothing left to do. */
  lemma CompletedRunIsFinalIff(env: Env, version: int, s: State)
    requires Ok(env) && RunSteps(env, Eligible(version), s).Done?
    ensures var t := RunSteps(env, Eligible(version), s).s;
            && (SameOutcome(env, RunSteps(env, Eligible(version), t), Done(t))
                <==> !(To14 in Eligible(version) && Fragile(s)))
            && (!(To14 in Eligible(version) && Fragile(s)) ==>
                  forall step | step in Eligible(version) :: Quiet(env, step, t))
  {
    var steps := Eligible(version);
    EligibleIsGated(version);
    RunSettles(env, steps, s);
    assert steps[..|steps|] == steps;
    CrashConvergesIff(env, version, s, |steps|);
  }

  // ----- Verify-on-stop -----

  /** The setting in force. */
  function VerifyMode(env: Env, s: State): Option<Yaml> {
    Lookup(AsTable(Lookup(Config(env, s), "agent")), "verify_on_stop")
  }

  lemma ModeLoads(env: Env, s: State)
    requires SchemaOk(env)
    ensures var cur := Lookup(AsTable(Lookup(s.config, "agent")), "verify_on_stop");
            VerifyMode(env, s) == if cur.Some? then cur
                                  else if TableOrMissing(Lookup(s.config, "agent")) then
                                    Lookup(Group(env, "agent"), "verify_on_stop")
                                  else None
  {
    assert "agent" in SECTIONS;
    LoadAt(env.defaults, s.config, Str("agent"));
    var d, x := Default(env, "agent"), Lookup(s.config, "agent");
    if d.Some? {
      SectionLoads(d.value.fields, x);
      LoadAt(d.value.fields, AsTable(x), Str("verify_on_stop"));
    }
  }

  predicate Definite(mode: Option<Yaml>) {
    mode.Some? && mode.value != Leaf(Null) && !IsWord(mode.value, "auto")
  }

  lemma SettledVerify(env: Env, u: State)
    requires SchemaOk(env)
    ensures Settled(env, To31, u.config) ==> Definite(VerifyMode(env, u))
    ensures Settled(env, To32, u.config) ==> VerifyMode(env, u) != Some(Leaf(Bool(true)))
  {
    var x := Lookup(u.config, "agent");
    ModeLoads(env, u);
    ApplyIsSame(u.config, "agent", VerifyOff(x));
    ApplyIsSame(u.config, "agent", VerifyBaked(x));
  }

  lemma QuietVerify(env: Env, step: Step, s: State)
    requires Ok(env) && Quiet(env, step, s)
    ensures step.To31? ==> Definite(VerifyMode(env, s))
    ensures step.To32? ==> VerifyMode(env, s) != Some(Leaf(Bool(true)))
  {
    QuietHanded(env, step, s);
    SettledVerify(env, Handed(env, step, s));
  }

  lemma {:induction false} RunFrame(env: Env, steps: seq<Step>, s: State, name: string)
    requires WriterOk(env) && forall x | x in steps :: name !in Writes(x)
    ensures Lookup(Config(env, RunSteps(env, steps, s).s), name) == Lookup(Config(env, s), name)
    decreases |steps|
  {
    if steps != [] && Take(env, steps[0], s).Some? {
      TakeFrame(env, steps[0], s, name);
      RunFrame(env, steps[1..], Take(env, steps[0], s).value, name);
    }
  }

  lemma NoAgentSteps(version: int, x: Step)
    requires version >= 32 && x in Eligible(version)
    ensures "agent" !in Writes(x)
  {
    StepIsEligible(To31, version, 11);
    StepIsEligible(To32, version, 12);
  }

  /** Verify-on-stop in the configuration that loads: never true after a run from below 32, something definite after
      one from below 31, and from 32 on the section is as it was. */
  lemma VerifyOnStop(env: Env, version: int, s: State)
    requires Ok(env) && RunSteps(env, Eligible(version), s).Done?
    ensures var t := RunSteps(env, Eligible(version), s).s;
            && (version < 32 ==> VerifyMode(env, t) != Some(Leaf(Bool(true))))
            && (version < 31 ==> Definite(VerifyMode(env, t)))
            && (version >= 32 ==> Lookup(Config(env, t), "agent") == Lookup(Config(env, s), "agent"))
  {
    var steps := Eligible(version);
    StepIsEligible(To31, version, 11);
    StepIsEligible(To32, version, 12);
    EligibleIsGated(version);
    RunSettles(env, steps, s);
    if version < 32 {
      QuietVerify(env, To32, RunSteps(env, steps, s).s);
    }
    if version < 31 {
      QuietVerify(env, To31, RunSteps(env, steps, s).s);
    }
    if version >= 32 {
      forall x | x in steps
        ensures "agent" !in Writes(x)
      {
        NoAgentSteps(version, x);
      }
      RunFrame(env, steps, s, "agent");
    }
  }
}
