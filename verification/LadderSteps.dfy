/** What single steps of the ladder look at, leave alone and leave to do.

    These are facts about the configuration a step hands to the writer, before it is written. */
module LadderSteps {
  import opened Collections
  import opened ConfigSteps
  import opened MigrationLadder

  // ----- Which sections a step looks at and writes -----

  function Writes(step: Step): set<string> {
    match step
    case To12 => {"custom_providers", "providers"}
    case ClearEnv(_) => {}
    case To14 => {"stt"}
    case To15 => {"display"}
    case To16 => {"display"}
    case To17 => {"compression", "auxiliary"}
    case To21 => {"plugins"}
    case To23 => {"curator", "auxiliary"}
    case To25 => {"model_catalog"}
    case To29 => {"memory", "skills"}
    case To31 => {"agent"}
    case To32 => {"agent"}
    case To33 => {"delegation"}
  }

  /** The sections that decide whether the step has anything left to do. */
  function Decides(step: Step): set<string> {
    if step.To17? then {"compression"} else Writes(step)
  }

  ghost predicate AgreeOn(c: Table, d: Table, names: set<string>) {
    forall name | name in names :: Lookup(c, name) == Lookup(d, name)
  }

  lemma StepFrame(env: Env, step: Step, c: Table, name: string)
    requires ConfigStep(env, step, c).Some? && name !in Writes(step)
    ensures Lookup(ConfigStep(env, step, c).value, name) == Lookup(c, name)
  {
  }

  ghost predicate Settled(env: Env, step: Step, c: Table) {
    ConfigStep(env, step, c) == Some(c)
  }

  lemma PutIsSame(c: Table, name: string, v: Yaml)
    ensures Put(c, name, v) == c <==> Lookup(c, name) == Some(v)
  {
    if Put(c, name, v) == c {
      assert Str(name) in Put(c, name, v);
    }
  }

  /** A change to one section leaves the file alone exactly if the section already says so. */
  lemma ApplyIsSame(c: Table, name: string, change: Change)
    ensures Apply(c, name, change) == Some(c) <==>
            change == Keep || (change.Set? && Lookup(c, name) == Some(change.value))
  {
    if change.Set? {
      PutIsSame(c, name, change.value);
    }
  }

  /** Two changes to different sections. */
  lemma ApplyTwiceIsSame(c: Table, a: string, change: Change, b: string, other: Change)
    requires a != b && !change.Raise?
    ensures Apply(Apply(c, a, change).value, b, other) == Some(c) <==>
            Apply(c, a, change) == Some(c) && Apply(c, b, other) == Some(c)
  {
    var d := Apply(c, a, change).value;
    assert Lookup(d, b) == Lookup(c, b);
    ApplyIsSame(c, a, change);
    ApplyIsSame(c, b, other);
    ApplyIsSame(d, b, other);
    if Apply(d, b, other) == Some(c) {
      assert Lookup(d, a) == Lookup(Apply(d, b, other).value, a);
    }
  }

  lemma SettledDecided(env: Env, step: Step, c: Table, d: Table)
    requires Settled(env, step, c) && AgreeOn(c, d, Decides(step))
    ensures Settled(env, step, d)
  {
    match step
    case To12 => Step12Decided(env, c, d);
    case ClearEnv(_) =>
    case To17 => Step17Decided(env, c, d);
    case To23 =>
      Step23Parts(env, c);
      Step23Parts(env, d);
      SameChange(c, d, "curator", Seed(env.curator, Lookup(c, "curator")));
      SameChange(c, d, "auxiliary", SeedAux(env.auxCurator, Lookup(c, "auxiliary")));
    case To29 =>
      Step29Parts(c);
      Step29Parts(d);
      SameChange(c, d, "memory", WriteApproval(Lookup(c, "memory")));
      SameChange(c, d, "skills", WriteApproval(Lookup(c, "skills")));
    case To14 => SameChange(c, d, "stt", Stt(Lookup(c, "stt")));
    case To15 => SameChange(c, d, "display", Interim(Lookup(c, "display")));
    case To16 => SameChange(c, d, "display", Overrides(Lookup(c, "display")));
    case To21 => SameChange(c, d, "plugins", Plugins(env, Lookup(c, "plugins")));
    case To25 => SameChange(c, d, "model_catalog", Ttl(Lookup(c, "model_catalog")));
    case To31 => SameChange(c, d, "agent", VerifyOff(Lookup(c, "agent")));
    case To32 => SameChange(c, d, "agent", VerifyBaked(Lookup(c, "agent")));
    case To33 => SameChange(c, d, "delegation", Delegation(env, Lookup(c, "delegation")));
  }

  lemma SameChange(c: Table, d: Table, name: string, change: Change)
    requires Lookup(c, name) == Lookup(d, name)
    ensures Apply(c, name, change) == Some(c) <==> Apply(d, name, change) == Some(d)
  {
    ApplyIsSame(c, name, change);
    ApplyIsSame(d, name, change);
  }

  lemma Step12Decided(env: Env, c: Table, d: Table)
    requires Step12(env, c) == Some(c) && AgreeOn(c, d, {"custom_providers", "providers"})
    ensures Step12(env, d) == Some(d)
  {
    assert Lookup(c, "custom_providers") == Lookup(d, "custom_providers");
    assert Lookup(c, "providers") == Lookup(d, "providers");
    match Lookup(c, "custom_providers")
    case Some(List(entries)) =>
      if entries != [] {
        var p := AddEntries(env, Providers(AsTable(Lookup(c, "providers")), 0), entries).value;
        assert Str("custom_providers") !in Drop(Put(c, "providers", Dict(p.table)), "custom_providers");
        assert p.count == 0;
      }
    case _ =>
  }

  lemma Step17Settled(env: Env, c: Table)
    ensures Settled(env, To17, c) <==> !HasSummary(AsTable(Lookup(c, "compression")))
  {
    var comp := AsTable(Lookup(c, "compression"));
    if HasSummary(comp) && Step17(env, c).Some? {
      var k :| k in SUMMARY_KEYS && k in comp && comp[k] != Leaf(Null);
      assert AsTable(Lookup(Step17(env, c).value, "compression")) == comp - SUMMARY_KEYS;
      assert k !in comp - SUMMARY_KEYS;
    }
  }

  lemma Step17Decided(env: Env, c: Table, d: Table)
    requires Settled(env, To17, c) && AgreeOn(c, d, {"compression"})
    ensures Settled(env, To17, d)
  {
    Step17Settled(env, c);
    Step17Settled(env, d);
    assert Lookup(c, "compression") == Lookup(d, "compression");
  }

  lemma Step23Parts(env: Env, c: Table)
    ensures Settled(env, To23, c) <==>
            && Apply(c, "curator", Seed(env.curator, Lookup(c, "curator"))) == Some(c)
            && Apply(c, "auxiliary", SeedAux(env.auxCurator, Lookup(c, "auxiliary"))) == Some(c)
  {
    var change := Seed(env.curator, Lookup(c, "curator"));
    assert Lookup(Apply(c, "curator", change).value, "auxiliary") == Lookup(c, "auxiliary");
    ApplyTwiceIsSame(c, "curator", change, "auxiliary", SeedAux(env.auxCurator, Lookup(c, "auxiliary")));
  }

  lemma Step29Parts(c: Table)
    ensures Step29(c) == Some(c) <==>
            && Apply(c, "memory", WriteApproval(Lookup(c, "memory"))) == Some(c)
            && Apply(c, "skills", WriteApproval(Lookup(c, "skills"))) == Some(c)
  {
    var change := WriteApproval(Lookup(c, "memory"));
    assert Lookup(Apply(c, "memory", change).value, "skills") == Lookup(c, "skills");
    ApplyTwiceIsSame(c, "memory", change, "skills", WriteApproval(Lookup(c, "skills")));
  }

  // ----- A step has nothing left to do on its own result -----

  lemma ApplySettles(c: Table, name: string, change: Change, again: Change)
    requires !change.Raise?
    requires if change.Keep? then again == Keep else Settles(again, change.value)
    ensures Apply(Apply(c, name, change).value, name, again) == Some(Apply(c, name, change).value)
  {
    ApplyIsSame(Apply(c, name, change).value, name, again);
  }

  lemma SttSettles(env: Env, c: Table)
    requires ConfigStep(env, To14, c).Some?
    ensures Settled(env, To14, ConfigStep(env, To14, c).value) <==> !LosesModel(Lookup(c, "stt"))
  {
    var d := ConfigStep(env, To14, c).value;
    ApplyIsSame(d, "stt", Stt(Lookup(d, "stt")));
    if Stt(Lookup(c, "stt")).Set? {
      SttAgain(Lookup(c, "stt"));
    }
  }

  lemma SeedsSettle(env: Env, c: Table)
    ensures Step23(env, c).Some? && Settled(env, To23, Step23(env, c).value)
  {
    var d := Step23(env, c).value;
    SeedAuxAgain(env.auxCurator, Lookup(c, "auxiliary"));
    Step23Parts(env, d);
    var mid := Apply(c, "curator", Seed(env.curator, Lookup(c, "curator"))).value;
    assert Lookup(mid, "auxiliary") == Lookup(c, "auxiliary");
    assert Lookup(d, "curator") == Lookup(mid, "curator");
  }

  lemma ApprovalsSettle(env: Env, c: Table)
    ensures Step29(c).Some? && Settled(env, To29, Step29(c).value)
  {
    var d := Step29(c).value;
    SectionsAgain(env, Lookup(c, "memory"));
    SectionsAgain(env, Lookup(c, "skills"));
    Step29Parts(d);
    var mid := Apply(c, "memory", WriteApproval(Lookup(c, "memory"))).value;
    assert Lookup(mid, "skills") == Lookup(c, "skills");
    assert Lookup(d, "memory") == Lookup(mid, "memory");
  }

  lemma StepSettles(env: Env, step: Step, c: Table)
    requires ConfigStep(env, step, c).Some?
    ensures Settled(env, step, ConfigStep(env, step, c).value) <==> !(step.To14? && LosesModel(Lookup(c, "stt")))
  {
    var d := ConfigStep(env, step, c).value;
    match step
    case To12 => Step12Settles(env, c);
    case ClearEnv(_) =>
    case To14 => SttSettles(env, c);
    case To15 =>
      SectionsAgain(env, Lookup(c, "display"));
      ApplySettles(c, "display", Interim(Lookup(c, "display")), Interim(Lookup(d, "display")));
    case To16 =>
      if Overrides(Lookup(c, "display")).Set? {
        OverridesAgain(Lookup(c, "display"));
      }
      ApplySettles(c, "display", Overrides(Lookup(c, "display")), Overrides(Lookup(d, "display")));
    case To17 => Step17Settled(env, d);
    case To21 =>
      SectionsAgain(env, Lookup(c, "plugins"));
      ApplySettles(c, "plugins", Plugins(env, Lookup(c, "plugins")), Plugins(env, Lookup(d, "plugins")));
    case To23 => SeedsSettle(env, c);
    case To25 =>
      SectionsAgain(env, Lookup(c, "model_catalog"));
      ApplySettles(c, "model_catalog", Ttl(Lookup(c, "model_catalog")), Ttl(Lookup(d, "model_catalog")));
    case To29 => ApprovalsSettle(env, c);
    case To31 =>
      VerifyAgain(Lookup(c, "agent"));
      ApplySettles(c, "agent", VerifyOff(Lookup(c, "agent")), VerifyOff(Lookup(d, "agent")));
    case To32 =>
      VerifyAgain(Lookup(c, "agent"));
      ApplySettles(c, "agent", VerifyBaked(Lookup(c, "agent")), VerifyBaked(Lookup(d, "agent")));
    case To33 =>
      SectionsAgain(env, Lookup(c, "delegation"));
      ApplySettles(c, "delegation", Delegation(env, Lookup(c, "delegation")), Delegation(env, Lookup(d, "delegation")));
  }

  lemma Step12Settles(env: Env, c: Table)
    requires Step12(env, c).Some?
    ensures Settled(env, To12, Step12(env, c).value)
  {
  }

  /** A step that does not write has not changed anything. */
  lemma UnpersistedIsSame(env: Env, step: Step, c: Table)
    requires ConfigStep(env, step, c).Some? && !Persists(env, step, c)
    ensures ConfigStep(env, step, c) == Some(c)
  {
  }

  // ----- A later step leaves earlier ones settled -----

  lemma LaterStepKeepsSettled(env: Env, step: Step, later: Step, c: Table)
    requires Rank(step) <= Rank(later) && step != later
    requires Settled(env, step, c) && ConfigStep(env, later, c).Some?
    ensures Settled(env, step, ConfigStep(env, later, c).value)
  {
    var d := ConfigStep(env, later, c).value;
    if step.To15? && later.To16? {
      ApplyIsSame(c, "display", Interim(Lookup(c, "display")));
    } else if step.To31? && later.To32? {
    } else {
      forall name | name in Decides(step)
        ensures Lookup(c, name) == Lookup(d, name)
      {
        assert name !in Writes(later);
        StepFrame(env, later, c, name);
      }
      SettledDecided(env, step, c, d);
    }
  }
}
