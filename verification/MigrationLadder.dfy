/** The configuration ladder: steps gated on the version found on disk, which does not advance while they run.

    A run that dies between two writes starts over from the same version on the file it left behind. */
module MigrationLadder {
  import opened Collections
  import opened ConfigSteps
  import ProviderKeys

  datatype Step =
    | To12 | ClearEnv(name: string) | To14 | To15 | To16 | To17 | To21 | To23 | To25 | To29 | To31 | To32 | To33

  /** The registry, one entry per write: step 13 clears its two variables one after the other. */
  const LADDER: seq<(nat, Step)> := [
    (12, To12), (13, ClearEnv("LLM_MODEL")), (13, ClearEnv("OPENAI_MODEL")), (14, To14), (15, To15), (16, To16),
    (17, To17), (21, To21), (23, To23), (25, To25), (29, To29), (31, To31), (32, To32), (33, To33)]

  const SUPPORT_FLOOR := 12

  datatype State = State(config: Table, dotenv: map<string, string>)

  function ConfigStep(env: Env, step: Step, c: Table): Option<Table> {
    match step
    case To12 => Step12(env, c)
    case ClearEnv(_) => Some(c)
    case To14 => Apply(c, "stt", Stt(Lookup(c, "stt")))
    case To15 => Apply(c, "display", Interim(Lookup(c, "display")))
    case To16 => Apply(c, "display", Overrides(Lookup(c, "display")))
    case To17 => Step17(env, c)
    case To21 => Apply(c, "plugins", Plugins(env, Lookup(c, "plugins")))
    case To23 => Step23(env, c)
    case To25 => Apply(c, "model_catalog", Ttl(Lookup(c, "model_catalog")))
    case To29 => Step29(c)
    case To31 => Apply(c, "agent", VerifyOff(Lookup(c, "agent")))
    case To32 => Apply(c, "agent", VerifyBaked(Lookup(c, "agent")))
    case To33 => Apply(c, "delegation", Delegation(env, Lookup(c, "delegation")))
  }

  /** A variable has a value: exported to the process, or else in the `.env` file. */
  predicate SeesEnv(env: Env, name: string, dotenv: map<string, string>) {
    || (name in env.process && env.process[name] != "")
    || (name in dotenv && dotenv[name] != "")
  }

  /** Clearing writes the `.env` file, also when the value comes from the process. */
  function EnvStep(env: Env, step: Step, dotenv: map<string, string>): map<string, string> {
    if step.ClearEnv? && SeesEnv(env, step.name, dotenv) then dotenv[step.name := ""] else dotenv
  }

  /** Whether the step hands the writer anything: a step that finds nothing to do does not, but step 16 also does when
      its merge changed nothing. */
  predicate Persists(env: Env, step: Step, c: Table) {
    match step
    case To12 => Step12(env, c) != Some(c)
    case ClearEnv(_) => false
    case To14 => Stt(Lookup(c, "stt")).Set?
    case To15 => Interim(Lookup(c, "display")).Set?
    case To16 => Overrides(Lookup(c, "display")).Set?
    case To17 => HasSummary(AsTable(Lookup(c, "compression")))
    case To21 => Plugins(env, Lookup(c, "plugins")).Set?
    case To23 =>
      || Seed(env.curator, Lookup(c, "curator")).Set?
      || SeedAux(env.auxCurator, Lookup(c, "auxiliary")).Set?
    case To25 => Ttl(Lookup(c, "model_catalog")).Set?
    case To29 => WriteApproval(Lookup(c, "memory")).Set? || WriteApproval(Lookup(c, "skills")).Set?
    case To31 => VerifyOff(Lookup(c, "agent")).Set?
    case To32 => VerifyBaked(Lookup(c, "agent")).Set?
    case To33 => Delegation(env, Lookup(c, "delegation")).Set?
  }

  /** The file that is on disk after a step has turned `c` into `d`. */
  function OnDisk(env: Env, step: Step, c: Table, d: Table): Table {
    if Persists(env, step, c) then env.persist(c, d) else c
  }

  /** None when the step raises; it has written nothing then. */
  function Take(env: Env, step: Step, s: State): Option<State> {
    match ConfigStep(env, step, s.config)
    case None => None
    case Some(c) => Some(State(OnDisk(env, step, s.config, c), EnvStep(env, step, s.dotenv)))
  }

  datatype Outcome = Done(s: State) | Aborted(s: State)

  function RunSteps(env: Env, steps: seq<Step>, s: State): Outcome
    decreases |steps|
  {
    if steps == [] then Done(s)
    else
      match Take(env, steps[0], s)
      case None => Aborted(s)
      case Some(t) => RunSteps(env, steps[1..], t)
  }

  function EligibleIn(ladder: seq<(nat, Step)>, version: int): seq<Step> {
    if ladder == [] then []
    else (if version < ladder[0].0 then [ladder[0].1] else []) + EligibleIn(ladder[1..], version)
  }

  function Eligible(version: int): seq<Step> {
    EligibleIn(LADDER, version)
  }

  // ----- The gate -----

  function Rank(step: Step): nat {
    match step
    case To12 => 0
    case ClearEnv(name) => if name == "LLM_MODEL" then 1 else 2
    case To14 => 3
    case To15 => 4
    case To16 => 5
    case To17 => 6
    case To21 => 7
    case To23 => 8
    case To25 => 9
    case To29 => 10
    case To31 => 11
    case To32 => 12
    case To33 => 13
  }

  ghost predicate Ascending(steps: seq<Step>) {
    forall i, j | 0 <= i < j < |steps| :: Rank(steps[i]) < Rank(steps[j])
  }

  ghost predicate Gated(ladder: seq<(nat, Step)>, version: int, step: Step) {
    exists i :: 0 <= i < |ladder| && ladder[i].1 == step && version < ladder[i].0
  }

  lemma GatedHead(ladder: seq<(nat, Step)>, version: int, step: Step)
    requires ladder != []
    ensures Gated(ladder, version, step) <==>
            (ladder[0].1 == step && version < ladder[0].0) || Gated(ladder[1..], version, step)
  {
    if Gated(ladder[1..], version, step) {
      var i :| 0 <= i < |ladder[1..]| && ladder[1..][i].1 == step && version < ladder[1..][i].0;
      assert ladder[i + 1].1 == step && version < ladder[i + 1].0;
    }
    if i :| 0 < i < |ladder| && ladder[i].1 == step && version < ladder[i].0 {
      assert ladder[1..][i - 1] == ladder[i];
    }
  }

  lemma {:induction false} EligibleInMember(ladder: seq<(nat, Step)>, version: int, step: Step)
    ensures step in EligibleIn(ladder, version) <==> Gated(ladder, version, step)
  {
    if ladder != [] {
      GatedHead(ladder, version, step);
      EligibleInMember(ladder[1..], version, step);
    }
  }

  lemma {:induction false} EligibleInAscends(ladder: seq<(nat, Step)>, version: int)
    requires forall i, j | 0 <= i < j < |ladder| :: Rank(ladder[i].1) < Rank(ladder[j].1)
    ensures Ascending(EligibleIn(ladder, version))
  {
    if ladder != [] {
      var rest := EligibleIn(ladder[1..], version);
      EligibleInAscends(ladder[1..], version);
      forall step | step in rest
        ensures Rank(ladder[0].1) < Rank(step)
      {
        EligibleInMember(ladder[1..], version, step);
        var i :| 0 <= i < |ladder[1..]| && ladder[1..][i].1 == step && version < ladder[1..][i].0;
        assert ladder[i + 1].1 == step;
      }
    }
  }

  lemma LadderRanks(i: nat)
    requires i < |LADDER|
    ensures Rank(LADDER[i].1) == i
  {
  }

  /** The gate lets through the steps above the version and no others, in ascending order. */
  lemma EligibleIsGated(version: int)
    ensures Ascending(Eligible(version))
    ensures forall step :: step in Eligible(version) <==> Gated(LADDER, version, step)
  {
    forall i, j | 0 <= i < j < |LADDER|
      ensures Rank(LADDER[i].1) < Rank(LADDER[j].1)
    {
      LadderRanks(i);
      LadderRanks(j);
    }
    EligibleInAscends(LADDER, version);
    forall step
      ensures step in Eligible(version) <==> Gated(LADDER, version, step)
    {
      EligibleInMember(LADDER, version, step);
    }
  }

  lemma StepIsEligible(step: Step, version: int, i: nat)
    requires i < |LADDER| && LADDER[i].1 == step
    ensures step in Eligible(version) <==> version < LADDER[i].0
  {
    EligibleInMember(LADDER, version, step);
    if Gated(LADDER, version, step) {
      var j :| 0 <= j < |LADDER| && LADDER[j].1 == step && version < LADDER[j].0;
      LadderRanks(i);
      LadderRanks(j);
    }
  }

  /** The driver holds no version back: it runs the whole ladder exactly on files below the support floor. */
  lemma FloorIsNotGated(version: int)
    ensures (forall i | 0 <= i < |LADDER| :: LADDER[i].1 in Eligible(version)) <==> version < SUPPORT_FLOOR
  {
    assert LADDER[0].1 == To12;
    forall i | 0 <= i < |LADDER|
      ensures LADDER[i].1 in Eligible(version) <==> version < LADDER[i].0
    {
      StepIsEligible(LADDER[i].1, version, i);
    }
    assert forall i | 0 <= i < |LADDER| :: LADDER[i].0 >= LADDER[0].0;
  }

  // ----- The files on disk -----

  method MakeKey(env: Env, p: Providers, name: string, url: Yaml) returns (key: string)
    ensures key == KeyFor(env, p, name, url)
  {
    var root := ProviderKeys.MakeSlug(name);
    if root == "" {
      root := env.hostKey(url, p.count);
    }
    key := ProviderKeys.FindKey(Names(p.table), root, p.count);
  }

  method AddNamedProvider(env: Env, p: Providers, entry: Table, name: Yaml, url: Yaml) returns (q: Option<Providers>)
    ensures q == AddNamed(env, p, entry, name, url)
  {
    if !name.Leaf? || !name.v.Str? {
      return None;
    }
    var key := MakeKey(env, p, name.v.s, url);
    q := AddConverted(env, p, entry, name.v.s, key);
  }

  /** The loop body of step 12: make a key, step past the taken ones, convert. */
  method AddProvider(env: Env, p: Providers, entry: Yaml) returns (q: Option<Providers>)
    ensures q == AddEntry(env, p, entry)
  {
    if !entry.Dict? || Falsy(Url(entry.fields)) {
      return Some(p);
    }
    q := AddNamedProvider(env, p, entry.fields, EntryName(entry.fields), Url(entry.fields));
  }

  /** The loop over the overrides, in whatever order the dictionary yields them. */
  method MergeOverrides(before: Table, overrides: Table) returns (merged: Option<Table>)
    ensures merged.Some? <==> Mergeable(before, overrides)
    ensures merged.Some? ==> merged.value == MergePlatforms(before, overrides)
  {
    var platforms := before;
    var left := overrides.Keys;
    while left != {}
      invariant left <= overrides.Keys
      invariant platforms.Keys == before.Keys + (overrides.Keys - left)
      invariant forall plat | plat in overrides.Keys - left ::
          PlatformEntry(before, plat, overrides[plat]) == Some(platforms[plat])
      invariant forall plat | plat in before && plat !in overrides.Keys - left :: platforms[plat] == before[plat]
      decreases left
    {
      ghost var some := MemberOf(left);
      var plat :| plat in left;
      var entry := PlatformEntry(platforms, plat, overrides[plat]);
      assert entry == PlatformEntry(before, plat, overrides[plat]);
      if entry.None? {
        return None;
      }
      platforms := platforms[plat := entry.value];
      left := left - {plat};
    }
    merged := Some(platforms);
  }

  class ConfigHome {
    var config: Table
    var dotenv: map<string, string>

    ghost function View(): State
      reads this
    {
      State(config, dotenv)
    }

    constructor (config: Table, dotenv: map<string, string>)
      ensures View() == State(config, dotenv)
    {
      this.config := config;
      this.dotenv := dotenv;
    }

    method MigrateTo12(env: Env) returns (ok: bool)
      modifies this`config
      ensures ok <==> Step12(env, old(config)).Some?
      ensures config == if ok then OnDisk(env, To12, old(config), Step12(env, old(config)).value) else old(config)
    {
      var legacy := Lookup(config, "custom_providers");
      if legacy.None? || !legacy.value.List? || legacy.value.items == [] {
        return true;
      }
      var entries := legacy.value.items;
      var p := Providers(AsTable(Lookup(config, "providers")), 0);
      ghost var start := p;
      var i := 0;
      while i < |entries|
        invariant i <= |entries|
        invariant config == old(config)
        invariant AddEntries(env, start, entries) == AddEntries(env, p, entries[i..])
      {
        var q := AddProvider(env, p, entries[i]);
        assert entries[i..][1..] == entries[i + 1..];
        if q.None? {
          return false;
        }
        p := q.value;
        i := i + 1;
      }
      assert entries[i..] == [];
      if p.count > 0 {
        config := env.persist(config, Drop(Put(config, "providers", Dict(p.table)), "custom_providers"));
      }
      ok := true;
    }

    method MigrateTo16(env: Env) returns (ok: bool)
      modifies this`config
      ensures ok <==> ConfigStep(env, To16, old(config)).Some?
      ensures config == if ok then OnDisk(env, To16, old(config), ConfigStep(env, To16, old(config)).value)
                        else old(config)
    {
      var display := AsTable(Lookup(config, "display"));
      var overrides := AsTable(Lookup(display, "tool_progress_overrides"));
      if overrides == map[] {
        return true;
      }
      var platforms := MergeOverrides(AsTable(Lookup(display, "platforms")), overrides);
      if platforms.None? {
        return false;
      }
      var merged := Put(config, "display", Dict(Put(display, "platforms", Dict(platforms.value))));
      config := env.persist(config, merged);
      ok := true;
    }

    /** The loop over the schema defaults. */
    method SeedMissing(defaults: Table, section: Table) returns (seeded: Table, added: bool)
      ensures seeded == defaults + section
      ensures added <==> !(defaults.Keys <= section.Keys)
    {
      seeded, added := section, false;
      var left := defaults.Keys;
      while left != {}
        invariant left <= defaults.Keys
        invariant seeded.Keys == section.Keys + (defaults.Keys - left)
        invariant forall k | k in seeded :: seeded[k] == if k in section then section[k] else defaults[k]
        invariant added <==> !(defaults.Keys - left <= section.Keys)
        decreases left
      {
        ghost var some := MemberOf(left);
        var k :| k in left;
        if k !in section {
          seeded := seeded[k := defaults[k]];
          added := true;
        }
        left := left - {k};
      }
      assert defaults.Keys - {} == defaults.Keys;
    }

    method MigrateTo23(env: Env)
      modifies this`config
      ensures Step23(env, old(config)).Some?
      ensures config == OnDisk(env, To23, old(config), Step23(env, old(config)).value)
    {
      var c := config;
      var seeded, touched := SeedMissing(env.curator, AsTable(Lookup(c, "curator")));
      if touched {
        c := Put(c, "curator", Dict(seeded));
      }
      var aux := AsTable(Lookup(c, "auxiliary"));
      var slot, added := SeedMissing(env.auxCurator, AsTable(Lookup(aux, "curator")));
      if added {
        c := Put(c, "auxiliary", Dict(Put(aux, "curator", Dict(slot))));
      }
      if touched || added {
        config := env.persist(config, c);
      }
    }

    /** One write of the ladder. */
    method TakeStep(env: Env, step: Step) returns (ok: bool)
      modifies this
      ensures ok <==> Take(env, step, old(View())).Some?
      ensures View() == if ok then Take(env, step, old(View())).value else old(View())
    {
      ok := true;
      if step.To12? {
        ok := MigrateTo12(env);
      } else if step.To16? {
        ok := MigrateTo16(env);
      } else if step.To23? {
        MigrateTo23(env);
      } else if step.ClearEnv? {
        if SeesEnv(env, step.name, dotenv) {
          dotenv := dotenv[step.name := ""];
        }
      } else {
        var written := ConfigStep(env, step, config);
        if written.None? {
          return false;
        }
        if Persists(env, step, config) {
          config := env.persist(config, written.value);
        }
      }
    }

    /** The driver's loop: every entry is gated on the version read at the start. */
    method RunLadder(env: Env, ladder: seq<(nat, Step)>, version: int) returns (ok: bool)
      modifies this
      ensures (if ok then Done(View()) else Aborted(View())) == RunSteps(env, EligibleIn(ladder, version), old(View()))
    {
      var i := 0;
      while i < |ladder|
        invariant i <= |ladder|
        invariant RunSteps(env, EligibleIn(ladder, version), old(View())) ==
                  RunSteps(env, EligibleIn(ladder[i..], version), View())
      {
        assert ladder[i..][1..] == ladder[i + 1..];
        ghost var rest := EligibleIn(ladder[i + 1..], version);
        assert EligibleIn(ladder[i..], version) == (if version < ladder[i].0 then [ladder[i].1] + rest else rest);
        if version < ladder[i].0 {
          assert ([ladder[i].1] + rest)[1..] == rest;
          var taken := TakeStep(env, ladder[i].1);
          if !taken {
            return false;
          }
        }
        i := i + 1;
      }
      ok := true;
    }

    method RunMigrations(env: Env, version: int) returns (ok: bool)
      modifies this
      ensures (if ok then Done(View()) else Aborted(View())) == RunSteps(env, Eligible(version), old(View()))
    {
      ok := RunLadder(env, LADDER, version);
    }
  }
}
