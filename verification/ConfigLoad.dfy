/** The configuration in force: a file deep-merged over the schema defaults.

    A writer that leaves out defaults changes the file, but not this; so two files are compared by what loads from
    them. */
module ConfigLoad {
  import opened Collections
  import opened ConfigSteps

  function Find(t: Table, k: Scalar): Option<Yaml> {
    if k in t then Some(t[k]) else None
  }

  /** A file's value over its default: dictionaries merge key by key, anything else replaces the default. */
  function Loaded(d: Option<Yaml>, v: Yaml): Yaml
    decreases v
  {
    if v.Dict? && d.Some? && d.value.Dict? then
      Dict(map k | k in v.fields.Keys + d.value.fields.Keys ::
             if k in v.fields then Loaded(Find(d.value.fields, k), v.fields[k]) else d.value.fields[k])
    else v
  }

  function LoadTable(defaults: Table, t: Table): Table {
    map k | k in t.Keys + defaults.Keys :: if k in t then Loaded(Find(defaults, k), t[k]) else defaults[k]
  }

  /** A section may be missing from the file. */
  function LoadSection(d: Option<Yaml>, x: Option<Yaml>): Option<Yaml> {
    if x.None? then d else Some(Loaded(d, x.value))
  }

  lemma LoadedDict(g: Table, f: Table)
    ensures Loaded(Some(Dict(g)), Dict(f)) == Dict(LoadTable(g, f))
  {
  }

  lemma LoadAt(g: Table, f: Table, k: Scalar)
    ensures Find(LoadTable(g, f), k) == LoadSection(Find(g, k), Find(f, k))
  {
  }

  lemma NothingLoadsDefaults(g: Table)
    ensures LoadTable(g, map[]) == g
  {
  }

  /** Without defaults a file loads as it is written. */
  lemma NoDefaults(f: Table)
    ensures LoadTable(map[], f) == f
  {
  }

  lemma SameFinds(a: Table, b: Table)
    requires forall k :: Find(a, k) == Find(b, k)
    ensures a == b
  {
    forall k
      ensures k in a <==> k in b
    {
      assert Find(a, k) == Find(b, k);
    }
    forall k | k in a
      ensures a[k] == b[k]
    {
      assert Find(a, k) == Find(b, k);
    }
  }

  /** A default written out loads as itself. */
  lemma {:induction false} DefaultLoadsAsItself(v: Yaml)
    ensures Loaded(Some(v), v) == v
    decreases v
  {
    if v.Dict? {
      forall k | k in v.fields
        ensures Loaded(Find(v.fields, k), v.fields[k]) == v.fields[k]
      {
        DefaultLoadsAsItself(v.fields[k]);
      }
      assert Loaded(Some(v), v).fields == v.fields;
    }
  }

  // ----- Files that load alike -----

  ghost predicate Alike(d: Option<Yaml>, x: Option<Yaml>, y: Option<Yaml>) {
    LoadSection(d, x) == LoadSection(d, y)
  }

  ghost predicate AlikeTables(g: Table, f: Table, f': Table) {
    LoadTable(g, f) == LoadTable(g, f')
  }

  lemma AlikeAt(g: Table, f: Table, f': Table, k: Scalar)
    requires AlikeTables(g, f, f')
    ensures Alike(Find(g, k), Find(f, k), Find(f', k))
  {
    LoadAt(g, f, k);
    LoadAt(g, f', k);
  }

  lemma AlikeEverywhere(g: Table, f: Table, f': Table)
    requires forall k :: Alike(Find(g, k), Find(f, k), Find(f', k))
    ensures AlikeTables(g, f, f')
  {
    forall k
      ensures Find(LoadTable(g, f), k) == Find(LoadTable(g, f'), k)
    {
      LoadAt(g, f, k);
      LoadAt(g, f', k);
      assert Alike(Find(g, k), Find(f, k), Find(f', k));
    }
    SameFinds(LoadTable(g, f), LoadTable(g, f'));
  }

  /** What the schema has of a section, if anything, is a dictionary. */
  predicate TableDefault(d: Option<Yaml>) {
    d.None? || d.value.Dict?
  }

  /** Two sections that load alike are equal, or both dictionaries or missing, and those load alike. */
  lemma AlikeSections(d: Option<Yaml>, x: Option<Yaml>, y: Option<Yaml>)
    requires TableDefault(d) && Alike(d, x, y)
    ensures x == y || (d.Some? && TableOrMissing(x) && TableOrMissing(y)
                       && AlikeTables(d.value.fields, AsTable(x), AsTable(y)))
  {
    if d.Some? {
      SectionLoads(d.value.fields, x);
      SectionLoads(d.value.fields, y);
    }
  }

  lemma SectionLoads(g: Table, x: Option<Yaml>)
    ensures LoadSection(Some(Dict(g)), x) == if TableOrMissing(x) then Some(Dict(LoadTable(g, AsTable(x)))) else x
  {
    if x.None? {
      NothingLoadsDefaults(g);
    } else if x.value.Dict? {
      LoadedDict(g, x.value.fields);
    }
  }

  lemma AlikeFromTables(g: Table, x: Option<Yaml>, y: Option<Yaml>)
    requires TableOrMissing(x) && TableOrMissing(y) && AlikeTables(g, AsTable(x), AsTable(y))
    ensures Alike(Some(Dict(g)), x, y)
  {
    SectionLoads(g, x);
    SectionLoads(g, y);
  }

  // ----- Updates of files that load alike -----

  lemma SetAlike(g: Table, f: Table, f': Table, k: Scalar, v: Yaml, v': Yaml)
    requires AlikeTables(g, f, f') && Loaded(Find(g, k), v) == Loaded(Find(g, k), v')
    ensures AlikeTables(g, f[k := v], f'[k := v'])
  {
    forall j
      ensures Alike(Find(g, j), Find(f[k := v], j), Find(f'[k := v'], j))
    {
      if j != k {
        AlikeAt(g, f, f', j);
      }
    }
    AlikeEverywhere(g, f[k := v], f'[k := v']);
  }

  lemma RemoveAlike(g: Table, f: Table, f': Table, ks: set<Scalar>)
    requires AlikeTables(g, f, f')
    ensures AlikeTables(g, f - ks, f' - ks)
  {
    forall j
      ensures Alike(Find(g, j), Find(f - ks, j), Find(f' - ks, j))
    {
      if j !in ks {
        AlikeAt(g, f, f', j);
      }
    }
    AlikeEverywhere(g, f - ks, f' - ks);
  }

  /** Writing down what already loads changes nothing. */
  lemma SetSameAlike(g: Table, f: Table, k: Scalar, v: Yaml)
    requires LoadSection(Find(g, k), Find(f, k)) == Some(Loaded(Find(g, k), v))
    ensures AlikeTables(g, f, f[k := v])
  {
    AlikeEverywhere(g, f, f[k := v]);
  }

  /** A key the schema does not know is in both files or in neither, with the same value. */
  lemma UnknownKeyAlike(g: Table, f: Table, f': Table, k: Scalar)
    requires AlikeTables(g, f, f') && k !in g
    ensures Find(f, k) == Find(f', k)
  {
    AlikeAt(g, f, f', k);
  }

  // ----- Leaving out defaults -----

  /** `keep` protects paths, `drops` says which default values a writer leaves out at all. */
  datatype Rule = Rule(keep: seq<Scalar> -> bool, drops: Yaml -> bool)

  predicate Pruned(v: Yaml) {
    v.Dict? && v.fields != map[]
  }

  /** What is left of one value: a non-empty dictionary is stripped and goes when nothing remains of it; anything else
      goes if it equals its default. */
  function StripValue(rule: Rule, path: seq<Scalar>, d: Option<Yaml>, v: Yaml): Option<Yaml>
    decreases v
  {
    if rule.keep(path) then Some(v)
    else if Pruned(v) then
      var g := if d.Some? && d.value.Dict? then d.value.fields else map[];
      var left := map k | k in v.fields && StripValue(rule, path + [k], Find(g, k), v.fields[k]).Some? ::
                        StripValue(rule, path + [k], Find(g, k), v.fields[k]).value;
      if left == map[] then None else Some(Dict(left))
    else if d == Some(v) && rule.drops(v) then None
    else Some(v)
  }

  function StripTable(rule: Rule, defaults: Table, t: Table): Table {
    map k | k in t && StripValue(rule, [k], Find(defaults, k), t[k]).Some? ::
      StripValue(rule, [k], Find(defaults, k), t[k]).value
  }

  /** Stripping a value, whatever is protected or left out, does not change what loads. */
  lemma {:induction false} StripValueLoads(rule: Rule, path: seq<Scalar>, d: Option<Yaml>, v: Yaml)
    ensures Alike(d, StripValue(rule, path, d, v), Some(v))
    decreases v
  {
    var r := StripValue(rule, path, d, v);
    if !rule.keep(path) && Pruned(v) {
      var g := if d.Some? && d.value.Dict? then d.value.fields else map[];
      var left := map k | k in v.fields && StripValue(rule, path + [k], Find(g, k), v.fields[k]).Some? ::
                        StripValue(rule, path + [k], Find(g, k), v.fields[k]).value;
      forall k
        ensures Alike(Find(g, k), Find(left, k), Find(v.fields, k))
      {
        if k in v.fields {
          StripValueLoads(rule, path + [k], Find(g, k), v.fields[k]);
        }
      }
      AlikeEverywhere(g, left, v.fields);
      StrippedTableAlike(d, g, left, v);
    }
  }

  lemma StrippedTableAlike(d: Option<Yaml>, g: Table, left: Table, v: Yaml)
    requires Pruned(v) && AlikeTables(g, left, v.fields)
    requires g == if d.Some? && d.value.Dict? then d.value.fields else map[]
    ensures Alike(d, if left == map[] then None else Some(Dict(left)), Some(v))
  {
    if d.Some? && d.value.Dict? {
      AlikeFromTables(g, if left == map[] then None else Some(Dict(left)), Some(v));
    } else {
      NoDefaults(left);
      NoDefaults(v.fields);
    }
  }

  /** A stripped file loads like the one it was made from. */
  lemma StripLoads(rule: Rule, defaults: Table, t: Table)
    ensures AlikeTables(defaults, StripTable(rule, defaults, t), t)
  {
    forall k
      ensures Alike(Find(defaults, k), Find(StripTable(rule, defaults, t), k), Find(t, k))
    {
      if k in t {
        StripValueLoads(rule, [k], Find(defaults, k), t[k]);
      }
    }
    AlikeEverywhere(defaults, StripTable(rule, defaults, t), t);
  }
}
