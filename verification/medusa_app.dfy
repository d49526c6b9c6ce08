/**
  The module-configuration steps of the Medusa application loader:
  filling in the default modules, giving legacy modules default database
  options, refusing to start under the medusa_v2 feature flag when a
  required module is missing, and registering every known module in the
  dependency container (as an unresolved value when nothing loaded it).

  The module definitions table (`ModulesDefinition`) and the module
  package names belong to the modules SDK; they are parameters here.
  `defs` lists the table's definitions in enumeration order, and the table
  is keyed by each definition's own `key`.
 */
module MedusaAppLoader {
  import opened Results

  /** A project's database settings; each may be left undefined. */
  datatype ProjectConfig = ProjectConfig(
    databaseUrl: Option<string>,
    databaseExtra: Option<string>,
    databaseSchema: Option<string>,
    databaseLogging: Option<bool>)

  datatype DatabaseOptions = DatabaseOptions(
    dbType: string,
    url: Option<string>,
    extra: Option<string>,
    schema: Option<string>,
    logging: Option<bool>)

  datatype ModuleOptions = DatabaseSettings(database: DatabaseOptions) | CustomOptions(entries: map<string, string>)

  /** An object module declaration; `options` is `None` when null or undefined. */
  datatype Declaration = Declaration(
    scope: string,
    resources: string,
    resolve: Option<string>,
    options: Option<ModuleOptions>)

  /** A value of the `modules` configuration map. */
  datatype ModuleConfig =
    | Nullish                          // null or undefined
    | Flag(enabled: bool)
    | PackagePath(path: string)
    | Object(declaration: Declaration)

  /** An entry of the module definitions table; `defaultPackage` is `None` for `false`. */
  datatype ModuleDefinition = ModuleDefinition(
    key: string,
    registrationName: string,
    defaultPackage: Option<string>,
    defaultModuleDeclaration: Declaration,
    isLegacy: bool)

  type ModulesConfig = map<string, ModuleConfig>

  /** `!!definition.defaultPackage`: `false` and the empty string are falsy. */
  predicate HasDefaultPackage(d: ModuleDefinition) {
    d.defaultPackage.Some? && d.defaultPackage.value != ""
  }

  /** The keys of the definitions that have a default package. */
  function DefaultKeys(defs: seq<ModuleDefinition>): set<string> {
    set d | d in defs && HasDefaultPackage(d) :: d.key
  }

  /** The first definition with a default package for `key`, in enumeration order. */
  function FirstDefault(defs: seq<ModuleDefinition>, key: string): (r: Option<ModuleDefinition>)
    ensures r.Some? ==> r.value in defs && r.value.key == key && HasDefaultPackage(r.value)
    ensures r.None? ==> key !in DefaultKeys(defs)
  {
    if defs == [] then None
    else if HasDefaultPackage(defs[0]) && defs[0].key == key then Some(defs[0])
    else
      var rest := FirstDefault(defs[1..], key);
      assert forall d :: d in defs ==> d == defs[0] || d in defs[1..];
      rest
  }

  // ------------------------------------------------------------ default modules

  /**
    The `??=` loop over the default definitions: a key that is absent or
    nullish takes the first default declaration offered for it; every other
    value stays.
   */
  function ApplyDefaults(m: ModulesConfig, defs: seq<ModuleDefinition>): (r: ModulesConfig)
    ensures r.Keys == m.Keys + DefaultKeys(defs)
    ensures forall k :: k in m && !m[k].Nullish? ==> r[k] == m[k]
    ensures forall k :: k in m && FirstDefault(defs, k).None? ==> r[k] == m[k]
    ensures forall k :: k in r && (k !in m || m[k].Nullish?) && FirstDefault(defs, k).Some? ==>
              r[k] == Object(FirstDefault(defs, k).value.defaultModuleDeclaration)
    decreases |defs|
  {
    if defs == [] then m
    else
      var d := defs[0];
      var m' := if HasDefaultPackage(d) && (d.key !in m || m[d.key].Nullish?)
                then m[d.key := Object(d.defaultModuleDeclaration)] else m;
      var r := ApplyDefaults(m', defs[1..]);
      ApplyDefaultsStep(m, defs, m', r);
      r
  }

  /** One definition's `??=` step composed with the contract of the remaining steps. */
  lemma ApplyDefaultsStep(m: ModulesConfig, defs: seq<ModuleDefinition>, m': ModulesConfig, r: ModulesConfig)
    requires defs != []
    requires m' == if HasDefaultPackage(defs[0]) && (defs[0].key !in m || m[defs[0].key].Nullish?)
                   then m[defs[0].key := Object(defs[0].defaultModuleDeclaration)] else m
    requires r.Keys == m'.Keys + DefaultKeys(defs[1..])
    requires forall k :: k in m' && !m'[k].Nullish? ==> r[k] == m'[k]
    requires forall k :: k in m' && FirstDefault(defs[1..], k).None? ==> r[k] == m'[k]
    requires forall k :: k in r && (k !in m' || m'[k].Nullish?) && FirstDefault(defs[1..], k).Some? ==>
               r[k] == Object(FirstDefault(defs[1..], k).value.defaultModuleDeclaration)
    ensures r.Keys == m.Keys + DefaultKeys(defs)
    ensures forall k :: k in m && !m[k].Nullish? ==> r[k] == m[k]
    ensures forall k :: k in m && FirstDefault(defs, k).None? ==> r[k] == m[k]
    ensures forall k :: k in r && (k !in m || m[k].Nullish?) && FirstDefault(defs, k).Some? ==>
              r[k] == Object(FirstDefault(defs, k).value.defaultModuleDeclaration)
  {
    var d := defs[0];
    DefaultKeysCons(defs);
    forall k | k in m && !m[k].Nullish?
      ensures r[k] == m[k]
    {
      assert k in m' && m'[k] == m[k];
    }
    forall k | k in m && FirstDefault(defs, k).None?
      ensures r[k] == m[k]
    {
      assert FirstDefault(defs[1..], k).None?;
      assert k in m' && m'[k] == m[k];
    }
    forall k | k in r && (k !in m || m[k].Nullish?) && FirstDefault(defs, k).Some?
      ensures r[k] == Object(FirstDefault(defs, k).value.defaultModuleDeclaration)
    {
      if HasDefaultPackage(d) && d.key == k {
        assert m'[k] == Object(d.defaultModuleDeclaration);
      } else {
        assert FirstDefault(defs, k) == FirstDefault(defs[1..], k);
        assert k !in m' || m'[k] == m[k];
      }
    }
  }

  lemma DefaultKeysCons(defs: seq<ModuleDefinition>)
    requires defs != []
    ensures DefaultKeys(defs) == (if HasDefaultPackage(defs[0]) then {defs[0].key} else {}) + DefaultKeys(defs[1..])
  {
    assert forall x :: x in defs <==> x == defs[0] || x in defs[1..];
  }

  /**
    `mergeDefaultModules`: a shallow copy of the configured modules (none
    when undefined) with every default module filled in.
   */
  function MergeDefaultModules(modulesConfig: Option<ModulesConfig>, defs: seq<ModuleDefinition>): (r: ModulesConfig)
    ensures modulesConfig.Some? ==> r.Keys == modulesConfig.value.Keys + DefaultKeys(defs)
    ensures modulesConfig.Some? ==>
              forall k :: k in modulesConfig.value && !modulesConfig.value[k].Nullish? ==>
                r[k] == modulesConfig.value[k]
    ensures modulesConfig.Some? ==>
              forall k :: k in modulesConfig.value && FirstDefault(defs, k).None? ==> r[k] == modulesConfig.value[k]
    ensures forall k :: k in r && (modulesConfig.None? || k !in modulesConfig.value || modulesConfig.value[k].Nullish?)
                        && FirstDefault(defs, k).Some? ==>
              r[k] == Object(FirstDefault(defs, k).value.defaultModuleDeclaration)
    ensures forall d :: d in defs && HasDefaultPackage(d) ==> d.key in r && !r[d.key].Nullish?
    ensures modulesConfig.None? ==> r.Keys == DefaultKeys(defs)
    ensures modulesConfig.None? ==>
              forall k :: k in r ==>
                (FirstDefault(defs, k).Some? && r[k] == Object(FirstDefault(defs, k).value.defaultModuleDeclaration))
  {
    var start := if modulesConfig.Some? then modulesConfig.value else map[];
    var r := ApplyDefaults(start, defs);
    assert forall d :: d in defs && HasDefaultPackage(d) ==> d.key in DefaultKeys(defs);
    r
  }

  // ------------------------------------------------------------ legacy options

  /** `ModulesDefinition[key]`: the first definition with that key. */
  function Lookup(defs: seq<ModuleDefinition>, key: string): (r: Option<ModuleDefinition>)
    ensures r.Some? ==> r.value in defs && r.value.key == key
    ensures r.None? ==> forall d :: d in defs ==> d.key != key
  {
    if defs == [] then None
    else if defs[0].key == key then Some(defs[0])
    else
      var rest := Lookup(defs[1..], key);
      assert forall d :: d in defs ==> d == defs[0] || d in defs[1..];
      rest
  }

  predicate IsLegacy(defs: seq<ModuleDefinition>, key: string) {
    Lookup(defs, key).Some? && Lookup(defs, key).value.isLegacy
  }

  /** The database options a legacy module receives from the project settings. */
  function LegacyDatabaseOptions(project: ProjectConfig): ModuleOptions {
    DatabaseSettings(DatabaseOptions("postgres", project.databaseUrl, project.databaseExtra,
                                     project.databaseSchema, project.databaseLogging))
  }

  /** One step of the legacy loop: `options ??= …` on a legacy module's object value. */
  function WithLegacyOptions(defs: seq<ModuleDefinition>, project: ProjectConfig, key: string, v: ModuleConfig): (r: ModuleConfig)
    ensures !(IsLegacy(defs, key) && v.Object?) ==> r == v
    ensures IsLegacy(defs, key) && v.Object? ==>
              && r.Object?
              && r.declaration.(options := v.declaration.options) == v.declaration
              && r.declaration.options.Some?
              && (v.declaration.options.Some? ==> r == v)
              && (v.declaration.options.None? ==> r.declaration.options == Some(LegacyDatabaseOptions(project)))
  {
    if IsLegacy(defs, key) && v.Object? && v.declaration.options.None? then
      Object(v.declaration.(options := Some(LegacyDatabaseOptions(project))))
    else v
  }

  /**
    The loop that applies default options to legacy modules: every
    legacy module configured as an object gets database options unless it
    already has some; nothing else changes.
   */
  method ApplyLegacyOptions(configModules: ModulesConfig, defs: seq<ModuleDefinition>, project: ProjectConfig)
    returns (r: ModulesConfig)
    ensures r.Keys == configModules.Keys
    ensures forall k :: k in r ==> r[k] == WithLegacyOptions(defs, project, k, configModules[k])
    ensures forall k :: k in r && r[k] != configModules[k] ==>
              IsLegacy(defs, k) && configModules[k].Object? && configModules[k].declaration.options.None?
  {
    r := configModules;
    var remaining := configModules.Keys;
    while remaining != {}
      invariant remaining <= configModules.Keys
      invariant r.Keys == configModules.Keys
      invariant forall k :: k in remaining ==> r[k] == configModules[k]
      invariant forall k :: k in r && k !in remaining ==> r[k] == WithLegacyOptions(defs, project, k, configModules[k])
      decreases remaining
    {
      var k :| k in remaining;
      r := r[k := WithLegacyOptions(defs, project, k, r[k])];
      remaining := remaining - {k};
    }
  }

  /** The configuration both the loader and the migration hand to the module runtime. */
  method PrepareModulesConfig(modulesConfig: Option<ModulesConfig>, defs: seq<ModuleDefinition>, project: ProjectConfig)
    returns (r: ModulesConfig)
    ensures r.Keys == MergeDefaultModules(modulesConfig, defs).Keys
    ensures forall d :: d in defs && HasDefaultPackage(d) ==> d.key in r && !r[d.key].Nullish?
    ensures forall k :: k in r && !IsLegacy(defs, k) ==> r[k] == MergeDefaultModules(modulesConfig, defs)[k]
    ensures forall k :: k in r ==> r[k] == WithLegacyOptions(defs, project, k, MergeDefaultModules(modulesConfig, defs)[k])
  {
    var merged := MergeDefaultModules(modulesConfig, defs);
    r := ApplyLegacyOptions(merged, defs, project);
  }

  // ------------------------------------------------------------ required modules

  const ProductModule := "productService"
  const PricingModule := "pricingService"
  const RequiredModuleKeys := [ProductModule, PricingModule]

  const V2FlagMessage := "FeatureFlag medusa_v2 (MEDUSA_FF_MEDUSA_V2) requires the following packages/module registration: "

  /** `MODULE_PACKAGE_NAMES[key] || key`. */
  function PackageName(names: map<string, string>, key: string): string {
    if key in names && names[key] != "" then names[key] else key
  }

  /** The required keys that are not installed, in required order. */
  function MissingKeys(required: seq<string>, installed: set<string>): (r: seq<string>)
    ensures |r| <= |required|
    ensures forall k :: k in r <==> k in required && k !in installed
  {
    if required == [] then []
    else
      var rest := MissingKeys(required[1..], installed);
      assert forall k :: k in required <==> k == required[0] || k in required[1..];
      if required[0] in installed then rest else [required[0]] + rest
  }

  /** `parts.join(separator)`. */
  function Join(parts: seq<string>, separator: string): string {
    if parts == [] then ""
    else if |parts| == 1 then parts[0]
    else parts[0] + separator + Join(parts[1..], separator)
  }

  /** The loop collecting the package names of the required modules that are not installed. */
  method MissingPackages(required: seq<string>, installed: set<string>, names: map<string, string>)
    returns (missing: seq<string>)
    ensures |missing| == |MissingKeys(required, installed)|
    ensures forall i :: 0 <= i < |missing| ==> missing[i] == PackageName(names, MissingKeys(required, installed)[i])
  {
    missing := [];
    var i := 0;
    while i < |required|
      invariant 0 <= i <= |required|
      invariant |missing| == |MissingKeys(required[..i], installed)|
      invariant forall j :: 0 <= j < |missing| ==> missing[j] == PackageName(names, MissingKeys(required[..i], installed)[j])
    {
      assert required[..i + 1] == required[..i] + [required[i]];
      MissingKeysAppend(required[..i], required[i], installed);
      if required[i] !in installed {
        missing := missing + [PackageName(names, required[i])];
      }
      i := i + 1;
    }
    assert required[..i] == required;
  }

  /** Filtering the list extended by one key extends the filtered list by that key, if missing. */
  lemma {:induction false} MissingKeysAppend(required: seq<string>, key: string, installed: set<string>)
    ensures MissingKeys(required + [key], installed)
            == MissingKeys(required, installed) + (if key in installed then [] else [key])
  {
    if required != [] {
      MissingKeysAppend(required[1..], key, installed);
      assert (required + [key])[1..] == required[1..] + [key];
    }
  }

  /**
    The medusa_v2 check: with the flag on, loading fails exactly when a
    required module is not installed, naming the missing packages; with the
    flag off it never fails.
   */
  method CheckRequiredModules(v2Enabled: bool, installed: set<string>, names: map<string, string>)
    returns (r: Result<(), string>)
    ensures r.Err? <==> v2Enabled && exists k :: k in RequiredModuleKeys && k !in installed
    ensures !v2Enabled ==> r.Ok?
    ensures r.Err? ==>
              exists missing: seq<string> ::
                && |missing| == |MissingKeys(RequiredModuleKeys, installed)| > 0
                && (forall i :: 0 <= i < |missing| ==>
                      missing[i] == PackageName(names, MissingKeys(RequiredModuleKeys, installed)[i]))
                && r.error == V2FlagMessage + "(" + Join(missing, ", ") + ")"
  {
    if !v2Enabled {
      return Ok(());
    }
    var missing := MissingPackages(RequiredModuleKeys, installed, names);
    if |missing| > 0 {
      assert MissingKeys(RequiredModuleKeys, installed)[0] in MissingKeys(RequiredModuleKeys, installed);
      r := Err(V2FlagMessage + "(" + Join(missing, ", ") + ")");
    } else {
      assert MissingKeys(RequiredModuleKeys, installed) == [];
      r := Ok(());
    }
  }

  // ------------------------------------------------------------ container

  /** A container registration: a resolved value, or `undefined`. */
  datatype Registration = Unresolved | Value(handle: string)

  type Container = map<string, Registration>

  const RemoteLinkKey := "remoteLink"
  const RemoteQueryKey := "remoteQuery"

  /** What the module runtime hands back; opaque handles stand for the services. */
  datatype LoadedModule = LoadedModule(registrationName: string, service: string)
  datatype AppOutput = AppOutput(modules: seq<LoadedModule>, link: string, query: string)

  function RegistrationNames(defs: seq<ModuleDefinition>): set<string> {
    set d | d in defs :: d.registrationName
  }

  function LoadedNames(mods: seq<LoadedModule>): set<string> {
    set m | m in mods :: m.registrationName
  }

  /** Registers every loaded module under its registration name; a later one wins. */
  function RegisterLoaded(c: Container, mods: seq<LoadedModule>): (r: Container)
    ensures r.Keys == c.Keys + LoadedNames(mods)
    ensures forall name :: name in c && name !in LoadedNames(mods) ==> r[name] == c[name]
    ensures forall m :: m in mods ==> r[m.registrationName].Value?
    ensures forall i :: 0 <= i < |mods| && LastUnder(mods, i) ==> r[mods[i].registrationName] == Value(mods[i].service)
    decreases |mods|
  {
    if mods == [] then c
    else
      var first := c[mods[0].registrationName := Value(mods[0].service)];
      var r := RegisterLoaded(first, mods[1..]);
      RegisterLoadedStep(c, mods, first, r);
      RegisterLoadedLast(mods, first[mods[0].registrationName], r);
      r
  }

  /** Registering the first module and then the rest registers every name of the list and keeps other names. */
  lemma RegisterLoadedStep(c: Container, mods: seq<LoadedModule>, first: Container, r: Container)
    requires mods != []
    requires first == c[mods[0].registrationName := Value(mods[0].service)]
    requires r.Keys == first.Keys + LoadedNames(mods[1..])
    requires forall name :: name in first && name !in LoadedNames(mods[1..]) ==> r[name] == first[name]
    requires forall m :: m in mods[1..] ==> r[m.registrationName].Value?
    ensures r.Keys == c.Keys + LoadedNames(mods)
    ensures forall name :: name in c && name !in LoadedNames(mods) ==> r[name] == c[name]
    ensures forall m :: m in mods ==> r[m.registrationName].Value?
    ensures forall i :: 0 <= i < |mods| ==> mods[i].registrationName in r
  {
    assert forall m :: m in mods <==> m == mods[0] || m in mods[1..];
    assert LoadedNames(mods) == {mods[0].registrationName} + LoadedNames(mods[1..]);
    assert forall i :: 0 <= i < |mods| ==> mods[i] in mods;
  }

  /** The last module registered under a name is the one whose service stays there. */
  lemma RegisterLoadedLast(mods: seq<LoadedModule>, head: Registration, r: Container)
    requires mods != []
    requires head == Value(mods[0].service)
    requires forall i :: 0 <= i < |mods| ==> mods[i].registrationName in r
    requires mods[0].registrationName !in LoadedNames(mods[1..]) ==> r[mods[0].registrationName] == head
    requires forall i :: 0 <= i < |mods[1..]| && LastUnder(mods[1..], i) ==>
               r[mods[1..][i].registrationName] == Value(mods[1..][i].service)
    ensures forall i :: 0 <= i < |mods| && LastUnder(mods, i) ==> r[mods[i].registrationName] == Value(mods[i].service)
  {
    forall i | 0 <= i < |mods| && LastUnder(mods, i)
      ensures r[mods[i].registrationName] == Value(mods[i].service)
    {
      if i == 0 {
        assert mods[0].registrationName !in LoadedNames(mods[1..]) by {
          forall m | m in mods[1..]
            ensures m.registrationName != mods[0].registrationName
          {
            var j :| 0 <= j < |mods[1..]| && mods[1..][j] == m;
            assert mods[j + 1] == m;
          }
        }
      } else {
        assert LastUnder(mods[1..], i - 1) by {
          forall j | i - 1 < j < |mods[1..]|
            ensures mods[1..][j].registrationName != mods[1..][i - 1].registrationName
          {
            assert mods[1..][j] == mods[j + 1];
          }
        }
      }
    }
  }

  /** No later module in `mods` is registered under the same name as `mods[i]`. */
  predicate LastUnder(mods: seq<LoadedModule>, i: int)
    requires 0 <= i < |mods|
  {
    forall j :: i < j < |mods| ==> mods[j].registrationName != mods[i].registrationName
  }

  /**
    The final loop: every definition's registration name that nothing has
    registered yet is registered as unresolved; existing registrations stay.
   */
  method RegisterUnresolved(c: Container, defs: seq<ModuleDefinition>) returns (r: Container)
    ensures r.Keys == c.Keys + RegistrationNames(defs)
    ensures forall name :: name in c ==> r[name] == c[name]
    ensures forall name :: name in r && name !in c ==> r[name] == Unresolved
  {
    r := c;
    var i := 0;
    while i < |defs|
      invariant 0 <= i <= |defs|
      invariant r.Keys == c.Keys + RegistrationNames(defs[..i])
      invariant forall name :: name in c ==> r[name] == c[name]
      invariant forall name :: name in r && name !in c ==> r[name] == Unresolved
    {
      assert defs[..i + 1] == defs[..i] + [defs[i]];
      assert RegistrationNames(defs[..i + 1]) == RegistrationNames(defs[..i]) + {defs[i].registrationName};
      if defs[i].registrationName !in r {
        r := r[defs[i].registrationName := Unresolved];
      }
      i := i + 1;
    }
    assert defs[..i] == defs;
  }

  /**
    The registration part of the loader: the runtime's link and query,
    then every loaded module, then the unresolved fill.
   */
  method RegisterApp(c: Container, defs: seq<ModuleDefinition>, app: AppOutput) returns (r: Container)
    ensures r.Keys == c.Keys + {RemoteLinkKey, RemoteQueryKey} + LoadedNames(app.modules) + RegistrationNames(defs)
    ensures forall m :: m in app.modules ==> m.registrationName in r && r[m.registrationName].Value?
    ensures forall i :: 0 <= i < |app.modules| && LastUnder(app.modules, i) ==>
              r[app.modules[i].registrationName] == Value(app.modules[i].service)
    ensures RemoteLinkKey !in LoadedNames(app.modules) ==> r[RemoteLinkKey] == Value(app.link)
    ensures RemoteQueryKey !in LoadedNames(app.modules) ==> r[RemoteQueryKey] == Value(app.query)
    ensures forall name ::
              (name in c && name !in LoadedNames(app.modules)
               && name != RemoteLinkKey && name != RemoteQueryKey) ==> r[name] == c[name]
    ensures forall name ::
              (name in r && name !in c && name !in LoadedNames(app.modules)
               && name != RemoteLinkKey && name != RemoteQueryKey) ==> r[name] == Unresolved
  {
    var withRemote := c[RemoteLinkKey := Value(app.link)][RemoteQueryKey := Value(app.query)];
    assert withRemote.Keys == c.Keys + {RemoteLinkKey, RemoteQueryKey};
    var withModules := RegisterLoaded(withRemote, app.modules);
    r := RegisterUnresolved(withModules, defs);
    forall m | m in app.modules
      ensures m.registrationName in r && r[m.registrationName].Value?
    {
      assert m.registrationName in withModules;
    }
    forall name | name in r && name !in c && name !in LoadedNames(app.modules)
                  && name != RemoteLinkKey && name != RemoteQueryKey
      ensures r[name] == Unresolved
    {
      assert name !in withModules;
    }
  }

  /**
    `loadMedusaApp`. The module runtime's output and which modules it
    installed are parameters. The returned configuration is the one handed
    to the runtime; the container is the one left behind.
   */
  method LoadMedusaApp(
    modulesConfig: Option<ModulesConfig>,
    project: ProjectConfig,
    defs: seq<ModuleDefinition>,
    v2Enabled: bool,
    registerInContainer: bool,
    container: Container,
    app: AppOutput,
    installed: set<string>,
    packageNames: map<string, string>)
    returns (r: Result<(ModulesConfig, Container), string>)
    ensures r.Err? <==> v2Enabled && exists k :: k in RequiredModuleKeys && k !in installed
    ensures r.Ok? ==> forall d :: d in defs && HasDefaultPackage(d) ==> d.key in r.value.0
    ensures r.Ok? ==> r.value.0.Keys == MergeDefaultModules(modulesConfig, defs).Keys
    ensures r.Ok? ==>
              forall k :: k in r.value.0 ==>
                r.value.0[k] == WithLegacyOptions(defs, project, k, MergeDefaultModules(modulesConfig, defs)[k])
    ensures r.Ok? && !registerInContainer ==>
              r.value.1 == container[RemoteQueryKey := Unresolved][RemoteLinkKey := Unresolved]
    ensures r.Ok? && registerInContainer ==>
              var c := r.value.1;
              && c.Keys == container.Keys + {RemoteLinkKey, RemoteQueryKey} + LoadedNames(app.modules)
                            + RegistrationNames(defs)
              && (forall m :: m in app.modules ==> m.registrationName in c && c[m.registrationName].Value?)
              && (forall i :: 0 <= i < |app.modules| && LastUnder(app.modules, i) ==>
                    c[app.modules[i].registrationName] == Value(app.modules[i].service))
              && (RemoteLinkKey !in LoadedNames(app.modules) ==> c[RemoteLinkKey] == Value(app.link))
              && (RemoteQueryKey !in LoadedNames(app.modules) ==> c[RemoteQueryKey] == Value(app.query))
              && (forall name ::
                    (name in container && name !in LoadedNames(app.modules)
                     && name != RemoteLinkKey && name != RemoteQueryKey) ==> c[name] == container[name])
              && (forall name ::
                    (name in c && name !in container && name !in LoadedNames(app.modules)
                     && name != RemoteLinkKey && name != RemoteQueryKey) ==> c[name] == Unresolved)
  {
    var c := container[RemoteQueryKey := Unresolved][RemoteLinkKey := Unresolved];
    var configModules := PrepareModulesConfig(modulesConfig, defs, project);
    var check := CheckRequiredModules(v2Enabled, installed, packageNames);
    if check.Err? {
      return Err(check.error);
    }
    if !registerInContainer {
      return Ok((configModules, c));
    }
    assert c.Keys == container.Keys + {RemoteLinkKey, RemoteQueryKey};
    assert forall name :: name in container && name != RemoteLinkKey && name != RemoteQueryKey ==>
             c[name] == container[name];
    c := RegisterApp(c, defs, app);
    r := Ok((configModules, c));
  }
}
