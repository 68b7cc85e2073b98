/** The scaffolding logic of `src/fabric.rs`: the names `create_mod` derives
    from the main class, the edits it makes to the two JSON configs and to
    `gradle.properties`, and the order of its side-effecting steps. The git
    helpers, the rename engine and the file system are opaque steps here. */
module Fabric {
  import opened Wrappers
  import opened Text

  /** The two template languages `create_mod` accepts. */
  datatype Language = Java | Kotlin

  /** A parsed JSON value; `Number` abstracts serde_json's numbers. */
  datatype Value =
    | Null
    | Bool(b: bool)
    | Number(n: int)
    | Str(s: string)
    | Array(items: seq<Value>)
    | Object(fields: map<string, Value>)

  /** A JSON document whose top level is an object. */
  type JsonObject = map<string, Value>

  /** The package of the cloned template and its entrypoint class. */
  const TemplatePackage: string := "net.fabricmc.example"
  const TemplateClassName: string := "ExampleMod"

  /** The literals of the template's `gradle.properties` that are rewritten. */
  const TemplateGroup: string := "com.example"
  const TemplateBaseName: string := "fabric-example-mod"

  const ResourcesDir: string := "src/main/resources/"
  const ModConfigPath: string := "src/main/resources/fabric.mod.json"
  const TemplateMixinConfigPath: string := "src/main/resources/modid.mixins.json"
  const GradlePropertiesPath: string := "gradle.properties"

  // ---------------------------------------------------------------------
  // Names derived from the main class
  // ---------------------------------------------------------------------

  /** The new package: the main class up to its last '.'; `None` where the
      source's `rfind('.').unwrap()` panics. */
  function NewPackage(mainClass: string): (r: Option<string>)
    ensures r.None? <==> '.' !in mainClass
    ensures r.Some? ==> |r.value| < |mainClass| && mainClass[..|r.value|] == r.value
    ensures r.Some? ==> mainClass[|r.value|] == '.' && '.' !in mainClass[|r.value| + 1..]
  {
    match SplitLast(mainClass, '.')
    case None => None
    case Some((pkg, simple)) =>
      assert mainClass == pkg + "." + simple;
      assert mainClass[|pkg| + 1..] == simple;
      Some(pkg)
  }

  /** The package is exactly what precedes the last '.': whatever simple
      name without a '.' follows it. */
  lemma {:induction false} NewPackageExact(pkg: string, simple: string)
    requires '.' !in simple
    ensures NewPackage(pkg + "." + simple) == Some(pkg)
  {
    SplitLastUnique(pkg + "." + simple, '.', pkg, simple);
  }

  /** The class handed to the class rename: the template's entrypoint class
      inside the new package. */
  function OldClass(newPackage: string): string
  {
    newPackage + "." + TemplateClassName
  }

  /** The old class lies directly in the new package, which the package
      rename has already produced, and keeps the template's simple name. */
  lemma {:induction false} OldClassInNewPackage(newPackage: string)
    ensures SplitLast(OldClass(newPackage), '.') == Some((newPackage, TemplateClassName))
    ensures NewPackage(OldClass(newPackage)) == Some(newPackage)
  {
    SplitLastUnique(OldClass(newPackage), '.', newPackage, TemplateClassName);
  }

  /** Gradle's `group` and `base_name`: the new package cut at its last '.';
      `None` where the source's second `rfind('.').unwrap()` panics. */
  function GroupAndBaseName(newPackage: string): (r: Option<(string, string)>)
    ensures r.None? <==> '.' !in newPackage
    ensures r.Some? ==> r.value.0 + "." + r.value.1 == newPackage && '.' !in r.value.1
  {
    SplitLast(newPackage, '.')
  }

  /** The mixin config file name for a mod id, both as the rename target and
      as the file the mixin update reads. */
  function MixinConfigPath(modId: string): (r: string)
  {
    ResourcesDir + modId + ".mixins.json"
  }

  /** Different mod ids never share a mixin config file. */
  lemma {:induction false} MixinConfigPathInjective(a: string, b: string)
    requires MixinConfigPath(a) == MixinConfigPath(b)
    ensures a == b
  {
    var pa, pb := MixinConfigPath(a), MixinConfigPath(b);
    assert |a| == |b|;
    assert a == pa[|ResourcesDir|..|ResourcesDir| + |a|];
    assert b == pb[|ResourcesDir|..|ResourcesDir| + |b|];
  }

  /** One character of a qualified name in its path: '.' becomes '/'. */
  function Slash(c: char): char
  {
    if c == '.' then '/' else c
  }

  /** A qualified name as a relative directory path: '.' becomes '/'. */
  function DotsToSlashes(name: string): (r: string)
    ensures |r| == |name| && '.' !in r
  {
    if name == [] then []
    else [Slash(name[0])] + DotsToSlashes(name[1..])
  }

  /** The inverse direction: '/' back to '.'. */
  function SlashesToDots(path: string): (r: string)
    ensures |r| == |path| && '/' !in r
  {
    if path == [] then []
    else [if path[0] == '/' then '.' else path[0]] + SlashesToDots(path[1..])
  }

  /** A name without '/' round-trips through its path. */
  lemma {:induction false} SlashesToDotsInverse(name: string)
    requires '/' !in name
    ensures SlashesToDots(DotsToSlashes(name)) == name
  {
    if name != [] {
      SlashesToDotsInverse(name[1..]);
      assert DotsToSlashes(name)[1..] == DotsToSlashes(name[1..]);
    }
  }

  /** A name without '.' is its own path. */
  lemma {:induction false} DotsToSlashesNoDot(name: string)
    requires '.' !in name
    ensures DotsToSlashes(name) == name
  {
    if name != [] {
      DotsToSlashesNoDot(name[1..]);
      assert name == [name[0]] + name[1..];
    }
  }

  /** Converting a dotted name appends like the name does. */
  lemma {:induction false} DotsToSlashesAppend(a: string, b: string)
    ensures DotsToSlashes(a + b) == DotsToSlashes(a) + DotsToSlashes(b)
  {
    if a == [] {
      assert a + b == b;
    } else {
      var ab := a + b;
      assert ab[0] == a[0] && ab[1..] == a[1..] + b;
      DotsToSlashesAppend(a[1..], b);
      Regroup([Slash(a[0])], DotsToSlashes(a[1..]), DotsToSlashes(b), []);
    }
  }

  /** Where the rename engine leaves a class's source file:
      `src/main/<language dir>/<qualified class as path>.<ext>`. The
      language's directory name and extension come from the language
      module, which is not part of this model, so they are parameters. */
  function ClassSourcePath(languageDir: string, extension: string, qualifiedClass: string): string
  {
    "src/main/" + languageDir + "/" + (DotsToSlashes(qualifiedClass) + "." + extension)
  }

  /** The file sits in the directory of the class's package and is named
      after its simple name. */
  lemma {:induction false} ClassSourcePathInPackageDir(languageDir: string, extension: string, pkg: string, simple: string)
    requires '.' !in simple
    ensures ClassSourcePath(languageDir, extension, pkg + "." + simple)
         == "src/main/" + languageDir + "/" + (DotsToSlashes(pkg) + "/" + simple + "." + extension)
  {
    QualifiedClassAsPath(pkg, simple);
  }

  lemma {:induction false} QualifiedClassAsPath(pkg: string, simple: string)
    requires '.' !in simple
    ensures DotsToSlashes(pkg + "." + simple) == DotsToSlashes(pkg) + "/" + simple
  {
    DotsToSlashesAppend(pkg + ".", simple);
    DotsToSlashesAppend(pkg, ".");
    DotsToSlashesNoDot(simple);
    assert DotsToSlashes(".") == "/";
  }

  /** For a fixed language, distinct classes (names without '/') have
      distinct source files. */
  lemma {:induction false} ClassSourcePathInjective(languageDir: string, extension: string, a: string, b: string)
    requires '/' !in a && '/' !in b
    requires ClassSourcePath(languageDir, extension, a) == ClassSourcePath(languageDir, extension, b)
    ensures a == b
  {
    var pa, pb := ClassSourcePath(languageDir, extension, a), ClassSourcePath(languageDir, extension, b);
    var start := |"src/main/"| + |languageDir| + 1;
    assert |a| == |b|;
    assert pa[start..start + |a|] == DotsToSlashes(a);
    assert pb[start..start + |b|] == DotsToSlashes(b);
    SlashesToDotsInverse(a);
    SlashesToDotsInverse(b);
  }

  // ---------------------------------------------------------------------
  // Config edits
  // ---------------------------------------------------------------------

  /** The keys `update_mod_config` writes at the top level. */
  const ModConfigKeys: set<string> := {"id", "name", "description", "entrypoints"}

  /** The `entrypoints` object of a mod config, empty when it is absent or
      not an object. */
  function Entrypoints(config: JsonObject): (r: map<string, Value>)
  {
    if "entrypoints" in config && config["entrypoints"].Object? then config["entrypoints"].fields else map[]
  }

  /** `config["entrypoints"]` can be indexed by a key for assignment:
      serde_json turns a missing or null value into an empty object and
      panics on any other kind of value. */
  predicate EntrypointsIndexable(config: JsonObject)
  {
    "entrypoints" !in config || config["entrypoints"].Null? || config["entrypoints"].Object?
  }

  /** `update_mod_config`: sets `id`, `name`, `description` and
      `entrypoints.main`, keeping everything else. `None` is the panic of
      indexing an `entrypoints` value that is neither an object nor null. */
  method UpdateModConfig(config: JsonObject, modId: string, mainClass: string, name: string)
    returns (r: Option<JsonObject>)
    ensures r.Some? <==> EntrypointsIndexable(config)
    ensures r.Some? ==> r.value.Keys == config.Keys + ModConfigKeys
    ensures r.Some? ==> r.value["id"] == Str(modId) && r.value["name"] == Str(name)
    ensures r.Some? ==> r.value["description"] == Str("")
    ensures r.Some? ==> forall k :: k in config && k !in ModConfigKeys ==> r.value[k] == config[k]
    ensures r.Some? ==> r.value["entrypoints"] == Object(Entrypoints(config)["main" := Str(mainClass)])
  {
    var c := config;
    c := c["id" := Str(modId)];
    c := c["name" := Str(name)];
    c := c["description" := Str("")];
    var entrypoints := if "entrypoints" in c then c["entrypoints"] else Null;
    if entrypoints.Null? {
      c := c["entrypoints" := Object(map["main" := Str(mainClass)])];
    } else if entrypoints.Object? {
      c := c["entrypoints" := Object(entrypoints.fields["main" := Str(mainClass)])];
    } else {
      return None;
    }
    return Some(c);
  }

  /** `update_mixin_config`: sets `package` to the mod id, keeping everything else. */
  method UpdateMixinConfig(config: JsonObject, modId: string) returns (r: JsonObject)
    ensures r.Keys == config.Keys + {"package"}
    ensures r["package"] == Str(modId)
    ensures forall k :: k in config && k != "package" ==> r[k] == config[k]
  {
    r := config;
    r := r["package" := Str(modId)];
  }

  // ---------------------------------------------------------------------
  // gradle.properties
  // ---------------------------------------------------------------------

  /** The characters of an occurrence are those of the pattern. */
  lemma {:induction false} CharOfOccurrence(text: string, pat: string, i: nat, k: nat)
    requires OccursAt(text, pat, i) && i <= k < i + |pat|
    ensures text[k] == pat[k - i]
  {
    assert text[i..i + |pat|][k - i] == text[k];
  }

  /** Inside an occurrence of `pat`, `c` stands only where it stands in `pat`
      (at offset `p`, when `pat` holds it once). */
  lemma {:induction false} CharOnlyAt(text: string, pat: string, i: nat, c: char, p: int)
    requires OccursAt(text, pat, i)
    requires forall q :: 0 <= q < |pat| && q != p ==> pat[q] != c
    ensures forall k :: i <= k < i + |pat| && k != i + p ==> text[k] != c
  {
    forall k | i <= k < i + |pat| && k != i + p ensures text[k] != c {
      CharOfOccurrence(text, pat, i, k);
    }
  }

  /** No occurrence of the template group overlaps one of the template base name. */
  lemma {:induction false} TemplateLiteralsApart(text: string, i: nat, j: nat)
    requires OccursAt(text, TemplateGroup, i) && OccursAt(text, TemplateBaseName, j)
    ensures i + |TemplateGroup| <= j || j + |TemplateBaseName| <= i
  {
    // A base-name occurrence starts with 'f', which the group lacks ...
    CharOnlyAt(text, TemplateGroup, i, 'f', -1);
    CharOfOccurrence(text, TemplateBaseName, j, j);
    // ... and a group occurrence can start inside a base-name occurrence
    // only at its single 'c', which is followed by '-' rather than 'o'.
    CharOnlyAt(text, TemplateBaseName, j, 'c', 5);
    CharOfOccurrence(text, TemplateGroup, i, i);
    CharOfOccurrence(text, TemplateGroup, i, i + 1);
    CharOfOccurrence(text, TemplateBaseName, j, j + 6);
  }

  /** `update_gradle_properties`: every `com.example` becomes the group, then
      every `fabric-example-mod` becomes the base name. */
  method UpdateGradleProperties(text: string, group: string, baseName: string) returns (config: string)
    ensures config == ReplaceAll(ReplaceAll(text, TemplateGroup, group), TemplateBaseName, baseName)
    ensures !Contains(text, TemplateGroup) && !Contains(text, TemplateBaseName) ==> config == text
    ensures Contains(text, TemplateBaseName) ==> Contains(config, baseName)
    ensures Contains(text, TemplateGroup) ==> Contains(ReplaceAll(text, TemplateGroup, group), group)
  {
    config := text;
    config := ReplaceAll(config, TemplateGroup, group);
    ghost var firstPass := config;
    config := ReplaceAll(config, TemplateBaseName, baseName);
    if !Contains(text, TemplateGroup) && !Contains(text, TemplateBaseName) {
      ReplaceAllNoMatch(text, TemplateGroup, group);
      ReplaceAllNoMatch(text, TemplateBaseName, baseName);
    }
    if Contains(text, TemplateBaseName) {
      var j: nat :| j <= |text| && OccursAt(text, TemplateBaseName, j);
      forall i: nat | OccursAt(text, TemplateGroup, i)
        ensures i + |TemplateGroup| <= j || j + |TemplateBaseName| <= i
      {
        TemplateLiteralsApart(text, i, j);
      }
      ReplaceAllKeeps(text, TemplateGroup, group, TemplateBaseName, j);
      ReplaceAllInserts(firstPass, TemplateBaseName, baseName);
    }
    if Contains(text, TemplateGroup) {
      ReplaceAllInserts(text, TemplateGroup, group);
    }
  }

  /** The test's properties text, after the rewrite with the names derived
      from `net.fabricmc.example2.ExampleMod2`, still holds the group and
      the base name: provided the template text holds both literals. */
  lemma {:induction false} GradlePropertiesScenario(text: string)
    requires Contains(text, TemplateGroup) && Contains(text, TemplateBaseName)
    ensures var out := ReplaceAll(ReplaceAll(text, TemplateGroup, "net.fabricmc"), TemplateBaseName, "example2");
      Contains(out, "net.fabricmc") && Contains(out, "example2")
  {
    var firstPass := ReplaceAll(text, TemplateGroup, "net.fabricmc");
    var j: nat :| j <= |text| && OccursAt(text, TemplateBaseName, j);
    forall i: nat | OccursAt(text, TemplateGroup, i)
      ensures i + |TemplateGroup| <= j || j + |TemplateBaseName| <= i
    {
      TemplateLiteralsApart(text, i, j);
    }
    ReplaceAllKeeps(text, TemplateGroup, "net.fabricmc", TemplateBaseName, j);
    ReplaceAllInserts(firstPass, TemplateBaseName, "example2");
    ReplaceAllInserts(text, TemplateGroup, "net.fabricmc");
    var a: nat :| a <= |firstPass| && OccursAt(firstPass, "net.fabricmc", a);
    forall i: nat | OccursAt(firstPass, TemplateBaseName, i)
      ensures i + |TemplateBaseName| <= a || a + |"net.fabricmc"| <= i
    {
      ScenarioGroupApart(firstPass, a, i);
    }
    ReplaceAllKeeps(firstPass, TemplateBaseName, "example2", "net.fabricmc", a);
  }

  /** No occurrence of the template base name overlaps one of `net.fabricmc`. */
  lemma {:induction false} ScenarioGroupApart(text: string, a: nat, j: nat)
    requires OccursAt(text, "net.fabricmc", a) && OccursAt(text, TemplateBaseName, j)
    ensures j + |TemplateBaseName| <= a || a + |"net.fabricmc"| <= j
  {
    // A group occurrence starts with 'n', which the base name lacks ...
    CharOnlyAt(text, TemplateBaseName, j, 'n', -1);
    CharOfOccurrence(text, "net.fabricmc", a, a);
    // ... and a base-name occurrence can start inside a group occurrence
    // only at its single 'f', six places before an 'm' rather than a '-'.
    CharOnlyAt(text, "net.fabricmc", a, 'f', 4);
    CharOfOccurrence(text, TemplateBaseName, j, j);
    CharOfOccurrence(text, TemplateBaseName, j, j + 6);
    CharOfOccurrence(text, "net.fabricmc", a, a + 10);
  }

  /** The package the tests derive from `net.fabricmc.example2.ExampleMod2`. */
  lemma {:induction false} NewPackageScenario()
    ensures NewPackage("net.fabricmc.example2.ExampleMod2") == Some("net.fabricmc.example2")
  {
    var pkg, simple := "net.fabricmc.example2", "ExampleMod2";
    assert pkg + "." + simple == "net.fabricmc.example2.ExampleMod2";
    NewPackageExact(pkg, simple);
  }

  /** The group and base name the tests expect in `gradle.properties`. */
  lemma {:induction false} GroupAndBaseNameScenario()
    ensures GroupAndBaseName("net.fabricmc.example2") == Some(("net.fabricmc", "example2"))
  {
    var group, baseName := "net.fabricmc", "example2";
    assert group + ['.'] + baseName == "net.fabricmc.example2";
    SplitLastUnique(group + ['.'] + baseName, '.', group, baseName);
  }

  /** The path of the tests' main class, relative to the language's
      source directory: one directory per package segment. */
  lemma {:induction false} ScenarioClassPath(mainClass: string)
    requires mainClass == "net" + "." + "fabricmc" + "." + "example2" + "." + "ExampleMod2"
    ensures DotsToSlashes(mainClass) == "net" + "/" + "fabricmc" + "/" + "example2" + "/" + "ExampleMod2"
  {
    DotsToSlashesNoDot("net");
    QualifiedClassAsPath("net", "fabricmc");
    QualifiedClassAsPath("net" + "." + "fabricmc", "example2");
    QualifiedClassAsPath("net" + "." + "fabricmc" + "." + "example2", "ExampleMod2");
  }

  /** The entrypoint file the tests expect for that main class:
      `src/main/<language dir>/net/fabricmc/example2/ExampleMod2.<ext>`. */
  lemma {:induction false} EntrypointScenario(languageDir: string, extension: string, mainClass: string)
    requires mainClass == "net" + "." + "fabricmc" + "." + "example2" + "." + "ExampleMod2"
    ensures ClassSourcePath(languageDir, extension, mainClass)
         == "src/main/" + languageDir + "/"
            + ("net" + "/" + "fabricmc" + "/" + "example2" + "/" + "ExampleMod2" + "." + extension)
  {
    ScenarioClassPath(mainClass);
  }

  /** The mixin config file the tests expect for mod id `example-mod2`. */
  lemma {:induction false} MixinConfigScenario()
    ensures MixinConfigPath("example-mod2") == "src/main/resources/example-mod2.mixins.json"
  {
  }

  // ---------------------------------------------------------------------
  // create_mod
  // ---------------------------------------------------------------------

  /** A side-effecting step of `create_mod`, left opaque: cloning and
      re-initialising the repository, the two renames of the refactoring
      engine, the file rename and the three file edits. */
  datatype Step =
    | PrepareRepository(language: Language)
    | RenamePackage(language: Language, oldPackage: string, newPackage: string)
    | RenameClass(language: Language, oldClass: string, newClass: string)
    | RenameFile(source: string, target: string)
    | EditMixinConfig(path: string, modId: string)
    | EditModConfig(path: string, modId: string, mainClass: string, name: string)
    | EditGradleProperties(path: string, group: string, baseName: string)

  /** The two `rfind('.').unwrap()` panics of `create_mod` itself; a panic
      inside an opaque step counts as that step failing. */
  datatype Panic = MainClassWithoutDot | PackageWithoutDot

  /** How `create_mod` ends: `Ok(())`, an error propagated by `?` from the
      named step, or a panic. */
  datatype Outcome = Completed | Failed(step: Step) | Panicked(reason: Panic)

  /** The steps `create_mod` issues once the new package is known, when
      none of them fails: both renames, the mixin config rename and edit,
      the mod config edit and then, unless the new package has no '.',
      the `gradle.properties` edit. */
  function Configure(language: Language, modId: string, mainClass: string, name: string, newPackage: string): (r: seq<Step>)
    ensures |r| == 5 || |r| == 6
    ensures |r| == 6 <==> '.' in newPackage
    ensures r[0] == RenamePackage(language, TemplatePackage, newPackage)
  {
    var renames := [
      RenamePackage(language, TemplatePackage, newPackage),
      RenameClass(language, OldClass(newPackage), mainClass),
      RenameFile(TemplateMixinConfigPath, MixinConfigPath(modId)),
      EditMixinConfig(MixinConfigPath(modId), modId),
      EditModConfig(ModConfigPath, modId, mainClass, name)
    ];
    match GroupAndBaseName(newPackage)
    case None => renames
    case Some((group, baseName)) =>
      renames + [EditGradleProperties(GradlePropertiesPath, group, baseName)]
  }

  /** The steps `create_mod` issues when none of them fails: the repository
      is prepared, then, unless the main class has no '.', the steps of
      `Configure` for the main class's package. */
  function Plan(language: Language, modId: string, mainClass: string, name: string): (r: seq<Step>)
    ensures |r| == 1 || |r| == 6 || |r| == 7
    ensures r[0] == PrepareRepository(language)
    ensures |r| == 1 <==> '.' !in mainClass
    ensures |r| > 1 ==> r[1].RenamePackage? && NewPackage(mainClass) == Some(r[1].newPackage)
  {
    var prepare := [PrepareRepository(language)];
    match NewPackage(mainClass)
    case None => prepare
    case Some(newPackage) => prepare + Configure(language, modId, mainClass, name, newPackage)
  }

  /** Once the new package is known, the plan is the preparation followed
      by the steps of `Configure`. */
  lemma {:induction false} PlanWithPackage(language: Language, modId: string, mainClass: string, name: string, newPackage: string)
    requires NewPackage(mainClass) == Some(newPackage)
    ensures Plan(language, modId, mainClass, name)
         == [PrepareRepository(language)] + Configure(language, modId, mainClass, name, newPackage)
  {
  }

  /** How the steps of `Configure` fit together: the class rename starts
      from the template class inside the (already renamed) package and ends
      at the main class; the mixin config that is edited is the one just
      renamed, named after the mod id; the mod config's entrypoint is the
      main class; and Gradle's group and base name make up the package. */
  lemma {:induction false} ConfigureSteps(language: Language, modId: string, mainClass: string, name: string, newPackage: string)
    ensures var r := Configure(language, modId, mainClass, name, newPackage);
      && r[1] == RenameClass(language, newPackage + "." + TemplateClassName, mainClass)
      && SplitLast(r[1].oldClass, '.') == Some((newPackage, TemplateClassName))
      && r[2] == RenameFile(TemplateMixinConfigPath, ResourcesDir + modId + ".mixins.json")
      && r[3] == EditMixinConfig(r[2].target, modId)
      && r[4] == EditModConfig(ModConfigPath, modId, mainClass, name)
    ensures var r := Configure(language, modId, mainClass, name, newPackage);
      |r| == 6 ==>
        && r[5].EditGradleProperties? && r[5].path == GradlePropertiesPath
        && r[5].group + "." + r[5].baseName == newPackage
        && '.' !in r[5].baseName
  {
    OldClassInNewPackage(newPackage);
  }

  /** How the planned steps fit together: the package rename goes from the
      template package to the main class's package, followed by the steps
      of `ConfigureSteps` for that package. */
  lemma {:induction false} PlanSteps(language: Language, modId: string, mainClass: string, name: string)
    ensures var r := Plan(language, modId, mainClass, name);
      |r| > 1 ==>
        && r[1] == RenamePackage(language, TemplatePackage, r[1].newPackage)
        && r[2] == RenameClass(language, r[1].newPackage + "." + TemplateClassName, mainClass)
        && SplitLast(r[2].oldClass, '.') == Some((r[1].newPackage, TemplateClassName))
        && r[3] == RenameFile(TemplateMixinConfigPath, ResourcesDir + modId + ".mixins.json")
        && r[4] == EditMixinConfig(r[3].target, modId)
        && r[5] == EditModConfig(ModConfigPath, modId, r[2].newClass, name)
    ensures var r := Plan(language, modId, mainClass, name);
      |r| > 1 ==> (|r| == 7 <==> '.' in r[1].newPackage)
    ensures var r := Plan(language, modId, mainClass, name);
      |r| == 7 ==>
        && r[6].EditGradleProperties? && r[6].path == GradlePropertiesPath
        && r[6].group + "." + r[6].baseName == r[1].newPackage
        && '.' !in r[6].baseName
  {
    match NewPackage(mainClass)
    case None =>
    case Some(newPackage) =>
      PlanWithPackage(language, modId, mainClass, name, newPackage);
      ConfigureSteps(language, modId, mainClass, name, newPackage);
      var c := Configure(language, modId, mainClass, name, newPackage);
      assert Plan(language, modId, mainClass, name)[1..] == c;
  }

  /** A main class with a single '.' is only caught by the second panic,
      after the package rename to its dot-free package, the class rename
      and every config edit but the Gradle one. */
  lemma {:induction false} LatePanicScenario(language: Language, modId: string, mainClass: string, name: string, pkg: string, simple: string)
    requires mainClass == pkg + "." + simple && '.' !in pkg && '.' !in simple
    ensures var r := Plan(language, modId, mainClass, name);
      && |r| == 6
      && r[1] == RenamePackage(language, TemplatePackage, pkg)
      && r[5] == EditModConfig(ModConfigPath, modId, mainClass, name)
  {
    NewPackageExact(pkg, simple);
    PlanSteps(language, modId, mainClass, name);
  }

  /** The steps the tests' call plans: all seven, with package
      `net.fabricmc.example2`, class `net.fabricmc.example2.ExampleMod`
      renamed to the main class, and group `net.fabricmc` with base name
      `example2` (the remaining fields follow from `PlanSteps`). */
  lemma {:induction false} PlanScenario(language: Language, modId: string, mainClass: string, name: string)
    requires mainClass == "net" + "." + "fabricmc" + "." + "example2" + "." + "ExampleMod2"
    ensures var r := Plan(language, modId, mainClass, name);
      && |r| == 7
      && r[1] == RenamePackage(language, TemplatePackage, "net" + "." + "fabricmc" + "." + "example2")
      && r[2] == RenameClass(language, "net" + "." + "fabricmc" + "." + "example2" + "." + TemplateClassName, mainClass)
      && r[6] == EditGradleProperties(GradlePropertiesPath, "net" + "." + "fabricmc", "example2")
  {
    var group := "net" + "." + "fabricmc";
    var pkg := group + "." + "example2";
    NewPackageExact(pkg, "ExampleMod2");
    PlanSteps(language, modId, mainClass, name);
    var r := Plan(language, modId, mainClass, name);
    assert r[1].newPackage == pkg;
    assert '.' in pkg by { assert pkg[|group|] == '.'; }
    SplitLastUnique(pkg, '.', group, "example2");
    SplitLastUnique(pkg, '.', r[6].group, r[6].baseName);
  }

  /** `create_mod` from line 107 on, once the new package is known: issues
      the steps of `Configure` in order and stops at the first one that
      fails or at the panic of a package without '.'. */
  method ConfigureMod(language: Language, modId: string, mainClass: string, name: string, newPackage: string, succeeds: Step -> bool)
    returns (issued: seq<Step>, outcome: Outcome)
    ensures 1 <= |issued| && issued <= Configure(language, modId, mainClass, name, newPackage)
    ensures forall k :: 0 <= k < |issued| - 1 ==> succeeds(issued[k])
    ensures outcome.Failed? <==> !succeeds(issued[|issued| - 1])
    ensures outcome.Failed? ==> outcome.step == issued[|issued| - 1]
    ensures !outcome.Failed? ==> issued == Configure(language, modId, mainClass, name, newPackage)
    ensures outcome == Completed <==> !outcome.Failed? && |issued| == 6
    ensures outcome != Panicked(MainClassWithoutDot)
    ensures outcome == Panicked(PackageWithoutDot) <==> !outcome.Failed? && |issued| == 5
  {
    ghost var steps := Configure(language, modId, mainClass, name, newPackage);

    var renamePackage := RenamePackage(language, TemplatePackage, newPackage);
    issued := [renamePackage];
    if !succeeds(renamePackage) {
      return issued, Failed(renamePackage);
    }

    var renameClass := RenameClass(language, OldClass(newPackage), mainClass);
    issued := issued + [renameClass];
    assert issued == steps[..2];
    if !succeeds(renameClass) {
      return issued, Failed(renameClass);
    }

    var renameMixins := RenameFile(TemplateMixinConfigPath, MixinConfigPath(modId));
    issued := issued + [renameMixins];
    assert issued == steps[..3];
    if !succeeds(renameMixins) {
      return issued, Failed(renameMixins);
    }
    var editMixins := EditMixinConfig(MixinConfigPath(modId), modId);
    issued := issued + [editMixins];
    assert issued == steps[..4];
    if !succeeds(editMixins) {
      return issued, Failed(editMixins);
    }

    var editMod := EditModConfig(ModConfigPath, modId, mainClass, name);
    issued := issued + [editMod];
    assert issued == steps[..5];
    if !succeeds(editMod) {
      return issued, Failed(editMod);
    }

    var groupAndBaseName := GroupAndBaseName(newPackage);
    if groupAndBaseName.None? {
      return issued, Panicked(PackageWithoutDot);
    }
    var editGradle := EditGradleProperties(GradlePropertiesPath, groupAndBaseName.value.0, groupAndBaseName.value.1);
    issued := issued + [editGradle];
    if !succeeds(editGradle) {
      return issued, Failed(editGradle);
    }
    return issued, Completed;
  }

  /** `create_mod`: issues the planned steps in order and stops at the first
      one that fails (`succeeds` stands for the file system, git and the
      rename engine) or at a panic. */
  method CreateMod(language: Language, modId: string, mainClass: string, name: string, succeeds: Step -> bool)
    returns (issued: seq<Step>, outcome: Outcome)
    ensures 1 <= |issued| && issued <= Plan(language, modId, mainClass, name)
    ensures forall k :: 0 <= k < |issued| - 1 ==> succeeds(issued[k])
    ensures outcome.Failed? <==> !succeeds(issued[|issued| - 1])
    ensures outcome.Failed? ==> outcome.step == issued[|issued| - 1]
    ensures !outcome.Failed? ==> issued == Plan(language, modId, mainClass, name)
    ensures outcome == Completed <==> !outcome.Failed? && |issued| == 7
    ensures outcome == Panicked(MainClassWithoutDot) <==> !outcome.Failed? && |issued| == 1
    ensures outcome == Panicked(PackageWithoutDot) <==> !outcome.Failed? && |issued| == 6
  {
    var prepare := PrepareRepository(language);
    issued := [prepare];
    if !succeeds(prepare) {
      return issued, Failed(prepare);
    }

    var newPackage := NewPackage(mainClass);
    if newPackage.None? {
      return issued, Panicked(MainClassWithoutDot);
    }
    PlanWithPackage(language, modId, mainClass, name, newPackage.value);

    var rest;
    rest, outcome := ConfigureMod(language, modId, mainClass, name, newPackage.value, succeeds);
    LiftOutcome(prepare, rest, Configure(language, modId, mainClass, name, newPackage.value), outcome, succeeds);
    issued := issued + rest;
  }

  /** A run of `steps` that stops at its first failing step stays such a
      run of `[x] + steps` when the step `x`, which succeeded, is put in
      front. */
  lemma {:induction false} LiftOutcome(x: Step, rest: seq<Step>, steps: seq<Step>, outcome: Outcome, succeeds: Step -> bool)
    requires succeeds(x)
    requires 1 <= |rest| && rest <= steps
    requires forall k :: 0 <= k < |rest| - 1 ==> succeeds(rest[k])
    requires outcome.Failed? <==> !succeeds(rest[|rest| - 1])
    requires outcome.Failed? ==> outcome.step == rest[|rest| - 1]
    requires !outcome.Failed? ==> rest == steps
    ensures var issued := [x] + rest;
      && issued <= [x] + steps
      && (forall k :: 0 <= k < |issued| - 1 ==> succeeds(issued[k]))
      && (outcome.Failed? <==> !succeeds(issued[|issued| - 1]))
      && (outcome.Failed? ==> outcome.step == issued[|issued| - 1])
  {
  }
}
