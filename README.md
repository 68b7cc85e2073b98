# new-fabric-mod scaffolding core, in Dafny

`src/fabric.rs` creates a Fabric (Minecraft) mod project from a template. It
clones the Java or Kotlin example mod, re-initialises its git repository,
renames the template package `net.fabricmc.example` and class `ExampleMod`
to the user's main class, renames and edits the mixin config, edits
`fabric.mod.json`, and rewrites `gradle.properties`. This project models the
logic in between those side effects:

- the names derived from the main class by cutting at the last `.` (the new
  package, the class handed to the class rename, Gradle's group and base
  name), including the two `rfind('.').unwrap()` panics;
- Rust's `str::replace` (with `find`, `contains` and `rfind`) over
  `seq<char>`, and the two replace passes of `update_gradle_properties`;
- the key updates of `update_mod_config` and `update_mixin_config` on a JSON
  object modelled as `map<string, Value>`, including serde_json's behaviour
  when indexing `entrypoints` for assignment (null becomes an object, an
  object gains the key, anything else panics);
- the mixin config file name, and the source file path where a qualified
  class ends up;
- `create_mod` as a sequence of opaque steps that stops at the first failing
  step or at a panic.

Files: `wrappers.dfy` (the `Option` type), `text.dfy` (module `Text`, the
string operations), `fabric.dfy` (module `Fabric`, the scaffolding logic).

Where `ReplaceAll` meets `ReplaceByFind`: `ReplaceAll` scans the text and
replaces a match at the front, otherwise copies one character.
`ReplaceByFind` is an independent reference definition that repeatedly
takes the leftmost `find`, copies up to it, emits the replacement and goes
on after the match. `Text.ReplaceAllIsReplaceByFind` proves the two equal.

`create_mod` is modelled with an oracle `succeeds: Step -> bool` that stands
for git, the file system, serde and the rename engine. `Fabric.Plan` lists
the steps that are issued when none fails. `Fabric.CreateMod` is proved to
issue a prefix of that plan. Every issued step except the last succeeded.
The run ends either at the first failure or at a panic, or it runs the
whole plan. Because the second panic (line 125) comes after both renames
and all config edits, a package without a `.` leaves a fully renamed
project behind with an untouched `gradle.properties`. `Fabric.LatePanicScenario`
states this for every main class with a single `.`, such as `example.ExampleMod`.

## Model

| member | source | states |
|---|---|---|
| Text.RFind | src/fabric.rs:106 | `rfind('.')` is `None` exactly when there is no `.`; otherwise it is an index of a `.` with no `.` after it |
| Text.SplitLast | src/fabric.rs:106 | cutting at the last `c` fails exactly when `c` is absent; otherwise the two parts rebuild the string around `c` and the second part holds no `c` |
| Text.SplitLastUnique | src/fabric.rs:125-126 | the cut is unique: any `p + [c] + q` with no `c` in `q` is the cut `SplitLast` returns |
| Text.FindLeftmost | src/fabric.rs:75-76 | `find` returns an occurrence with none before it, and returns `None` exactly when the pattern occurs nowhere |
| Text.ReplaceAll | src/fabric.rs:75-76 | Rust's `str::replace`, leftmost and non-overlapping; its contract lives in the `ReplaceAll…` and `ReplaceEmpty…` lemmas of this table |
| Text.ReplaceAllIsReplaceByFind | src/fabric.rs:75-76 | `replace` with a non-empty pattern equals the reference built from repeated leftmost `find` |
| Text.ReplaceAllFirstMatch | src/fabric.rs:75-76 | `replace` copies the text up to the first match, emits the replacement, and continues after the match |
| Text.ReplaceAllNoMatch | src/fabric.rs:75-76 | text without the (non-empty) pattern comes back unchanged |
| Text.ReplaceAllIdentity | src/fabric.rs:75-76 | replacing any pattern by itself changes nothing |
| Text.ReplaceEmptyLength | src/fabric.rs:75-76 | with an empty pattern, an `n`-character text grows by `n + 1` copies of the replacement |
| Text.ReplaceEmptyBlocks | src/fabric.rs:75-76 | with an empty pattern, the result read in blocks one character longer than the replacement has as block `i` the replacement followed by character `i` of the text |
| Text.ReplaceEmptyEnd | src/fabric.rs:75-76 | with an empty pattern, the result ends in the replacement, right after the last block: `to` sits at all `n + 1` boundaries |
| Text.ReplaceAllInserts | src/fabric.rs:75-76 | when the pattern occurs, the result contains the replacement |
| Text.ReplaceAllKeeps | src/fabric.rs:75-76 | an occurrence of another string that no occurrence of the pattern overlaps survives the replacement |
| Fabric.NewPackage | src/fabric.rs:106 | the new package is `None` (the panic) exactly when the main class has no `.`; otherwise it is the prefix before the last `.`, followed by `.` and a dot-free rest |
| Fabric.NewPackageExact | src/fabric.rs:106 | for `pkg + "." + simple` with a dot-free `simple`, the new package is exactly `pkg` |
| Fabric.OldClass | src/fabric.rs:110 | the class handed to the class rename, `<new package>.ExampleMod`; its contract lives in `Fabric.OldClassInNewPackage` |
| Fabric.OldClassInNewPackage | src/fabric.rs:110-112 | the class handed to the class rename cuts back into the new package and the simple name `ExampleMod` |
| Fabric.GroupAndBaseName | src/fabric.rs:125-126 | `None` (the panic) exactly when the package has no `.`; otherwise `group + "." + base_name` is the package and the base name has no `.` |
| Fabric.GroupAndBaseNameScenario | src/fabric.rs:238 | for `net.fabricmc.example2` the group is `net.fabricmc` and the base name `example2` |
| Fabric.NewPackageScenario | src/fabric.rs:238 | the tests' main class `net.fabricmc.example2.ExampleMod2` yields the package `net.fabricmc.example2` |
| Fabric.MixinConfigPath | src/fabric.rs:117 | the mixin config file of a mod id, used both as the rename target (line 117) and as the file the update reads (line 64); its contract lives in `Fabric.MixinConfigPathInjective` and `Fabric.MixinConfigScenario` |
| Fabric.MixinConfigPathInjective | src/fabric.rs:115-119 | distinct mod ids give distinct mixin config files (the rename target and the file the update reads are the same path) |
| Fabric.MixinConfigScenario | src/fabric.rs:195 | mod id `example-mod2` gives `src/main/resources/example-mod2.mixins.json` |
| Fabric.DotsToSlashes | src/fabric.rs:172-175 | the path of a qualified name has the same length and no `.` (the test spells one such path out as a literal; the model generalises it to every class) |
| Fabric.SlashesToDotsInverse | src/fabric.rs:172-175 | a name without `/` is recovered from its path (the test spells the path out; the model generalises it) |
| Fabric.DotsToSlashesNoDot | src/fabric.rs:172-175 | a dot-free name is its own path |
| Fabric.DotsToSlashesAppend | src/fabric.rs:172-175 | the path of a concatenation is the concatenation of the paths |
| Fabric.QualifiedClassAsPath | src/fabric.rs:172-175 | `pkg.Simple` becomes the package's directory followed by `/Simple` |
| Fabric.ClassSourcePath | src/fabric.rs:172-175 | where a class's source file is expected, generalising the path literal the test spells out; its contract lives in `Fabric.ClassSourcePathInPackageDir`, `Fabric.ClassSourcePathInjective` and `Fabric.EntrypointScenario` |
| Fabric.ClassSourcePathInPackageDir | src/fabric.rs:172-175 | a class's source file lies in its package's directory and is named after its simple name (a generalisation of the literal path the test expects) |
| Fabric.ClassSourcePathInjective | src/fabric.rs:172-175 | for one language, distinct classes have distinct source files (a generalisation of the literal path the test expects) |
| Fabric.ScenarioClassPath | src/fabric.rs:175 | `net.fabricmc.example2.ExampleMod2` becomes `net/fabricmc/example2/ExampleMod2` |
| Fabric.EntrypointScenario | src/fabric.rs:172-175 | the tests' main class lives at `src/main/<dir>/net/fabricmc/example2/ExampleMod2.<ext>` |
| Fabric.UpdateModConfig | src/fabric.rs:51-61 | panics exactly when `entrypoints` is present and neither null nor an object; otherwise it sets `id`, `name`, `description` and `entrypoints.main` and keeps every other key and every other entrypoint |
| Fabric.UpdateMixinConfig | src/fabric.rs:63-70 | sets `package` to the mod id and keeps every other key |
| Fabric.TemplateLiteralsApart | src/fabric.rs:75-76 | occurrences of `com.example` and `fabric-example-mod` never overlap |
| Fabric.ScenarioGroupApart | src/fabric.rs:245-246 | occurrences of `net.fabricmc` and `fabric-example-mod` never overlap |
| Fabric.UpdateGradleProperties | src/fabric.rs:72-79 | the result is the two replace passes in order; text without either literal is unchanged; a base-name literal in the input leaves the base name in the output; after the first pass a group literal has left the group in the text |
| Fabric.GradlePropertiesScenario | src/fabric.rs:243-246 | after rewriting with `net.fabricmc` and `example2`, a template holding both literals contains both new names |
| Fabric.Configure | src/fabric.rs:107-127 | once the package is known there are five steps, plus the Gradle edit exactly when the package has a `.`; the first is the package rename |
| Fabric.Plan | src/fabric.rs:88-127 | the plan starts with the repository preparation and stops there exactly when the main class has no `.`; otherwise the package rename targets the main class's package |
| Fabric.ConfigureSteps | src/fabric.rs:107-127 | the class rename starts at `ExampleMod` inside the renamed package and ends at the main class; the edited mixin config is the renamed one; the mod config gets the main class; group and base name rebuild the package |
| Fabric.PlanSteps | src/fabric.rs:104-127 | the same chain of names across the whole plan, starting from the template package |
| Fabric.LatePanicScenario | src/fabric.rs:125 | for every main class `pkg.Simple` with a single `.`, the plan has six steps: the package rename to `pkg`, then through the mod config edit, and the second panic comes after them |
| Fabric.PlanScenario | src/fabric.rs:163-170 | for the tests' main class all seven steps run, with package `net.fabricmc.example2`, class `net.fabricmc.example2.ExampleMod`, group `net.fabricmc` and base name `example2` |
| Fabric.ConfigureMod | src/fabric.rs:107-129 | issues a prefix of `Configure`, every step but the last succeeded, and it ends at the first failure, at the second panic (five steps) or completes (six steps) |
| Fabric.CreateMod | src/fabric.rs:81-130 | issues a prefix of `Plan`, every step but the last succeeded, and it ends at the first failure (including a panic inside a step), at the `rfind` panic of line 106 (one step), at the `rfind` panic of line 125 (six steps) or completes (seven steps) |

## Left out

- Git: the template clone, the removal of `.git` and `git init` (src/fabric.rs:89-102) are the single opaque step `PrepareRepository`. The template URL per language is not modelled.
- The rename engine: `rename_package` and `rename_class` (src/fabric.rs:107, 112) belong to `code::refactor`, which is not part of this model. They are opaque steps. `ClassSourcePath` states where a class's file is expected, not that the engine puts it there.
- The language's directory name and file extension come from `code::language`, which is not part of this model. They are parameters of `ClassSourcePath`.
- File I/O: reading and writing the configs and `gradle.properties`, and the file rename. The edits are modelled on the values read. Whether a step succeeds is the oracle `succeeds`.
- serde_json parsing and pretty-printing: a config is modelled once parsed. Its top level is always an object here, so a document whose top level is not an object is not modelled. JSON numbers are abstracted to `int`.
- Panics inside an opaque step count as that step failing: `path.to_str().unwrap()` in the clone (src/fabric.rs:94), and serde_json's panic when indexing a non-object config or `entrypoints` (src/fabric.rs:55-58, 67). `Fabric.CreateMod` reports them as `Failed(step)`. `Panic` names only the two `rfind('.').unwrap()` panics of `create_mod` itself. `Fabric.UpdateModConfig` models the `entrypoints` panic as `None`, but nothing links that `None` to the outcome of `Fabric.CreateMod`.
- The `Error` type and its `Display` and `From` conversions (src/fabric.rs:8-49): a failure is `Failed(step)` without a message.
- Rust strings are UTF-8 and sliced by byte. The model works on characters. The cuts all fall at an ASCII `.`, where the two agree.
- Fabric.UpdateGradleProperties: states that the group is in the text after the first pass, not after both. A group that overlaps `fabric-example-mod` can be rewritten by the second pass, so nothing holds for every group. `Fabric.GradlePropertiesScenario` proves it for the tests' names.
