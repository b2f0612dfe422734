# Graphics Test Framework core: suite structure, test-type registry, build settings

This project models three parts of the Unity Graphics Test Framework and proves
properties about them in Dafny.

- **Suite manager** (`suite_manager.dfy`, module `Structure`). Class
  `SuiteManager` holds the `suites` field. Its first-pass build
  `CreateSuiteAndSceneStructure` clears the suite list and seeds the editor
  build-scene list with the master scene's path. It then walks the loaded Suite
  assets in order. It skips an asset when a suite it already kept has a
  `suiteName` equal to the asset's object name. It drops null scene references.
  It adds each new scene path to the build-scene list at its first occurrence
  only. The method is proved equal to the specification functions
  `KeptSuites` and `BuildSceneList`. Lemmas about those functions state the
  list properties: the master scene comes first, no path appears twice, the
  list is the first occurrences of all paths, and per-suite scene lists keep
  their order.
- **Test types** (`test_types.dfy`, module `TestTypes`). A fixed dictionary
  maps type indices to full type names. It has an indexer that fails on a
  missing key, resolve-then-construct instantiation, and the display-name list.
  That list reads keys `0 .. Count-1` and applies two single-pass
  `String.Replace` calls, modelled as `ReplaceAll`.
- **Build settings** (`build_settings.dfy`, module `BuildSettings`). It covers
  the product-name decision, the per-platform application-identifier writes and
  the scripting-define string. The writes go to a `PlayerSettings` record that
  is passed in and returned.

`wrappers.dfy` holds the `Option` and `Result` types. The first stands for a
C# null. The second stands for an exception.

Inputs from the host engine are parameters:
- the loaded Suite assets, as object name, `SuiteName` and scene references, each null or given by its asset path;
- the master scene's path;
- the number of build target groups;
- the project settings object, null or present;
- the type constructor.

Two outputs are return values: the build-scene list assigned to the editor,
and the player settings.

Two behaviours of the code that a reader might not expect:
- Suite names are not guaranteed unique. The duplicate check compares the
  asset's object name (`SuiteManager.cs:67`), while the stored name is the
  asset's `SuiteName` (`SuiteManager.cs:70`).
  `DuplicateNamesKept` and `NewNameSkipped` show both effects.
  `KeptNamesDistinct` proves uniqueness when every asset's object name equals
  its `SuiteName`.
- An unknown type index raises the dictionary's own missing-key exception
  (`TestTypes.cs:29`). The model returns `KeyNotFound`.

Rebuilding from the same assets gives the same structure. The postcondition
of `CreateSuiteAndSceneStructure` fixes the new `suites` and the returned list
as functions of the inputs alone.

## Model

| member | source | states |
|---|---|---|
| `Structure.SuiteManager.constructor` | GraphicsTestFramework_Core/Core/Structure/SuiteManager.cs:30 | a new manager starts with an empty suite list |
| `Structure.SuiteManager.GetSuiteNames` | GraphicsTestFramework_Core/Core/Structure/SuiteManager.cs:36-42 | returns a fresh array of length `suites.Count` whose i-th entry is the i-th suite's name |
| `Structure.SuiteManager.FindDuplicateSuite` | GraphicsTestFramework_Core/Core/Structure/SuiteManager.cs:100-108 | true exactly when some kept suite has that name; changes nothing |
| `Structure.SuiteManager.FindDuplicateScene` | GraphicsTestFramework_Core/Core/Structure/SuiteManager.cs:111-119 | true exactly when some build-scene entry has that path; changes nothing |
| `Structure.SuiteManager.NewSuiteScenes` | GraphicsTestFramework_Core/Core/Structure/SuiteManager.cs:69-83 | the new suite carries the asset's SuiteName and its non-null scene paths in order, and each such path is added to the build-scene list only when not already there |
| `Structure.SuiteManager.CreateSuiteAndSceneStructure` | GraphicsTestFramework_Core/Core/Structure/SuiteManager.cs:58-87 | the suite list is replaced by `KeptSuites` of the assets, and the returned build-scene list is `BuildSceneList` of the master path and those suites |
| `Structure.KeptIndices` | GraphicsTestFramework_Core/Core/Structure/SuiteManager.cs:65-86 | each kept suite is built from one asset, with that asset's SuiteName and its non-null scenes, and the source assets are in strictly increasing scan order |
| `Structure.KeptSuitesStep` | GraphicsTestFramework_Core/Core/Structure/SuiteManager.cs:67-85 | an asset is skipped exactly when a kept suite's name equals the asset's object name; otherwise exactly its suite is appended |
| `Structure.KeptSuitesBound` | GraphicsTestFramework_Core/Core/Structure/SuiteManager.cs:60-86 | starting from the cleared list, a build keeps at most one suite per asset |
| `Structure.KeptNamesDistinct` | GraphicsTestFramework_Core/Core/Structure/SuiteManager.cs:67-70 | when object names equal SuiteNames, no two kept suites share a name |
| `Structure.DuplicateNamesKept` | GraphicsTestFramework_Core/Core/Structure/SuiteManager.cs:67-70 | two assets with different object names and the same SuiteName are both kept, so the names are not distinct |
| `Structure.NewNameSkipped` | GraphicsTestFramework_Core/Core/Structure/SuiteManager.cs:67-70 | an asset whose SuiteName is new is skipped when its object name equals an earlier suite's name |
| `Structure.PresentScenesFilter` | GraphicsTestFramework_Core/Core/Structure/SuiteManager.cs:71-78 | a suite's scene list holds a path exactly when the asset references it, and it is no longer than the asset's reference list |
| `Structure.PresentScenesAppend` | GraphicsTestFramework_Core/Core/Structure/SuiteManager.cs:71-78 | dropping null references distributes over concatenation, so order is preserved |
| `Structure.BuildListStartsWithMaster` | GraphicsTestFramework_Core/Core/Structure/SuiteManager.cs:63-81 | the build-scene list is non-empty and its first entry is the master scene, even when a suite references the same path |
| `Structure.BuildListIsFirstOccurrences` | GraphicsTestFramework_Core/Core/Structure/SuiteManager.cs:62-81 | the list's paths are the first occurrences of the master path followed by every suite's scene paths in order, and every entry is enabled |
| `Structure.BuildListDistinct` | GraphicsTestFramework_Core/Core/Structure/SuiteManager.cs:79-81 | no path appears twice in the build-scene list |
| `Structure.BuildListMembers` | GraphicsTestFramework_Core/Core/Structure/SuiteManager.cs:64-81 | a path is listed exactly when it is the master path or a scene path of a kept suite |
| `Structure.BuildListCoversSuites` | GraphicsTestFramework_Core/Core/Structure/SuiteManager.cs:71-81 | every scene of every kept suite has an entry in the build-scene list |
| `Structure.ExampleSuites` | GraphicsTestFramework_Core/Core/Structure/SuiteManager.cs:65-86 | with suites A[x,y], A[z] and B[y,null,w], the second A is dropped and the null reference is skipped |
| `Structure.ExampleBuildList` | GraphicsTestFramework_Core/Core/Structure/SuiteManager.cs:62-81 | for suites A[x,y] and B[y,w] with master m, the build-scene list is m, x, y, w |
| `TestTypes.GetTypeFromIndex` | GraphicsTestFramework_Core/TestRunners/TestTypes.cs:27-30 | succeeds exactly on a declared key and returns its type; otherwise fails with the missing-key error for that index |
| `TestTypes.DeclaredIndices` | GraphicsTestFramework_Core/TestRunners/TestTypes.cs:14-19 | index 0 resolves to AverageFrameTimeModel and 1 to FrameComparisonModel; every other index fails |
| `TestTypes.GetModelInstance` | GraphicsTestFramework_Core/TestRunners/TestTypes.cs:42-46 | fails with the lookup's error whenever the lookup fails; otherwise constructs the resolved type, or reports that construction failed |
| `TestTypes.TypeStringList` | GraphicsTestFramework_Core/TestRunners/TestTypes.cs:33-39 | succeeds exactly when keys 0 .. Count-1 are all present, returning Count display names in index order; otherwise fails at the first missing key |
| `TestTypes.DenseKeys` | GraphicsTestFramework_Core/TestRunners/TestTypes.cs:35-37 | keys 0 .. Count-1 are all present exactly when the key set is {0 .. Count-1} |
| `TestTypes.GetTypeStringList` | GraphicsTestFramework_Core/TestRunners/TestTypes.cs:33-39 | on the registry, returns exactly "AverageFrameTime" and "FrameComparison" |
| `TestTypes.DisplayNames` | GraphicsTestFramework_Core/TestRunners/TestTypes.cs:37 | the display names of the two registered types are their class names without namespace and "Model" |
| `TestTypes.StripNamespaceAndSuffix` | GraphicsTestFramework_Core/TestRunners/TestTypes.cs:37 | for a namespaced "...Model" type whose bare name has no 'G' or 'M', the display name is the bare name |
| `TestTypes.ReplaceAllAbsent` | GraphicsTestFramework_Core/TestRunners/TestTypes.cs:37 | `Replace` leaves a string without any occurrence of the pattern unchanged |
| `TestTypes.ReplaceAllLeftmost` | GraphicsTestFramework_Core/TestRunners/TestTypes.cs:37 | `Replace` copies the text before the leftmost occurrence, substitutes it, and continues after it |
| `TestTypes.ReplaceAllShrinks` | GraphicsTestFramework_Core/TestRunners/TestTypes.cs:37 | replacing with "" never lengthens a string |
| `TestTypes.RemovalCanLeaveThePattern` | GraphicsTestFramework_Core/TestRunners/TestTypes.cs:37 | one pass does not rescan: removing "Model" from "MoModeldel" leaves "Model" |
| `BuildSettings.ProductName` | Core/Editor/BuildSettings.cs:104-130 | aborts exactly on null settings, or on a null override with no suites; a non-null override (empty included) is the name; otherwise "UTF_Various" for several suites and "UTF_" + name for one |
| `BuildSettings.SetApplicationSettings` | Core/Editor/BuildSettings.cs:101-134 | the company name is always written; on abort nothing else changes; otherwise the product name is set and every group below the platform count gets "com.UnityTechnologies." + product name, other groups untouched |
| `BuildSettings.SetScriptingDefines` | Core/Editor/BuildSettings.cs:65-80 | fails exactly on null settings; otherwise every group below the platform count gets each core then project define followed by ';', and nothing else changes |
| `BuildSettings.CoreDefinesOnly` | Core/Editor/BuildSettings.cs:68-75 | with null project defines the define string is exactly "UTF_EXISTS;" |
| `BuildSettings.StartsWithCoreDefine` | Core/Editor/BuildSettings.cs:11-14 | the define string always starts with "UTF_EXISTS;" |
| `BuildSettings.SplitTerminated` | Core/Editor/BuildSettings.cs:68-75 | splitting the concatenation at ';' gives back the defines followed by one empty string, when no define contains ';' |
| `BuildSettings.DefineStringRoundTrip` | Core/Editor/BuildSettings.cs:68-75 | when no project define contains ';', splitting the written string at ';' gives the core define, then the project defines, then one empty string |

## Left out

- `Resources.LoadAll` and `AssetDatabase.GetAssetPath` (SuiteManager.cs:61, 76): asset I/O. The loaded assets and their scene paths are an input sequence.
- The `EditorBuildSettings.scenes` write (SuiteManager.cs:87): editor I/O. The build-scene list is returned instead.
- The second pass of the build (SuiteManager.cs:88-96): it resolves scene handles and names through `SceneManager.GetSceneByPath` and logs them. This is a host-engine call. `Scene` therefore carries only its path, and its `sceneName` and `scene` fields are not modelled.
- The `Instance` singleton, `FindObjectOfType` and the menu entry (SuiteManager.cs:18-27, 50-54): Unity object lookup and UI wiring.
- The loop over one asset's scenes (SuiteManager.cs:69-83) is the method `NewSuiteScenes`, which `CreateSuiteAndSceneStructure` calls. This keeps each proof small. In the code the loop is written inline.
- `Suite` and `Scene` are C# classes whose `scenes` list is appended in place. They are modelled as values. Each new suite is fresh and unshared, so no aliasing is lost. The model does not capture a later in-place change made through a shared reference.
- `Activator.CreateInstance` (TestTypes.cs:45): reflection. It is the `create` parameter of `GetModelInstance`, which may fail.
- The public `typeList` getter (TestTypes.cs:21) returns the mutable dictionary itself. The model's registry is an immutable constant, so outside mutation through that getter is not modelled.
- `ReplaceAll` requires a non-empty pattern. `String.Replace` throws on an empty pattern, and both call sites pass non-empty constants.
- C# null strings are not modelled: a null suite name, a null define entry, and a null `suiteList` (which would throw).
- The editor window, `ShowWindow`, `OnGUI`, `PrepareBuild`, `PrepareDebugBuild`, `GetUnityVersionInfo`, `SetPlayerSettings`, `SetQualitySettings`, the bundle-version write and the `IPreprocessBuild` hook (BuildSettings.cs:17-62, 84-98, 139-152): host property setting and editor plumbing.
- `Debug.LogError` messages on abort: logging only.
- `SuiteManager.GenerateSceneList`, `GetProjectSettings`, `SetProjectSettings`, `Common` and `ProjectSettings` are not part of this model. The project settings object is an input holding only the fields read here. Its `suiteList` entries are modelled as `SuiteEntry` records holding only the `suiteName` that is read.
- `Enum.GetNames(typeof(BuildTargetGroup)).Length` (BuildSettings.cs:76, 132) is the `platformCount` parameter. Group `i` is the key `i`.
