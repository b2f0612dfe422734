/** The local suite and scene structure that the suite manager builds from the
    loaded Suite assets, and the editor build-scene list it produces beside it. */
module Structure {
  import opened Wrappers

  /** One scene of a built suite. The first pass sets only its asset path. */
  datatype Scene = Scene(path: string)

  /** One suite of the local structure: its name and its own ordered scenes. */
  datatype Suite = Suite(suiteName: string, scenes: seq<Scene>)

  /** A loaded Suite asset: the asset object's name, its SuiteName property,
      and its scene references, each either null or known by its asset path. */
  datatype SuiteAsset = SuiteAsset(name: string, suiteName: string, scenes: seq<Option<string>>)

  /** An entry of the editor's build-scene list. */
  datatype BuildScene = BuildScene(path: string, enabled: bool)

  predicate HasSuite(suites: seq<Suite>, name: string)
  {
    exists k :: 0 <= k < |suites| && suites[k].suiteName == name
  }

  predicate HasPath(list: seq<BuildScene>, path: string)
  {
    exists k :: 0 <= k < |list| && list[k].path == path
  }

  predicate DistinctPaths(list: seq<BuildScene>)
  {
    forall j, k :: 0 <= j < k < |list| ==> list[j].path != list[k].path
  }

  predicate DistinctNames(suites: seq<Suite>)
  {
    forall j, k :: 0 <= j < k < |suites| ==> suites[j].suiteName != suites[k].suiteName
  }

  // ---------------------------------------------------------------------------
  // Specification of one build

  /** The scene a reference contributes: none for a null reference. */
  function SceneOf(ref: Option<string>): seq<Scene>
  {
    match ref
    case None => []
    case Some(p) => [Scene(p)]
  }

  /** The scenes of a suite asset with the null references dropped. */
  function PresentScenes(refs: seq<Option<string>>): seq<Scene>
  {
    if refs == [] then [] else PresentScenes(refs[..|refs| - 1]) + SceneOf(refs[|refs| - 1])
  }

  /** The suite built from one asset that is not skipped. */
  function NewSuite(asset: SuiteAsset): Suite
  {
    Suite(asset.suiteName, PresentScenes(asset.scenes))
  }

  /** The suite list after scanning the assets in order: an asset is skipped
      when a suite already kept has a suiteName equal to the ASSET's name. */
  function KeptSuites(assets: seq<SuiteAsset>): seq<Suite>
  {
    if assets == [] then []
    else
      var kept := KeptSuites(assets[..|assets| - 1]);
      var asset := assets[|assets| - 1];
      if HasSuite(kept, asset.name) then kept else kept + [NewSuite(asset)]
  }

  function ScenePaths(scenes: seq<Scene>): seq<string>
  {
    seq(|scenes|, k requires 0 <= k < |scenes| => scenes[k].path)
  }

  /** Every scene path of the suites, suite by suite, in order. */
  function SuitePaths(suites: seq<Suite>): seq<string>
  {
    if suites == [] then [] else SuitePaths(suites[..|suites| - 1]) + ScenePaths(suites[|suites| - 1].scenes)
  }

  /** Appends an enabled entry for path unless some entry already has it. */
  function AddScene(list: seq<BuildScene>, path: string): seq<BuildScene>
  {
    if HasPath(list, path) then list else list + [BuildScene(path, true)]
  }

  function AddScenes(list: seq<BuildScene>, paths: seq<string>): seq<BuildScene>
  {
    if paths == [] then list else AddScene(AddScenes(list, paths[..|paths| - 1]), paths[|paths| - 1])
  }

  /** The build-scene list: the master scene, then every scene path met. */
  function BuildSceneList(masterPath: string, suites: seq<Suite>): seq<BuildScene>
  {
    AddScenes([BuildScene(masterPath, true)], SuitePaths(suites))
  }

  function Paths(list: seq<BuildScene>): seq<string>
  {
    seq(|list|, k requires 0 <= k < |list| => list[k].path)
  }

  /** Reference definition: the elements of xs not seen earlier in xs, in order. */
  function FirstOccurrences(xs: seq<string>): seq<string>
  {
    if xs == [] then []
    else
      var init := xs[..|xs| - 1];
      FirstOccurrences(init) + (if xs[|xs| - 1] in init then [] else [xs[|xs| - 1]])
  }

  /** idx gives, for each kept suite, the index of the asset it was built
      from, in strictly increasing order. */
  predicate IndexesKept(assets: seq<SuiteAsset>, idx: seq<nat>)
  {
    var kept := KeptSuites(assets);
    && |idx| == |kept|
    && (forall j :: 0 <= j < |idx| ==> idx[j] < |assets| && kept[j] == NewSuite(assets[idx[j]]))
    && (forall j, k :: 0 <= j < k < |idx| ==> idx[j] < idx[k])
  }

  /** For each kept suite, the index of the asset it was built from. */
  function KeptIndices(assets: seq<SuiteAsset>): (idx: seq<nat>)
    ensures IndexesKept(assets, idx)
  {
    if assets == [] then []
    else
      var n := |assets| - 1;
      var prev := KeptIndices(assets[..n]);
      var idx := if HasSuite(KeptSuites(assets[..n]), assets[n].name) then prev else prev + [n];
      KeptIndicesStep(assets, prev);
      idx
  }

  lemma KeptIndicesStep(assets: seq<SuiteAsset>, prev: seq<nat>)
    requires assets != [] && IndexesKept(assets[..|assets| - 1], prev)
    ensures var n := |assets| - 1;
            IndexesKept(assets, if HasSuite(KeptSuites(assets[..n]), assets[n].name) then prev else prev + [n])
  {
    var n := |assets| - 1;
    var init := assets[..n];
    forall j | 0 <= j < |prev| ensures assets[prev[j]] == init[prev[j]] {
    }
    if !HasSuite(KeptSuites(init), assets[n].name) {
      var idx := prev + [n];
      assert KeptSuites(assets) == KeptSuites(init) + [NewSuite(assets[n])];
      assert idx[|prev|] == n;
    }
  }

  // ---------------------------------------------------------------------------
  // The suite manager

  class SuiteManager {
    /** The local suite and scene structure. */
    var suites: seq<Suite>

    constructor ()
      ensures suites == []
    {
      suites := [];
    }

    /** The names of the suites, in order. */
    method GetSuiteNames() returns (suiteNames: array<string>)
      ensures fresh(suiteNames)
      ensures suiteNames.Length == |suites|
      ensures forall i :: 0 <= i < |suites| ==> suiteNames[i] == suites[i].suiteName
    {
      suiteNames := new string[|suites|];
      for i := 0 to suiteNames.Length
        invariant forall j :: 0 <= j < i ==> suiteNames[j] == suites[j].suiteName
      {
        suiteNames[i] := suites[i].suiteName;
      }
    }

    /** Whether some suite already kept has this name. */
    method FindDuplicateSuite(name: string) returns (found: bool)
      ensures found <==> HasSuite(suites, name)
    {
      for k := 0 to |suites|
        invariant forall j :: 0 <= j < k ==> suites[j].suiteName != name
      {
        if suites[k].suiteName == name {
          return true;
        }
      }
      return false;
    }

    /** Whether some build-scene entry already has this path. */
    method FindDuplicateScene(buildSettingsScenes: seq<BuildScene>, path: string) returns (found: bool)
      ensures found <==> HasPath(buildSettingsScenes, path)
    {
      for k := 0 to |buildSettingsScenes|
        invariant forall j :: 0 <= j < k ==> buildSettingsScenes[j].path != path
      {
        if buildSettingsScenes[k].path == path {
          return true;
        }
      }
      return false;
    }

    /** The inner loop of the build: the suite made from one asset that is not
        skipped, with each non-null scene path also added to the build-scene
        list unless that list already has it. */
    method NewSuiteScenes(asset: SuiteAsset, buildSettingsScenes: seq<BuildScene>)
      returns (newSuite: Suite, scenesOut: seq<BuildScene>)
      ensures newSuite == NewSuite(asset)
      ensures scenesOut == AddScenes(buildSettingsScenes, ScenePaths(newSuite.scenes))
    {
      newSuite := Suite(asset.suiteName, []);
      scenesOut := buildSettingsScenes;
      for s := 0 to |asset.scenes|
        invariant newSuite == Suite(asset.suiteName, PresentScenes(asset.scenes[..s]))
        invariant scenesOut == AddScenes(buildSettingsScenes, ScenePaths(newSuite.scenes))
      {
        assert asset.scenes[..s + 1] == asset.scenes[..s] + [asset.scenes[s]];
        if asset.scenes[s].Some? {
          var pathToScene := asset.scenes[s].value;
          ScenePathsSnoc(newSuite.scenes, Scene(pathToScene));
          AddScenesSnoc(buildSettingsScenes, ScenePaths(newSuite.scenes), pathToScene);
          newSuite := newSuite.(scenes := newSuite.scenes + [Scene(pathToScene)]);
          var duplicateScene := FindDuplicateScene(scenesOut, pathToScene);
          if !duplicateScene {
            scenesOut := scenesOut + [BuildScene(pathToScene, true)];
          }
        }
      }
      assert asset.scenes[..|asset.scenes|] == asset.scenes;
    }

    /** First pass of the structure build: resets the suite list, keeps the
        suites that are not duplicates, and returns the build-scene list that
        is handed to the editor. */
    method CreateSuiteAndSceneStructure(allSuites: seq<SuiteAsset>, thisScenePath: string)
      returns (buildSettingsScenes: seq<BuildScene>)
      modifies this
      ensures suites == KeptSuites(allSuites)
      ensures buildSettingsScenes == BuildSceneList(thisScenePath, suites)
    {
      var master := [BuildScene(thisScenePath, true)];
      suites := [];
      buildSettingsScenes := master;
      for i := 0 to |allSuites|
        invariant suites == KeptSuites(allSuites[..i])
        invariant buildSettingsScenes == AddScenes(master, SuitePaths(suites))
      {
        var asset := allSuites[i];
        assert allSuites[..i + 1] == allSuites[..i] + [asset];
        KeptSuitesStep(allSuites[..i], asset);
        var duplicate := FindDuplicateSuite(asset.name);
        if !duplicate {
          var newSuite;
          newSuite, buildSettingsScenes := NewSuiteScenes(asset, buildSettingsScenes);
          AddScenesAppend(master, SuitePaths(suites), ScenePaths(newSuite.scenes));
          SuitePathsSnoc(suites, newSuite);
          suites := suites + [newSuite];
        }
      }
      assert allSuites[..|allSuites|] == allSuites;
    }
  }

  // ---------------------------------------------------------------------------
  // Helper facts about the specification functions

  lemma ScenePathsSnoc(scenes: seq<Scene>, scene: Scene)
    ensures ScenePaths(scenes + [scene]) == ScenePaths(scenes) + [scene.path]
  {
  }

  lemma SuitePathsSnoc(suites: seq<Suite>, suite: Suite)
    ensures SuitePaths(suites + [suite]) == SuitePaths(suites) + ScenePaths(suite.scenes)
  {
    assert (suites + [suite])[..|suites|] == suites;
  }

  lemma AddScenesSnoc(list: seq<BuildScene>, paths: seq<string>, path: string)
    ensures AddScenes(list, paths + [path]) == AddScene(AddScenes(list, paths), path)
  {
    assert (paths + [path])[..|paths|] == paths;
  }

  lemma {:induction false} AddScenesAppend(list: seq<BuildScene>, xs: seq<string>, ys: seq<string>)
    ensures AddScenes(list, xs + ys) == AddScenes(AddScenes(list, xs), ys)
  {
    if ys == [] {
      assert xs + ys == xs;
    } else {
      var init := ys[..|ys| - 1];
      var y := ys[|ys| - 1];
      AddScenesAppend(list, xs, init);
      assert xs + ys == (xs + init) + [y];
      AddScenesSnoc(list, xs + init, y);
      AddScenesSnoc(AddScenes(list, xs), init, y);
      assert ys == init + [y];
    }
  }

  lemma HasPathIffInPaths(list: seq<BuildScene>, path: string)
    ensures HasPath(list, path) <==> path in Paths(list)
  {
    if path in Paths(list) {
      var k :| 0 <= k < |Paths(list)| && Paths(list)[k] == path;
      assert list[k].path == path;
    }
    if HasPath(list, path) {
      var k :| 0 <= k < |list| && list[k].path == path;
      assert Paths(list)[k] == path;
    }
  }

  lemma {:induction false} AddScenesExtends(list: seq<BuildScene>, paths: seq<string>)
    ensures list <= AddScenes(list, paths)
  {
    if paths != [] {
      AddScenesExtends(list, paths[..|paths| - 1]);
    }
  }

  lemma {:induction false} FirstOccurrencesMembers(xs: seq<string>, x: string)
    ensures x in FirstOccurrences(xs) <==> x in xs
  {
    if xs != [] {
      var init := xs[..|xs| - 1];
      assert xs == init + [xs[|xs| - 1]];
      FirstOccurrencesMembers(init, x);
    }
  }

  lemma {:induction false} AddScenesPaths(list: seq<BuildScene>, pre: seq<string>, paths: seq<string>)
    requires Paths(list) == FirstOccurrences(pre)
    ensures Paths(AddScenes(list, paths)) == FirstOccurrences(pre + paths)
  {
    if paths == [] {
      assert pre + paths == pre;
    } else {
      var init := paths[..|paths| - 1];
      var x := paths[|paths| - 1];
      AddScenesPaths(list, pre, init);
      var done := AddScenes(list, init);
      HasPathIffInPaths(done, x);
      FirstOccurrencesMembers(pre + init, x);
      assert (pre + paths)[..|pre + paths| - 1] == pre + init;
      if !HasPath(done, x) {
        assert Paths(done + [BuildScene(x, true)]) == Paths(done) + [x];
      }
    }
  }

  lemma {:induction false} AddScenesEnabled(list: seq<BuildScene>, paths: seq<string>)
    requires forall k :: 0 <= k < |list| ==> list[k].enabled
    ensures forall k :: 0 <= k < |AddScenes(list, paths)| ==> AddScenes(list, paths)[k].enabled
  {
    if paths != [] {
      AddScenesEnabled(list, paths[..|paths| - 1]);
    }
  }

  lemma {:induction false} FirstOccurrencesDistinct(xs: seq<string>)
    ensures forall j, k :: 0 <= j < k < |FirstOccurrences(xs)| ==> FirstOccurrences(xs)[j] != FirstOccurrences(xs)[k]
  {
    if xs != [] {
      var init := xs[..|xs| - 1];
      FirstOccurrencesDistinct(init);
      FirstOccurrencesMembers(init, xs[|xs| - 1]);
    }
  }

  lemma {:induction false} SuitePathsContains(suites: seq<Suite>, j: nat, k: nat)
    requires j < |suites| && k < |suites[j].scenes|
    ensures suites[j].scenes[k].path in SuitePaths(suites)
  {
    var init := suites[..|suites| - 1];
    if j < |suites| - 1 {
      assert init[j] == suites[j];
      SuitePathsContains(init, j, k);
    } else {
      assert ScenePaths(suites[j].scenes)[k] == suites[j].scenes[k].path;
    }
  }

  lemma {:induction false} PresentScenesAppend(x: seq<Option<string>>, y: seq<Option<string>>)
    ensures PresentScenes(x + y) == PresentScenes(x) + PresentScenes(y)
  {
    if y == [] {
      assert x + y == x;
    } else {
      var init := y[..|y| - 1];
      PresentScenesAppend(x, init);
      assert (x + y)[..|x + y| - 1] == x + init;
    }
  }

  // ---------------------------------------------------------------------------
  // Properties of the build

  /** The build-scene list starts with the master scene, whatever the suites. */
  lemma BuildListStartsWithMaster(masterPath: string, suites: seq<Suite>)
    ensures |BuildSceneList(masterPath, suites)| > 0
    ensures BuildSceneList(masterPath, suites)[0] == BuildScene(masterPath, true)
  {
    AddScenesExtends([BuildScene(masterPath, true)], SuitePaths(suites));
  }

  /** The build-scene list is the master path followed by every scene path of
      the suites, each kept at its first occurrence, every entry enabled. */
  lemma BuildListIsFirstOccurrences(masterPath: string, suites: seq<Suite>)
    ensures Paths(BuildSceneList(masterPath, suites)) == FirstOccurrences([masterPath] + SuitePaths(suites))
    ensures forall k :: 0 <= k < |BuildSceneList(masterPath, suites)| ==> BuildSceneList(masterPath, suites)[k].enabled
  {
    var master := [BuildScene(masterPath, true)];
    assert [masterPath][..0] == [];
    assert Paths(master) == [masterPath] == FirstOccurrences([masterPath]);
    AddScenesPaths(master, [masterPath], SuitePaths(suites));
    AddScenesEnabled(master, SuitePaths(suites));
  }

  /** No path appears twice in the build-scene list. */
  lemma BuildListDistinct(masterPath: string, suites: seq<Suite>)
    ensures DistinctPaths(BuildSceneList(masterPath, suites))
  {
    var list := BuildSceneList(masterPath, suites);
    BuildListIsFirstOccurrences(masterPath, suites);
    FirstOccurrencesDistinct([masterPath] + SuitePaths(suites));
    forall j, k | 0 <= j < k < |list| ensures list[j].path != list[k].path {
      assert Paths(list)[j] == list[j].path && Paths(list)[k] == list[k].path;
    }
  }

  /** A path is in the build-scene list exactly when it is the master path or
      a scene path of some suite. */
  lemma BuildListMembers(masterPath: string, suites: seq<Suite>, path: string)
    ensures HasPath(BuildSceneList(masterPath, suites), path) <==> path == masterPath || path in SuitePaths(suites)
  {
    BuildListIsFirstOccurrences(masterPath, suites);
    HasPathIffInPaths(BuildSceneList(masterPath, suites), path);
    FirstOccurrencesMembers([masterPath] + SuitePaths(suites), path);
  }

  /** Every scene of every kept suite has its entry in the build-scene list. */
  lemma BuildListCoversSuites(masterPath: string, suites: seq<Suite>, j: nat, k: nat)
    requires j < |suites| && k < |suites[j].scenes|
    ensures HasPath(BuildSceneList(masterPath, suites), suites[j].scenes[k].path)
  {
    SuitePathsContains(suites, j, k);
    BuildListMembers(masterPath, suites, suites[j].scenes[k].path);
  }

  /** Dropping null references is an order-preserving filter: it distributes
      over concatenation, and a path survives exactly when it was referenced. */
  lemma {:induction false} PresentScenesFilter(refs: seq<Option<string>>, path: string)
    ensures Scene(path) in PresentScenes(refs) <==> Some(path) in refs
    ensures |PresentScenes(refs)| <= |refs|
  {
    if refs != [] {
      var init := refs[..|refs| - 1];
      assert refs == init + [refs[|refs| - 1]];
      PresentScenesFilter(init, path);
    }
  }

  /** An asset is skipped exactly when a kept suite has the asset's name as its
      suiteName; otherwise exactly its suite is appended. */
  lemma KeptSuitesStep(assets: seq<SuiteAsset>, asset: SuiteAsset)
    ensures HasSuite(KeptSuites(assets), asset.name) <==> KeptSuites(assets + [asset]) == KeptSuites(assets)
    ensures !HasSuite(KeptSuites(assets), asset.name) ==> KeptSuites(assets + [asset]) == KeptSuites(assets) + [NewSuite(asset)]
  {
    assert (assets + [asset])[..|assets|] == assets;
  }

  /** A build keeps at most one suite per asset. */
  lemma {:induction false} KeptSuitesBound(assets: seq<SuiteAsset>)
    ensures |KeptSuites(assets)| <= |assets|
  {
    if assets != [] {
      KeptSuitesBound(assets[..|assets| - 1]);
    }
  }

  /** When every asset's name equals its SuiteName, no two kept suites share a name. */
  lemma {:induction false} KeptNamesDistinct(assets: seq<SuiteAsset>)
    requires forall i :: 0 <= i < |assets| ==> assets[i].name == assets[i].suiteName
    ensures DistinctNames(KeptSuites(assets))
  {
    if assets != [] {
      KeptNamesDistinct(assets[..|assets| - 1]);
    }
  }

  /** The duplicate check compares the asset's name, so two assets with
      different names and the same SuiteName are both kept. */
  lemma DuplicateNamesKept()
    ensures KeptSuites([SuiteAsset("A", "X", []), SuiteAsset("B", "X", [])]) == [Suite("X", []), Suite("X", [])]
    ensures !DistinctNames(KeptSuites([SuiteAsset("A", "X", []), SuiteAsset("B", "X", [])]))
  {
    var a, b := SuiteAsset("A", "X", []), SuiteAsset("B", "X", []);
    KeptSuitesStep([], a);
    assert [] + [a] == [a];
    assert !HasSuite([Suite("X", [])], "B");
    KeptSuitesStep([a], b);
    assert [a] + [b] == [a, b];
    var kept := KeptSuites([a, b]);
    assert kept == [Suite("X", []), Suite("X", [])];
    assert kept[0].suiteName == kept[1].suiteName;
  }

  /** and an asset whose own SuiteName is new is skipped when its asset name
      matches an earlier suite's SuiteName. */
  lemma NewNameSkipped()
    ensures KeptSuites([SuiteAsset("X", "A", []), SuiteAsset("A", "B", [])]) == [Suite("A", [])]
  {
    var a, b := SuiteAsset("X", "A", []), SuiteAsset("A", "B", []);
    KeptSuitesStep([], a);
    assert [] + [a] == [a];
    assert KeptSuites([a]) == [Suite("A", [])];
    assert HasSuite([Suite("A", [])], "A") by { assert [Suite("A", [])][0].suiteName == "A"; }
    KeptSuitesStep([a], b);
    assert [a] + [b] == [a, b];
  }

  /** Worked example: a repeated suite is dropped, null references are skipped, */
  lemma ExampleSuites(a: SuiteAsset, a': SuiteAsset, b: SuiteAsset)
    requires a == SuiteAsset("A", "A", [Some("x"), Some("y")])
    requires a' == SuiteAsset("A", "A", [Some("z")])
    requires b == SuiteAsset("B", "B", [Some("y"), None, Some("w")])
    ensures KeptSuites([a, a', b]) == [Suite("A", [Scene("x"), Scene("y")]), Suite("B", [Scene("y"), Scene("w")])]
  {
    var sa, sb := Suite("A", [Scene("x"), Scene("y")]), Suite("B", [Scene("y"), Scene("w")]);
    ExampleNewSuites(a, b);
    var s1, s2 := [a], [a, a'];
    assert KeptSuites(s1) == [sa] by {
      KeptSuitesStep([], a);
      assert [] + [a] == s1;
    }
    assert KeptSuites(s2) == [sa] by {
      KeptSuitesStep(s1, a');
      assert HasSuite([sa], a'.name) by { assert [sa][0].suiteName == "A"; }
      assert s1 + [a'] == s2;
    }
    KeptSuitesStep(s2, b);
    assert !HasSuite([sa], b.name);
    assert s2 + [b] == [a, a', b];
  }

  lemma ExampleNewSuites(a: SuiteAsset, b: SuiteAsset)
    requires a == SuiteAsset("A", "A", [Some("x"), Some("y")])
    requires b == SuiteAsset("B", "B", [Some("y"), None, Some("w")])
    ensures NewSuite(a) == Suite("A", [Scene("x"), Scene("y")])
    ensures NewSuite(b) == Suite("B", [Scene("y"), Scene("w")])
  {
    assert [Some("x"), Some("y")][..1] == [Some("x")];
    assert PresentScenes([Some("x")]) == [Scene("x")];
    assert [Some("y"), None, Some("w")][..2] == [Some("y"), None];
    assert [Some("y"), None][..1] == [Some("y")];
    assert PresentScenes([Some("y")]) == [Scene("y")];
  }

  /** and a scene shared by two suites is listed once, after the master scene. */
  lemma ExampleBuildList(sa: Suite, sb: Suite)
    requires sa == Suite("A", [Scene("x"), Scene("y")])
    requires sb == Suite("B", [Scene("y"), Scene("w")])
    ensures BuildSceneList("m", [sa, sb])
         == [BuildScene("m", true), BuildScene("x", true), BuildScene("y", true), BuildScene("w", true)]
  {
    assert SuitePaths([sa, sb]) == ["x", "y", "y", "w"] by {
      SuitePathsSnoc([], sa);
      SuitePathsSnoc([sa], sb);
      assert [] + [sa] == [sa] && [sa] + [sb] == [sa, sb];
      assert ScenePaths(sa.scenes) == ["x", "y"];
      assert ScenePaths(sb.scenes) == ["y", "w"];
    }
    ExampleAddScenes(BuildScene("m", true), BuildScene("x", true), BuildScene("y", true), BuildScene("w", true));
  }

  /** The four insertion steps of ExampleBuildList. */
  lemma ExampleAddScenes(m: BuildScene, x: BuildScene, y: BuildScene, w: BuildScene)
    requires m == BuildScene("m", true) && x == BuildScene("x", true)
    requires y == BuildScene("y", true) && w == BuildScene("w", true)
    ensures AddScenes([m], ["x", "y", "y", "w"]) == [m, x, y, w]
  {
    AddScenesSnoc([m], [], "x");
    assert [] + ["x"] == ["x"];
    assert !HasPath([m], "x");
    assert AddScenes([m], ["x"]) == [m, x];
    AddScenesSnoc([m], ["x"], "y");
    assert ["x"] + ["y"] == ["x", "y"];
    assert !HasPath([m, x], "y");
    assert AddScenes([m], ["x", "y"]) == [m, x, y];
    AddScenesSnoc([m], ["x", "y"], "y");
    assert ["x", "y"] + ["y"] == ["x", "y", "y"];
    assert HasPath([m, x, y], "y") by { assert [m, x, y][2].path == "y"; }
    assert AddScenes([m], ["x", "y", "y"]) == [m, x, y];
    AddScenesSnoc([m], ["x", "y", "y"], "w");
    assert ["x", "y", "y"] + ["w"] == ["x", "y", "y", "w"];
    assert !HasPath([m, x, y], "w");
    assert AddScenes([m], ["x", "y", "y", "w"]) == [m, x, y, w];
  }
}
