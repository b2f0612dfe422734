/** The master dictionary of test types: test-model type names keyed by the
    integer index stored in test configuration. */
module TestTypes {
  import opened Wrappers

  /** Why a registry operation fails. */
  datatype Error =
    | KeyNotFound(index: int)            // the dictionary indexer's missing-key exception
    | CreateInstanceFailed(typeName: string)

  /** The namespace that Type.ToString() puts before every class name. */
  const Namespace: string := "GraphicsTestFramework."

  /** The full names of the registered classes AverageFrameTimeModel and FrameComparisonModel. */
  const AverageFrameTimeModel: string := Namespace + "AverageFrameTime" + "Model"
  const FrameComparisonModel: string := Namespace + "FrameComparison" + "Model"

  /** The registry, fixed at initialisation: index to full type name. */
  const TypeList: map<int, string> := map[0 := AverageFrameTimeModel, 1 := FrameComparisonModel]

  // ---------------------------------------------------------------------------
  // String replacement

  /** Whether pat occurs in s at position k. */
  predicate OccursAt(s: string, pat: string, k: int)
  {
    0 <= k && k + |pat| <= |s| && s[k..k + |pat|] == pat
  }

  /** Replaces, in one left-to-right pass, every occurrence of pat that does not
      overlap an earlier replaced one; the replacements are not rescanned. */
  function ReplaceAll(s: string, pat: string, rep: string): string
    requires |pat| > 0
    decreases |s|
  {
    if |s| < |pat| then s
    else if s[..|pat|] == pat then rep + ReplaceAll(s[|pat|..], pat, rep)
    else [s[0]] + ReplaceAll(s[1..], pat, rep)
  }

  /** A type's display name: the namespace and the "Model" suffix removed. */
  function DisplayName(typeName: string): string
  {
    ReplaceAll(ReplaceAll(typeName, Namespace, ""), "Model", "")
  }

  /** A string with no occurrence of pat is left unchanged. */
  lemma {:induction false} ReplaceAllAbsent(s: string, pat: string, rep: string)
    requires |pat| > 0
    requires forall k :: !OccursAt(s, pat, k)
    ensures ReplaceAll(s, pat, rep) == s
  {
    if |s| >= |pat| {
      assert !OccursAt(s, pat, 0);
      assert forall k :: !OccursAt(s[1..], pat, k) by {
        forall k | OccursAt(s[1..], pat, k) ensures OccursAt(s, pat, k + 1) {
          assert s[k + 1..k + 1 + |pat|] == s[1..][k..k + |pat|];
        }
      }
      ReplaceAllAbsent(s[1..], pat, rep);
    }
  }

  /** The pass copies the text before the leftmost occurrence unchanged,
      replaces that occurrence, and continues after it. */
  lemma {:induction false} ReplaceAllLeftmost(x: string, pat: string, rep: string, y: string)
    requires |pat| > 0
    requires forall k :: 0 <= k < |x| ==> !OccursAt(x + pat + y, pat, k)
    ensures ReplaceAll(x + pat + y, pat, rep) == x + rep + ReplaceAll(y, pat, rep)
  {
    var s := x + pat + y;
    if x == [] {
      assert s == pat + y;
      assert s[..|pat|] == pat;
      assert s[|pat|..] == y;
    } else {
      assert !OccursAt(s, pat, 0);
      assert s[..|pat|] != pat;
      assert s[1..] == x[1..] + pat + y;
      forall k | 0 <= k < |x[1..]| ensures !OccursAt(x[1..] + pat + y, pat, k) {
        assert !OccursAt(s, pat, k + 1);
        assert s[k + 1..k + 1 + |pat|] == s[1..][k..k + |pat|];
      }
      ReplaceAllLeftmost(x[1..], pat, rep, y);
      assert [x[0]] + (x[1..] + rep + ReplaceAll(y, pat, rep)) == x + rep + ReplaceAll(y, pat, rep);
    }
  }

  /** Removing pat never lengthens a string. */
  lemma {:induction false} ReplaceAllShrinks(s: string, pat: string)
    requires |pat| > 0
    ensures |ReplaceAll(s, pat, "")| <= |s|
    decreases |s|
  {
    if |s| >= |pat| {
      if s[..|pat|] == pat {
        ReplaceAllShrinks(s[|pat|..], pat);
      } else {
        ReplaceAllShrinks(s[1..], pat);
      }
    }
  }

  /** One pass does not remove occurrences that the removal itself creates. */
  lemma RemovalCanLeaveThePattern()
    ensures ReplaceAll("MoModeldel", "Model", "") == "Model"
  {
    forall k | 0 <= k < |"Mo"| ensures !OccursAt("Mo" + "Model" + "del", "Model", k) {
      assert ("Mo" + "Model" + "del")[k + 2] != "Model"[2];
    }
    ReplaceAllLeftmost("Mo", "Model", "", "del");
    assert "Mo" + "Model" + "del" == "MoModeldel";
    FirstCharAbsent("del", "Model");
    ReplaceAllAbsent("del", "Model", "");
  }

  // ---------------------------------------------------------------------------
  // Registry operations

  /** GetTypeFromIndex: the dictionary indexer on the registry. */
  function GetTypeFromIndex(index: int): (r: Result<string, Error>)
    ensures r.Ok? <==> index in TypeList
    ensures r.Ok? ==> r.value == TypeList[index]
    ensures r.Err? ==> r.error == KeyNotFound(index)
  {
    if index in TypeList then Ok(TypeList[index]) else Err(KeyNotFound(index))
  }

  /** GetModelInstance: resolve the type, then default-construct it with the
      given constructor, which may fail. */
  function GetModelInstance<T>(index: int, create: string -> Option<T>): (r: Result<T, Error>)
    ensures GetTypeFromIndex(index).Err? ==> r == Err(KeyNotFound(index))
    ensures GetTypeFromIndex(index).Ok? ==>
              var typeName := GetTypeFromIndex(index).value;
              if create(typeName).Some? then r == Ok(create(typeName).value)
              else r == Err(CreateInstanceFailed(typeName))
  {
    match GetTypeFromIndex(index)
    case Err(e) => Err(e)
    case Ok(typeName) =>
      match create(typeName)
      case Some(instance) => Ok(instance)
      case None => Err(CreateInstanceFailed(typeName))
  }

  /** The display names of a dictionary with Count entries, read from keys
      0 .. Count - 1; the first missing key of that range throws. */
  method TypeStringList(typeList: map<int, string>) returns (r: Result<seq<string>, Error>)
    ensures r.Ok? <==> forall i :: 0 <= i < |typeList| ==> i in typeList
    ensures r.Ok? ==> |r.value| == |typeList| &&
                      forall i :: 0 <= i < |typeList| ==> r.value[i] == DisplayName(typeList[i])
    ensures r.Err? ==> r.error.KeyNotFound? && 0 <= r.error.index < |typeList| &&
                       r.error.index !in typeList &&
                       forall i :: 0 <= i < r.error.index ==> i in typeList
  {
    var output := new string[|typeList|];
    for i := 0 to |typeList|
      invariant forall j :: 0 <= j < i ==> j in typeList && output[j] == DisplayName(typeList[j])
    {
      if i !in typeList {
        return Err(KeyNotFound(i));
      }
      output[i] := DisplayName(typeList[i]);
    }
    return Ok(output[..]);
  }

  /** GetTypeStringList on the registry. */
  method GetTypeStringList() returns (r: Result<seq<string>, Error>)
    ensures r == Ok(["AverageFrameTime", "FrameComparison"])
  {
    r := TypeStringList(TypeList);
    assert |TypeList| == 2 by {
      assert TypeList.Keys == {0, 1};
    }
    DisplayNames();
    assert r.Ok?;
    assert r.value == ["AverageFrameTime", "FrameComparison"];
  }

  // ---------------------------------------------------------------------------
  // Properties of the registry

  /** The two declared indices resolve to their types, on every call. */
  lemma DeclaredIndices()
    ensures GetTypeFromIndex(0) == Ok(AverageFrameTimeModel)
    ensures GetTypeFromIndex(1) == Ok(FrameComparisonModel)
    ensures forall i :: i != 0 && i != 1 ==> GetTypeFromIndex(i) == Err(KeyNotFound(i))
  {
  }

  /** The indices 0 .. n - 1. */
  function Range(n: nat): (r: set<int>)
    ensures |r| == n
    ensures forall i :: i in r <==> 0 <= i < n
  {
    if n == 0 then {} else Range(n - 1) + {n - 1}
  }

  /** The keys 0 .. Count - 1 are all present exactly when they are the whole
      key set, which is when TypeStringList succeeds. */
  lemma DenseKeys(typeList: map<int, string>)
    ensures (forall i :: 0 <= i < |typeList| ==> i in typeList) <==> typeList.Keys == Range(|typeList|)
  {
    var range := Range(|typeList|);
    if forall i :: 0 <= i < |typeList| ==> i in typeList {
      assert range <= typeList.Keys;
      assert |typeList.Keys - range| == |typeList.Keys| - |range|;
      assert typeList.Keys - range == {};
      assert typeList.Keys == range;
    }
  }

  /** The display names of the two registered types. */
  lemma DisplayNames()
    ensures DisplayName(AverageFrameTimeModel) == "AverageFrameTime"
    ensures DisplayName(FrameComparisonModel) == "FrameComparison"
  {
    StripNamespaceAndSuffix("AverageFrameTime");
    StripNamespaceAndSuffix("FrameComparison");
  }

  /** A pattern whose first character is absent does not occur. */
  lemma FirstCharAbsent(s: string, pat: string)
    requires |pat| > 0 && pat[0] !in s
    ensures forall k :: !OccursAt(s, pat, k)
  {
  }

  /** A bare name without 'G' or 'M' is what the display name of its
      namespaced "...Model" type comes back as. */
  lemma StripNamespaceAndSuffix(name: string)
    requires 'G' !in name && 'M' !in name
    ensures DisplayName(Namespace + name + "Model") == name
  {
    var ns := Namespace;
    FirstCharAbsent(name + "Model", ns);
    forall k | 0 <= k < |name| ensures !OccursAt(name + "Model" + [], "Model", k) {
      assert (name + "Model" + [])[k] == name[k];
      assert (name + "Model" + [])[k..k + 5][0] == name[k];
    }
    assert ns + name + "Model" == [] + ns + (name + "Model");
    ReplaceAllLeftmost([], ns, "", name + "Model");
    ReplaceAllAbsent(name + "Model", ns, "");
    assert [] + "" + (name + "Model") == name + "Model";
    assert name + "Model" == name + "Model" + [];
    ReplaceAllLeftmost(name, "Model", "", []);
    assert ReplaceAll([], "Model", "") == [];
  }
}
