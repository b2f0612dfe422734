/** The build-settings editor step: the product name and application
    identifiers derived from the project settings, and the scripting-define
    string written for every build target group. */
module BuildSettings {
  import opened Wrappers

  /** An entry of the settings object's suite list; only its name is read here. */
  datatype SuiteEntry = SuiteEntry(suiteName: string)

  /** The project settings object as far as these steps read it. A null
      buildNameOverride or scriptingDefines array is None. */
  datatype ProjectSettings = ProjectSettings(
    buildNameOverride: Option<string>,
    suiteList: seq<SuiteEntry>,
    scriptingDefines: Option<seq<string>>)

  /** The player settings these steps write; the two maps are keyed by build
      target group index. */
  datatype PlayerSettings = PlayerSettings(
    companyName: string,
    productName: string,
    applicationIdentifier: map<int, string>,
    scriptingDefineSymbols: map<int, string>)

  datatype Error = NullProjectSettings

  const CoreScriptingDefines: seq<string> := ["UTF_EXISTS"]
  const CompanyName: string := "Unity Technologies"
  const IdentifierPrefix: string := "com.UnityTechnologies."

  // ---------------------------------------------------------------------------
  // Product name

  /** The product name SetApplicationSettings applies, or None when it aborts. */
  function ProductName(settings: Option<ProjectSettings>): (r: Option<string>)
    ensures r.None? <==> settings.None? ||
                         (settings.value.buildNameOverride.None? && |settings.value.suiteList| == 0)
    ensures settings.Some? && settings.value.buildNameOverride.Some? ==>
              r == settings.value.buildNameOverride
    ensures settings.Some? && settings.value.buildNameOverride.None? && |settings.value.suiteList| > 1 ==>
              r == Some("UTF_Various")
    ensures settings.Some? && settings.value.buildNameOverride.None? && |settings.value.suiteList| == 1 ==>
              r == Some("UTF_" + settings.value.suiteList[0].suiteName)
  {
    match settings
    case None => None
    case Some(s) =>
      var productName := "";
      match s.buildNameOverride
      case Some(name) => Some(if |name| > 0 then name else productName)
      case None =>
        if |s.suiteList| == 0 then None
        else if |s.suiteList| > 1 then Some("UTF_Various")
        else Some("UTF_" + s.suiteList[0].suiteName)
  }

  /** SetApplicationSettings: the company name is written first, even when the
      step then aborts; otherwise the product name and, for every build target
      group below platformCount, the application identifier are written. */
  method SetApplicationSettings(settings: Option<ProjectSettings>, platformCount: nat, player: PlayerSettings)
    returns (r: PlayerSettings)
    ensures r.companyName == CompanyName
    ensures r.scriptingDefineSymbols == player.scriptingDefineSymbols
    ensures ProductName(settings).None? ==> r == player.(companyName := CompanyName)
    ensures ProductName(settings).Some? ==>
              r.productName == ProductName(settings).value &&
              (forall g :: g in r.applicationIdentifier <==> g in player.applicationIdentifier || 0 <= g < platformCount) &&
              (forall g :: 0 <= g < platformCount ==> r.applicationIdentifier[g] == IdentifierPrefix + r.productName) &&
              (forall g :: g in player.applicationIdentifier && !(0 <= g < platformCount) ==>
                 r.applicationIdentifier[g] == player.applicationIdentifier[g])
  {
    r := player.(companyName := CompanyName);
    var productName := ProductName(settings);
    if productName.None? {
      return;
    }
    r := r.(productName := productName.value);
    for i := 0 to platformCount
      invariant r.companyName == CompanyName && r.productName == productName.value
      invariant r.scriptingDefineSymbols == player.scriptingDefineSymbols
      invariant forall g :: g in r.applicationIdentifier <==> g in player.applicationIdentifier || 0 <= g < i
      invariant forall g :: 0 <= g < i ==> r.applicationIdentifier[g] == IdentifierPrefix + productName.value
      invariant forall g :: g in player.applicationIdentifier && !(0 <= g < i) ==>
                  r.applicationIdentifier[g] == player.applicationIdentifier[g]
    {
      r := r.(applicationIdentifier := r.applicationIdentifier[i := IdentifierPrefix + productName.value]);
    }
  }

  // ---------------------------------------------------------------------------
  // Scripting defines

  /** Each define followed by ';'. */
  function Terminated(defines: seq<string>): string
  {
    if defines == [] then "" else defines[0] + ";" + Terminated(defines[1..])
  }

  /** The defines written: the core ones, then the project's, if any. */
  function AllDefines(settings: ProjectSettings): seq<string>
  {
    CoreScriptingDefines + match settings.scriptingDefines case None => [] case Some(ds) => ds
  }

  /** Splits a string at every ';', as String.Split(';') does. */
  function Split(s: string): (parts: seq<string>)
    ensures |parts| > 0
  {
    if s == [] then [""]
    else
      var rest := Split(s[1..]);
      if s[0] == ';' then [""] + rest else [[s[0]] + rest[0]] + rest[1..]
  }

  lemma {:induction false} TerminatedSnoc(defines: seq<string>, define: string)
    ensures Terminated(defines + [define]) == Terminated(defines) + define + ";"
  {
    if defines == [] {
      assert [] + [define] == [define];
      assert [define][1..] == [];
    } else {
      assert (defines + [define])[1..] == defines[1..] + [define];
      TerminatedSnoc(defines[1..], define);
    }
  }

  /** SetScriptingDefines: builds the define string and writes it for every
      build target group below platformCount. The settings object is read
      without a null check, so a missing one throws. */
  method SetScriptingDefines(settings: Option<ProjectSettings>, platformCount: nat, player: PlayerSettings)
    returns (r: Result<PlayerSettings, Error>)
    ensures settings.None? <==> r == Err(NullProjectSettings)
    ensures settings.Some? ==>
              var output := Terminated(AllDefines(settings.value));
              r.Ok? &&
              r.value.companyName == player.companyName &&
              r.value.productName == player.productName &&
              r.value.applicationIdentifier == player.applicationIdentifier &&
              (forall g :: g in r.value.scriptingDefineSymbols <==> g in player.scriptingDefineSymbols || 0 <= g < platformCount) &&
              (forall g :: 0 <= g < platformCount ==> r.value.scriptingDefineSymbols[g] == output) &&
              (forall g :: g in player.scriptingDefineSymbols && !(0 <= g < platformCount) ==>
                 r.value.scriptingDefineSymbols[g] == player.scriptingDefineSymbols[g])
  {
    var output := "";
    for i := 0 to |CoreScriptingDefines|
      invariant output == Terminated(CoreScriptingDefines[..i])
    {
      TerminatedSnoc(CoreScriptingDefines[..i], CoreScriptingDefines[i]);
      assert CoreScriptingDefines[..i + 1] == CoreScriptingDefines[..i] + [CoreScriptingDefines[i]];
      output := output + CoreScriptingDefines[i] + ";";
    }
    assert CoreScriptingDefines[..|CoreScriptingDefines|] == CoreScriptingDefines;
    if settings.None? {
      return Err(NullProjectSettings);
    }
    var projectSettings := settings.value;
    if projectSettings.scriptingDefines.Some? {
      var defines := projectSettings.scriptingDefines.value;
      for i := 0 to |defines|
        invariant output == Terminated(CoreScriptingDefines + defines[..i])
      {
        TerminatedSnoc(CoreScriptingDefines + defines[..i], defines[i]);
        assert CoreScriptingDefines + defines[..i + 1] == CoreScriptingDefines + defines[..i] + [defines[i]];
        output := output + defines[i] + ";";
      }
      assert defines[..|defines|] == defines;
    } else {
      assert CoreScriptingDefines + [] == CoreScriptingDefines;
    }
    var symbols := player.scriptingDefineSymbols;
    for i := 0 to platformCount
      invariant forall g :: g in symbols <==> g in player.scriptingDefineSymbols || 0 <= g < i
      invariant forall g :: 0 <= g < i ==> symbols[g] == output
      invariant forall g :: g in player.scriptingDefineSymbols && !(0 <= g < i) ==>
                  symbols[g] == player.scriptingDefineSymbols[g]
    {
      symbols := symbols[i := output];
    }
    return Ok(player.(scriptingDefineSymbols := symbols));
  }

  // ---------------------------------------------------------------------------
  // Properties

  /** With no project defines the string is the core define alone. */
  lemma CoreDefinesOnly(settings: ProjectSettings)
    requires settings.scriptingDefines.None?
    ensures Terminated(AllDefines(settings)) == "UTF_EXISTS;"
  {
    assert AllDefines(settings) == ["UTF_EXISTS"];
    assert ["UTF_EXISTS"][1..] == [];
  }

  /** The define string always starts with the core define. */
  lemma StartsWithCoreDefine(settings: ProjectSettings)
    ensures "UTF_EXISTS;" <= Terminated(AllDefines(settings))
  {
    var ds := AllDefines(settings);
    assert ds[0] == "UTF_EXISTS" && ds[1..] == match settings.scriptingDefines case None => [] case Some(d) => d;
  }

  lemma {:induction false} SplitField(field: string, rest: string)
    requires ';' !in field
    ensures Split(field + ";" + rest) == [field] + Split(rest)
  {
    if field == [] {
      assert field + ";" + rest == [';'] + rest;
      assert (field + ";" + rest)[1..] == rest;
    } else {
      assert (field + ";" + rest)[1..] == field[1..] + ";" + rest;
      SplitField(field[1..], rest);
      assert [field[0]] + field[1..] == field;
    }
  }

  /** Splitting the define string at ';' gives back the defines, followed by
      the empty string after the last ';', when no define contains ';'. */
  lemma {:induction false} SplitTerminated(defines: seq<string>)
    requires forall i :: 0 <= i < |defines| ==> ';' !in defines[i]
    ensures Split(Terminated(defines)) == defines + [""]
  {
    if defines != [] {
      SplitField(defines[0], Terminated(defines[1..]));
      SplitTerminated(defines[1..]);
      assert defines == [defines[0]] + defines[1..];
    }
  }

  /** When no project define contains ';', the define string written splits
      at ';' into the core define, the project defines, and one empty string
      after the last ';'. */
  lemma DefineStringRoundTrip(settings: ProjectSettings)
    requires settings.scriptingDefines.Some? ==>
               forall i :: 0 <= i < |settings.scriptingDefines.value| ==> ';' !in settings.scriptingDefines.value[i]
    ensures Split(Terminated(AllDefines(settings))) == AllDefines(settings) + [""]
  {
    var ds := AllDefines(settings);
    forall i | 0 <= i < |ds| ensures ';' !in ds[i] {
      if i > 0 {
        assert ds[i] == settings.scriptingDefines.value[i - 1];
      }
    }
    SplitTerminated(ds);
  }
}
