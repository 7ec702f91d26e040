/**
 * The single-file launch.json generator (`launchgen.ts`). One object holds
 * the runtime, launch.json, launch.config.json and the project file; a run
 * drops the entries it generated before, adds one entry per test or run file
 * of the workspaces (sorted by path), then one entry per script of each
 * custom group. Directory expansion, walking, path resolution and the locale
 * order of paths come in as parameters.
 */
module LegacyLaunch {

  import opened Wrappers
  import opened Strings
  import opened LaunchTypes
  import FileFinder
  import Generator

  datatype Runtime = Deno | Node

  function RuntimeName(r: Runtime): string
  {
    match r
    case Deno => "deno"
    case Node => "node"
  }

  /** A group of launch.config.json: a program, its runtime arguments and its scripts. */
  datatype CustomGroup = CustomGroup(
    program: string,
    runtimeArgs: Option<seq<string>>,
    scriptArgs: Option<Script>,
    scripts: Option<seq<Script>>)

  /** launch.config.json as this generator reads it; `testRuntimeArgs` is `tests.runtimeArgs`. */
  datatype Config = Config(
    port: Option<int>,
    console: Option<string>,
    testRuntimeArgs: Option<seq<string>>,
    groups: Option<seq<CustomGroup>>)

  const EmptyLegacyConfig := Config(None, None, None, None)

  /** The parts of deno.json or package.json it reads; `testsInclude` is `tests.include`. */
  datatype ProjectConfig = ProjectConfig(
    workspace: Option<seq<string>>,
    workspaces: Option<seq<string>>,
    testsInclude: Option<seq<string>>,
    testsExclude: Option<seq<string>>)

  const EmptyProject := ProjectConfig(None, None, None, None)

  /** A walked entry: its full path, its name and whether it is a file. */
  datatype WalkEntry = WalkEntry(path: string, name: string, isFile: bool)

  const DefaultLaunchSpec := LaunchJson("0.2.0", [], None, None, None)

  // ---------------------------------------------------------------------------
  // Entries

  /** `port || 9229`. */
  function ConfigPort(config: Config): (p: int)
    ensures p != 0
    ensures config.port.Some? && config.port.value != 0 <==> p == config.port.GetOr(0)
    ensures !(config.port.Some? && config.port.value != 0) ==> p == DefaultPort
  {
    if config.port.Some? && config.port.value != 0 then config.port.value else DefaultPort
  }

  /** `console || 'internalConsole'`. */
  function ConfigConsole(config: Config): (c: string)
    ensures c != ""
    ensures config.console.Some? && config.console.value != "" <==> c == config.console.GetOr("")
    ensures !(config.console.Some? && config.console.value != "") ==> c == DefaultConsole
  {
    if config.console.Some? && config.console.value != "" then config.console.value else DefaultConsole
  }

  /** The runtime arguments every test entry starts with. */
  function DefaultArgs(runtime: Runtime): seq<string>
  {
    if runtime == Deno then ["test", "--inspect-brk", "-A"] else []
  }

  /** `tests.runtimeArgs || ['--check']`: an array, even an empty one, is kept. */
  function TestArgs(config: Config): seq<string>
  {
    config.testRuntimeArgs.GetOr(["--check"])
  }

  /** The entry `addTest` builds: named and placed by the entry's name, run on the entry's path. */
  function TestEntry(runtime: Runtime, config: Config, entry: WalkEntry): LaunchConfiguration
  {
    LaunchConfiguration(
      RuntimeName(runtime), "launch", "Debug " + entry.name,
      Some(Generator.WorkspaceFolder + "/" + entry.name), Some(Generator.WorkspaceFolder),
      Some(RuntimeName(runtime)), Some(DefaultArgs(runtime) + [entry.path] + TestArgs(config)), None,
      Some(ConfigPort(config)), Some(ConfigConsole(config)), None, Some(GeneratedMarker))
  }

  /** `addTest` on each entry in turn: files give an entry, anything else nothing. */
  function TestEntries(runtime: Runtime, config: Config, entries: seq<WalkEntry>): (r: seq<LaunchConfiguration>)
    ensures |r| <= |entries|
    ensures forall c :: c in r ==> exists e :: e in entries && e.isFile && c == TestEntry(runtime, config, e)
  {
    if entries == [] then []
    else (if entries[0].isFile then [TestEntry(runtime, config, entries[0])] else [])
         + TestEntries(runtime, config, entries[1..])
  }

  /** `script.join(' ')` for an array, the script itself for a string. */
  function ScriptText(script: Script): string
  {
    match script
    case Args(a) => if a == [] then "" else Join(a, ' ')
    case Words(t) => t
  }

  /** `scriptArgs` counts only when it is an array; then the script's words follow. */
  function CustomArgs(group: CustomGroup, script: Script): seq<string>
  {
    var leading := if group.scriptArgs.Some? && group.scriptArgs.value.Args? then group.scriptArgs.value.args else [];
    leading + (match script
               case Args(a) => a
               case Words(t) => SplitSpace(t))
  }

  /** The entry for one script of a custom group. */
  function CustomEntry(runtime: Runtime, config: Config, group: CustomGroup, script: Script): LaunchConfiguration
  {
    LaunchConfiguration(
      "node", "launch", "Debug " + group.program + " " + ScriptText(script),
      Some(Generator.WorkspaceFolder + "/" + group.program), Some(Generator.WorkspaceFolder),
      Some(RuntimeName(runtime)), group.runtimeArgs, Some(CustomArgs(group, script)),
      Some(ConfigPort(config)), Some(ConfigConsole(config)), None, Some(GeneratedMarker))
  }

  /** A group whose `scripts` is missing or empty gets `['']`. */
  function DefaultScripts(group: CustomGroup): (g: CustomGroup)
    ensures g.scripts.Some? && |g.scripts.value| > 0
    ensures g == group <==> group.scripts.Some? && group.scripts.value != []
    ensures group.scripts.None? || group.scripts.value == [] ==> g.scripts == Some([Script.Words("")])
    ensures g.program == group.program && g.runtimeArgs == group.runtimeArgs && g.scriptArgs == group.scriptArgs
  {
    if group.scripts.None? || group.scripts.value == [] then group.(scripts := Some([Script.Words("")])) else group
  }

  function WithDefaultScripts(groups: seq<CustomGroup>): (r: seq<CustomGroup>)
    ensures |r| == |groups|
    ensures forall i :: 0 <= i < |groups| ==> r[i] == DefaultScripts(groups[i])
  {
    if groups == [] then [] else [DefaultScripts(groups[0])] + WithDefaultScripts(groups[1..])
  }

  function ScriptsEntries(runtime: Runtime, config: Config, group: CustomGroup, scripts: seq<Script>): (r: seq<LaunchConfiguration>)
    ensures |r| == |scripts|
    ensures forall i :: 0 <= i < |scripts| ==> r[i] == CustomEntry(runtime, config, group, scripts[i])
  {
    if scripts == [] then [] else [CustomEntry(runtime, config, group, scripts[0])] + ScriptsEntries(runtime, config, group, scripts[1..])
  }

  /** The entries of one custom group, after its scripts default to `['']`. */
  function CustomGroupEntries(runtime: Runtime, config: Config, group: CustomGroup): seq<LaunchConfiguration>
  {
    var g := DefaultScripts(group);
    ScriptsEntries(runtime, config, g, g.scripts.value)
  }

  function CustomEntries(runtime: Runtime, config: Config, groups: seq<CustomGroup>): seq<LaunchConfiguration>
  {
    if groups == [] then [] else CustomGroupEntries(runtime, config, groups[0]) + CustomEntries(runtime, config, groups[1..])
  }

  // ---------------------------------------------------------------------------
  // Workspace files

  /** `workspace || workspaces || ['./']`: an array, even an empty one, is kept. */
  function WorkspaceScopes(project: ProjectConfig): seq<string>
  {
    project.workspace.GetOr(project.workspaces.GetOr(["./"]))
  }

  /** `tests.include`, or the pattern for every file when it is missing. */
  function Includes(project: ProjectConfig): seq<string>
  {
    project.testsInclude.GetOr(["**/*"])
  }

  /** `tests.exclude || []` with hidden files excluded. */
  function Excludes(project: ProjectConfig): (r: seq<string>)
    ensures |r| > 0 && r[|r| - 1] == "**/.*"
  {
    project.testsExclude.GetOr([]) + ["**/.*"]
  }

  /** The push onto `tests.exclude` changes the project file's own array when it has one. */
  function WithHiddenExcluded(project: ProjectConfig): ProjectConfig
  {
    if project.testsExclude.Some? then project.(testsExclude := Some(Excludes(project))) else project
  }

  /** Node's `path.dirname` on a string that ends in a separator and one more character. */
  function GlobDirname(s: string): (d: string)
    requires EndsWith(s, "/*")
    ensures |s| > 3 || (|s| == 3 && s[0] != '/') ==> d + "/*" == s
  {
    if |s| == 2 then "/"
    else if |s| == 3 && s[0] == '/' then "//"
    else s[..|s| - 2]
  }


  /**
   * The prefix stripped from entry names: present only for a single scope
   * ending in a separator and '*', whose directory is not '.'.
   */
  function WorkspacePrefix(scopes: seq<string>): (r: Option<string>)
    ensures r.Some? ==> |scopes| == 1 && EndsWith(scopes[0], "/*") && EndsWith(r.value, "/")
    ensures r.None? <==> |scopes| != 1 || !EndsWith(scopes[0], "/*") || GlobDirname(scopes[0]) == "."
  {
    if |scopes| == 1 && EndsWith(scopes[0], "/*") then
      var d := GlobDirname(scopes[0]);
      if d == "." then None else Some(DropDotSlash(d) + "/")
    else None
  }

  /** The name of a found file: relative to the root, without the prefix when it starts with it. */
  function RelativeName(root: string, prefix: Option<string>, path: string): (r: string)
    ensures var rel := FileFinder.RelativePath(root, path);
            if prefix.Some? && StartsWith(rel, prefix.value) then prefix.value + r == rel else r == rel
  {
    var rel := FileFinder.RelativePath(root, path);
    if prefix.Some? && StartsWith(rel, prefix.value) then rel[|prefix.value|..] else rel
  }

  /** `/\.(test|run)\.(ts|js)$/`. */
  predicate IsTestOrRun(name: string)
  {
    EndsWith(name, ".test.ts") || EndsWith(name, ".test.js") || EndsWith(name, ".run.ts") || EndsWith(name, ".run.js")
  }

  /** The directories of the scopes: a scope with '*' expands, any other resolves against the root. */
  function ExpandScopes(scopes: seq<string>, expand: string -> seq<string>, resolve: string -> string): seq<string>
  {
    if scopes == [] then []
    else (if '*' in scopes[0] then expand(scopes[0]) else [resolve(scopes[0])]) + ExpandScopes(scopes[1..], expand, resolve)
  }

  /** The test and run files among one walk, renamed to their relative names. */
  function Selected(root: string, prefix: Option<string>, entries: seq<WalkEntry>): (r: seq<WalkEntry>)
    ensures |r| <= |entries|
    ensures forall e :: e in r ==> e.isFile
  {
    if entries == [] then [] else Pick(root, prefix, entries[0]) + Selected(root, prefix, entries[1..])
  }

  /** What one walk entry contributes: itself, renamed relative to the workspace, when it is a test or run file. */
  function Pick(root: string, prefix: Option<string>, e: WalkEntry): (r: seq<WalkEntry>)
    ensures |r| <= 1 && forall x :: x in r ==> x.isFile
  {
    if e.isFile && IsTestOrRun(e.name) then [e.(name := RelativeName(root, prefix, e.path))] else []
  }

  function Additions(root: string, prefix: Option<string>, dirs: seq<string>,
                     walk: (string, seq<string>, seq<string>) -> seq<WalkEntry>,
                     includes: seq<string>, excludes: seq<string>): seq<WalkEntry>
  {
    if dirs == [] then []
    else Selected(root, prefix, walk(dirs[0], includes, excludes)) + Additions(root, prefix, dirs[1..], walk, includes, excludes)
  }

  // ---------------------------------------------------------------------------
  // Sorting by path

  /** `leq(a, b)` is `a.localeCompare(b) <= 0`: total and transitive. */
  ghost predicate TotalPreorder(leq: (string, string) -> bool)
  {
    (forall a, b :: leq(a, b) || leq(b, a))
    && (forall a, b, c :: leq(a, b) && leq(b, c) ==> leq(a, c))
  }

  ghost predicate SortedByPath(s: seq<WalkEntry>, leq: (string, string) -> bool)
  {
    forall i, j :: 0 <= i < j < |s| ==> leq(s[i].path, s[j].path)
  }

  function Insert(e: WalkEntry, s: seq<WalkEntry>, leq: (string, string) -> bool): (r: seq<WalkEntry>)
    ensures multiset(r) == multiset(s) + multiset{e}
    ensures |r| == |s| + 1
  {
    if s == [] then [e]
    else if leq(e.path, s[0].path) then [e] + s
    else
      assert s == [s[0]] + s[1..];
      [s[0]] + Insert(e, s[1..], leq)
  }

  /** `additions.sort(...)`, as a stable insertion sort. */
  function SortByPath(s: seq<WalkEntry>, leq: (string, string) -> bool): (r: seq<WalkEntry>)
    ensures multiset(r) == multiset(s)
    ensures |r| == |s|
  {
    if s == [] then []
    else
      assert s == [s[0]] + s[1..];
      Insert(s[0], SortByPath(s[1..], leq), leq)
  }

  lemma {:induction false} InsertSorted(e: WalkEntry, s: seq<WalkEntry>, leq: (string, string) -> bool)
    requires TotalPreorder(leq)
    requires SortedByPath(s, leq)
    ensures SortedByPath(Insert(e, s, leq), leq)
  {
    if s != [] && !leq(e.path, s[0].path) {
      InsertSorted(e, s[1..], leq);
      var r := Insert(e, s[1..], leq);
      assert leq(s[0].path, e.path);
      forall x: WalkEntry | x in multiset(r)
        ensures leq(s[0].path, x.path)
      {
        assert x in multiset(s[1..]) + multiset{e};
        if x != e {
          assert x in s[1..];
        }
      }
      forall j | 0 <= j < |r|
        ensures leq(s[0].path, r[j].path)
      {
        assert r[j] in multiset(r);
      }
    }
  }

  /** The additions come out ordered by path. */
  lemma {:induction false} SortByPathSorted(s: seq<WalkEntry>, leq: (string, string) -> bool)
    requires TotalPreorder(leq)
    ensures SortedByPath(SortByPath(s, leq), leq)
  {
    if s != [] {
      SortByPathSorted(s[1..], leq);
      InsertSorted(s[0], SortByPath(s[1..], leq), leq);
    }
  }

  /** The test entries for the workspaces of a project, in the order they are added. */
  function WorkspaceFiles(root: string, project: ProjectConfig, expand: string -> seq<string>, resolve: string -> string,
                          walk: (string, seq<string>, seq<string>) -> seq<WalkEntry>, leq: (string, string) -> bool): seq<WalkEntry>
  {
    var scopes := WorkspaceScopes(project);
    SortByPath(Additions(root, WorkspacePrefix(scopes), ExpandScopes(scopes, expand, resolve), walk,
                         Includes(project), Excludes(project)), leq)
  }

  /** launch.json after a whole run. */
  function Regenerated(runtime: Runtime, spec: LaunchJson, config: Config, project: ProjectConfig, root: string,
                       expand: string -> seq<string>, resolve: string -> string,
                       walk: (string, seq<string>, seq<string>) -> seq<WalkEntry>, leq: (string, string) -> bool): LaunchJson
  {
    spec.(configurations := Generator.Manual(spec.configurations)
                            + TestEntries(runtime, config, WorkspaceFiles(root, project, expand, resolve, walk, leq))
                            + CustomEntries(runtime, config, config.groups.GetOr([])))
  }

  // ---------------------------------------------------------------------------
  // Loops over values

  method ExpandWorkspaces(scopes: seq<string>, expand: string -> seq<string>, resolve: string -> string)
    returns (expanded: seq<string>)
    ensures expanded == ExpandScopes(scopes, expand, resolve)
  {
    expanded := [];
    var i := 0;
    while i < |scopes|
      invariant 0 <= i <= |scopes|
      invariant expanded == ExpandScopes(scopes[..i], expand, resolve)
    {
      ExpandScopesAppend(scopes[..i], [scopes[i]], expand, resolve);
      assert scopes[..i + 1] == scopes[..i] + [scopes[i]];
      if '*' in scopes[i] {
        expanded := expanded + expand(scopes[i]);
      } else {
        expanded := expanded + [resolve(scopes[i])];
      }
      i := i + 1;
    }
    assert scopes[..i] == scopes;
  }

  method SelectFrom(root: string, prefix: Option<string>, entries: seq<WalkEntry>) returns (found: seq<WalkEntry>)
    ensures found == Selected(root, prefix, entries)
  {
    found := [];
    var k := 0;
    while k < |entries|
      invariant 0 <= k <= |entries|
      invariant found == Selected(root, prefix, entries[..k])
    {
      var entry := entries[k];
      SelectedStep(root, prefix, entries, k);
      if entry.isFile && IsTestOrRun(entry.name) {
        found := found + [entry.(name := RelativeName(root, prefix, entry.path))];
      }
      k := k + 1;
    }
    assert entries[..k] == entries;
  }

  method CollectAdditions(root: string, prefix: Option<string>, dirs: seq<string>,
                          walk: (string, seq<string>, seq<string>) -> seq<WalkEntry>,
                          includes: seq<string>, excludes: seq<string>)
    returns (additions: seq<WalkEntry>)
    ensures additions == Additions(root, prefix, dirs, walk, includes, excludes)
  {
    additions := [];
    var d := 0;
    while d < |dirs|
      invariant 0 <= d <= |dirs|
      invariant additions == Additions(root, prefix, dirs[..d], walk, includes, excludes)
    {
      var found := SelectFrom(root, prefix, walk(dirs[d], includes, excludes));
      AdditionsStep(root, prefix, dirs, d, walk, includes, excludes);
      additions := additions + found;
      d := d + 1;
    }
    assert dirs[..d] == dirs;
  }

  /** The closing loop of `addCustomGroups`: each addition pushed onto the configurations, in order. */
  method PushAll(configurations: seq<LaunchConfiguration>, additions: seq<LaunchConfiguration>)
    returns (pushed: seq<LaunchConfiguration>)
    ensures pushed == configurations + additions
  {
    pushed := configurations;
    var k := 0;
    while k < |additions|
      invariant 0 <= k <= |additions|
      invariant pushed == configurations + additions[..k]
    {
      assert additions[..k + 1] == additions[..k] + [additions[k]];
      pushed := pushed + [additions[k]];
      k := k + 1;
    }
    assert additions[..k] == additions;
  }

  /** The inner loop of `addCustomGroups`: one entry per script. */
  method GroupEntries(runtime: Runtime, config: Config, group: CustomGroup) returns (entries: seq<LaunchConfiguration>)
    requires group.scripts.Some?
    ensures entries == ScriptsEntries(runtime, config, group, group.scripts.value)
  {
    var scripts := group.scripts.value;
    entries := [];
    var k := 0;
    while k < |scripts|
      invariant 0 <= k <= |scripts|
      invariant entries == ScriptsEntries(runtime, config, group, scripts[..k])
    {
      ScriptsEntriesStep(runtime, config, group, scripts, k);
      entries := entries + [CustomEntry(runtime, config, group, scripts[k])];
      k := k + 1;
    }
    assert scripts[..k] == scripts;
  }

  /** `group.scripts = ['']` when group `g` has no scripts: the array element is changed in place. */
  method DefaultInPlace(groups: seq<CustomGroup>, g: nat) returns (updated: seq<CustomGroup>, group: CustomGroup)
    requires g < |groups|
    ensures group == DefaultScripts(groups[g]) && updated == groups[g := group]
  {
    group := groups[g];
    updated := groups;
    if group.scripts.None? || group.scripts.value == [] {
      group := group.(scripts := Some([Script.Words("")]));
      updated := updated[g := group];
    }
  }

  /**
   * The group loop of `addCustomGroups`: each group's scripts default to
   * `['']` in place, then each script gives an entry.
   */
  method CustomGroupsEntries(runtime: Runtime, config: Config, original: seq<CustomGroup>)
    returns (groups: seq<CustomGroup>, configAdditions: seq<LaunchConfiguration>)
    ensures groups == WithDefaultScripts(original)
    ensures configAdditions == CustomEntries(runtime, config, original)
  {
    groups := original;
    configAdditions := [];
    var g := 0;
    assert original[..g] == [] && original[g..] == original;
    while g < |groups|
      invariant 0 <= g <= |groups| == |original|
      invariant groups == WithDefaultScripts(original[..g]) + original[g..]
      invariant configAdditions == CustomEntries(runtime, config, original[..g])
    {
      assert groups[g] == original[g];
      var group;
      groups, group := DefaultInPlace(groups, g);
      WriteBack(original, g);
      var entries := GroupEntries(runtime, config, group);
      CustomGroupStep(runtime, config, original, g, group, entries);
      configAdditions := configAdditions + entries;
      g := g + 1;
    }
    assert original[..g] == original;
  }

  // ---------------------------------------------------------------------------
  // The generator object

  class LaunchGen {
    const projectRoot: string
    var runtime: Runtime
    var launchSpec: LaunchJson
    var launchConfig: Config
    var projectConfig: ProjectConfig

    constructor(projectRoot: string)
      ensures this.projectRoot == projectRoot
      ensures runtime == Deno && launchSpec == DefaultLaunchSpec
      ensures launchConfig == EmptyLegacyConfig && projectConfig == EmptyProject
    {
      this.projectRoot := projectRoot;
      runtime := Deno;
      launchSpec := DefaultLaunchSpec;
      launchConfig := EmptyLegacyConfig;
      projectConfig := EmptyProject;
    }

    /** `detectRuntime`: deno.json wins, then package.json; with neither the runtime stays. */
    method DetectRuntime(hasDenoJson: bool, hasPackageJson: bool)
      modifies this
      ensures runtime == (if hasDenoJson then Deno else if hasPackageJson then Node else old(runtime))
      ensures launchSpec == old(launchSpec) && launchConfig == old(launchConfig) && projectConfig == old(projectConfig)
    {
      if hasDenoJson {
        runtime := Deno;
      } else if hasPackageJson {
        runtime := Node;
      }
    }

    /** `loadConfigs`: each file that reads and parses replaces its field; `None` keeps the default. */
    method LoadConfigs(launchFile: Option<LaunchJson>, configFile: Option<Config>, projectFile: Option<ProjectConfig>)
      modifies this
      ensures launchSpec == launchFile.GetOr(old(launchSpec))
      ensures launchConfig == configFile.GetOr(old(launchConfig))
      ensures projectConfig == projectFile.GetOr(old(projectConfig))
      ensures runtime == old(runtime)
    {
      if launchFile.Some? {
        launchSpec := launchFile.value;
      }
      if configFile.Some? {
        launchConfig := configFile.value;
      }
      if projectFile.Some? {
        projectConfig := projectFile.value;
      }
    }

    /** `filterExisting`: keep the entries this generator did not make, in order. */
    method FilterExisting()
      modifies this
      ensures launchSpec == old(launchSpec).(configurations := Generator.Manual(old(launchSpec.configurations)))
      ensures runtime == old(runtime) && launchConfig == old(launchConfig) && projectConfig == old(projectConfig)
    {
      launchSpec := launchSpec.(configurations := Generator.Manual(launchSpec.configurations));
    }

    /** `addTest`: a file gets one entry at the end of `configurations`. */
    method AddTest(entry: WalkEntry)
      modifies this
      ensures launchSpec == old(launchSpec).(configurations := old(launchSpec.configurations) + TestEntries(runtime, launchConfig, [entry]))
      ensures runtime == old(runtime) && launchConfig == old(launchConfig) && projectConfig == old(projectConfig)
    {
      if entry.isFile {
        var item := TestEntry(runtime, launchConfig, entry);
        launchSpec := launchSpec.(configurations := launchSpec.configurations + [item]);
      }
    }

    /** `addWorkspaceFiles`: the test and run files of every workspace, sorted by path, each through `addTest`. */
    method AddWorkspaceFiles(expand: string -> seq<string>, resolve: string -> string,
                             walk: (string, seq<string>, seq<string>) -> seq<WalkEntry>, leq: (string, string) -> bool)
      modifies this
      ensures launchSpec == old(launchSpec).(configurations := old(launchSpec.configurations)
                + TestEntries(runtime, launchConfig, WorkspaceFiles(projectRoot, old(projectConfig), expand, resolve, walk, leq)))
      ensures projectConfig == WithHiddenExcluded(old(projectConfig))
      ensures runtime == old(runtime) && launchConfig == old(launchConfig)
    {
      var project := projectConfig;
      var scopes := WorkspaceScopes(project);
      var includes := Includes(project);
      var excludes := Excludes(project);
      projectConfig := WithHiddenExcluded(projectConfig);
      var prefix := WorkspacePrefix(scopes);
      var dirs := ExpandWorkspaces(scopes, expand, resolve);
      var additions := CollectAdditions(projectRoot, prefix, dirs, walk, includes, excludes);
      var sorted := SortByPath(additions, leq);
      assert sorted == WorkspaceFiles(projectRoot, project, expand, resolve, walk, leq);
      AddTests(sorted);
    }

    /** The closing loop of `addWorkspaceFiles`: `addTest` for each file, in order. */
    method AddTests(files: seq<WalkEntry>)
      modifies this
      ensures launchSpec == old(launchSpec).(configurations := old(launchSpec.configurations) + TestEntries(runtime, launchConfig, files))
      ensures runtime == old(runtime) && launchConfig == old(launchConfig) && projectConfig == old(projectConfig)
    {
      ghost var before := launchSpec.configurations;
      var i := 0;
      assert files[..i] == [];
      while i < |files|
        invariant 0 <= i <= |files|
        invariant launchSpec == old(launchSpec).(configurations := before + TestEntries(runtime, launchConfig, files[..i]))
        invariant runtime == old(runtime) && launchConfig == old(launchConfig) && projectConfig == old(projectConfig)
      {
        AddTest(files[i]);
        TestEntriesStep(runtime, launchConfig, files, i);
        i := i + 1;
      }
      assert files[..i] == files;
    }

    /** `addCustomGroups`: default each group's scripts in place, then one entry per script. */
    method AddCustomGroups()
      modifies this
      ensures launchConfig == old(launchConfig).(groups := if old(launchConfig.groups).Some?
                                                           then Some(WithDefaultScripts(old(launchConfig.groups.value)))
                                                           else None)
      ensures launchSpec == old(launchSpec).(configurations := old(launchSpec.configurations)
                + CustomEntries(runtime, old(launchConfig), old(launchConfig.groups).GetOr([])))
      ensures runtime == old(runtime) && projectConfig == old(projectConfig)
    {
      var configAdditions: seq<LaunchConfiguration> := [];
      if launchConfig.groups.Some? {
        var groups;
        groups, configAdditions := CustomGroupsEntries(runtime, launchConfig, launchConfig.groups.value);
        launchConfig := launchConfig.(groups := Some(groups));
      }
      var configurations := PushAll(launchSpec.configurations, configAdditions);
      launchSpec := launchSpec.(configurations := configurations);
    }

    /** `run` between reading and writing the files. */
    method Run(expand: string -> seq<string>, resolve: string -> string,
               walk: (string, seq<string>, seq<string>) -> seq<WalkEntry>, leq: (string, string) -> bool)
      modifies this
      ensures launchSpec == Regenerated(old(runtime), old(launchSpec), old(launchConfig), old(projectConfig), projectRoot,
                                        expand, resolve, walk, leq)
      ensures projectConfig == WithHiddenExcluded(old(projectConfig))
      ensures runtime == old(runtime)
    {
      FilterExisting();
      AddWorkspaceFiles(expand, resolve, walk, leq);
      AddCustomGroups();
    }
  }

  // ---------------------------------------------------------------------------
  // Append lemmas for the loops

  lemma {:induction false} ExpandScopesAppend(a: seq<string>, b: seq<string>, expand: string -> seq<string>, resolve: string -> string)
    ensures ExpandScopes(a + b, expand, resolve) == ExpandScopes(a, expand, resolve) + ExpandScopes(b, expand, resolve)
  {
    if a == [] {
      assert a + b == b;
    } else {
      assert (a + b)[1..] == a[1..] + b;
      ExpandScopesAppend(a[1..], b, expand, resolve);
    }
  }

  lemma {:induction false} SelectedAppend(root: string, prefix: Option<string>, a: seq<WalkEntry>, b: seq<WalkEntry>)
    ensures Selected(root, prefix, a + b) == Selected(root, prefix, a) + Selected(root, prefix, b)
  {
    if a == [] {
      assert a + b == b;
    } else {
      assert (a + b)[0] == a[0] && (a + b)[1..] == a[1..] + b;
      SelectedAppend(root, prefix, a[1..], b);
      AppendAssoc(Pick(root, prefix, a[0]), Selected(root, prefix, a[1..]), Selected(root, prefix, b));
    }
  }

  lemma {:induction false} AdditionsAppend(root: string, prefix: Option<string>, a: seq<string>, b: seq<string>,
                                           walk: (string, seq<string>, seq<string>) -> seq<WalkEntry>,
                                           includes: seq<string>, excludes: seq<string>)
    ensures Additions(root, prefix, a + b, walk, includes, excludes)
            == Additions(root, prefix, a, walk, includes, excludes) + Additions(root, prefix, b, walk, includes, excludes)
  {
    if a == [] {
      assert a + b == b;
    } else {
      assert (a + b)[1..] == a[1..] + b;
      AdditionsAppend(root, prefix, a[1..], b, walk, includes, excludes);
    }
  }

  lemma {:induction false} TestEntriesAppend(runtime: Runtime, config: Config, a: seq<WalkEntry>, b: seq<WalkEntry>)
    ensures TestEntries(runtime, config, a + b) == TestEntries(runtime, config, a) + TestEntries(runtime, config, b)
  {
    if a == [] {
      assert a + b == b;
    } else {
      assert (a + b)[1..] == a[1..] + b;
      TestEntriesAppend(runtime, config, a[1..], b);
    }
  }

  lemma ScriptsEntriesAppend(runtime: Runtime, config: Config, group: CustomGroup, a: seq<Script>, b: seq<Script>)
    ensures ScriptsEntries(runtime, config, group, a + b)
            == ScriptsEntries(runtime, config, group, a) + ScriptsEntries(runtime, config, group, b)
  {
    var l := ScriptsEntries(runtime, config, group, a + b);
    var la := ScriptsEntries(runtime, config, group, a);
    var lb := ScriptsEntries(runtime, config, group, b);
    forall i | 0 <= i < |l|
      ensures l[i] == (la + lb)[i]
    {
      if i < |a| {
        assert (a + b)[i] == a[i] && (la + lb)[i] == la[i];
      } else {
        assert (a + b)[i] == b[i - |a|] && (la + lb)[i] == lb[i - |a|];
      }
    }
  }

  lemma {:induction false} CustomEntriesAppend(runtime: Runtime, config: Config, a: seq<CustomGroup>, b: seq<CustomGroup>)
    ensures CustomEntries(runtime, config, a + b) == CustomEntries(runtime, config, a) + CustomEntries(runtime, config, b)
  {
    if a == [] {
      assert a + b == b;
    } else {
      assert (a + b)[1..] == a[1..] + b;
      CustomEntriesAppend(runtime, config, a[1..], b);
    }
  }

  lemma AdditionsStep(root: string, prefix: Option<string>, dirs: seq<string>, d: nat,
                      walk: (string, seq<string>, seq<string>) -> seq<WalkEntry>,
                      includes: seq<string>, excludes: seq<string>)
    requires d < |dirs|
    ensures Additions(root, prefix, dirs[..d + 1], walk, includes, excludes)
            == Additions(root, prefix, dirs[..d], walk, includes, excludes) + Selected(root, prefix, walk(dirs[d], includes, excludes))
  {
    assert dirs[..d + 1] == dirs[..d] + [dirs[d]];
    AdditionsAppend(root, prefix, dirs[..d], [dirs[d]], walk, includes, excludes);
    assert Additions(root, prefix, [dirs[d]], walk, includes, excludes)
           == Selected(root, prefix, walk(dirs[d], includes, excludes)) + Additions(root, prefix, [], walk, includes, excludes);
  }

  lemma SelectedStep(root: string, prefix: Option<string>, entries: seq<WalkEntry>, k: nat)
    requires k < |entries|
    ensures Selected(root, prefix, entries[..k + 1]) == Selected(root, prefix, entries[..k]) + Pick(root, prefix, entries[k])
  {
    assert entries[..k + 1] == entries[..k] + [entries[k]];
    SelectedAppend(root, prefix, entries[..k], [entries[k]]);
    assert Selected(root, prefix, [entries[k]]) == Pick(root, prefix, entries[k]) + Selected(root, prefix, []);
  }

  /** The entries of group `g`, once its scripts are defaulted, extend the entries of the groups before it. */
  lemma CustomGroupStep(runtime: Runtime, config: Config, groups: seq<CustomGroup>, g: nat,
                        group: CustomGroup, entries: seq<LaunchConfiguration>)
    requires g < |groups| && group == DefaultScripts(groups[g])
    requires entries == ScriptsEntries(runtime, config, group, group.scripts.value)
    ensures CustomEntries(runtime, config, groups[..g + 1]) == CustomEntries(runtime, config, groups[..g]) + entries
  {
    CustomEntriesStep(runtime, config, groups, g);
  }

  lemma ScriptsEntriesStep(runtime: Runtime, config: Config, group: CustomGroup, scripts: seq<Script>, k: nat)
    requires k < |scripts|
    ensures ScriptsEntries(runtime, config, group, scripts[..k + 1])
            == ScriptsEntries(runtime, config, group, scripts[..k]) + [CustomEntry(runtime, config, group, scripts[k])]
  {
    assert scripts[..k + 1] == scripts[..k] + [scripts[k]];
    ScriptsEntriesAppend(runtime, config, group, scripts[..k], [scripts[k]]);
  }

  lemma TestEntriesStep(runtime: Runtime, config: Config, entries: seq<WalkEntry>, i: nat)
    requires i < |entries|
    ensures TestEntries(runtime, config, entries[..i + 1])
            == TestEntries(runtime, config, entries[..i]) + TestEntries(runtime, config, [entries[i]])
  {
    assert entries[..i + 1] == entries[..i] + [entries[i]];
    TestEntriesAppend(runtime, config, entries[..i], [entries[i]]);
  }

  lemma CustomEntriesStep(runtime: Runtime, config: Config, groups: seq<CustomGroup>, g: nat)
    requires g < |groups|
    ensures CustomEntries(runtime, config, groups[..g + 1])
            == CustomEntries(runtime, config, groups[..g]) + CustomGroupEntries(runtime, config, groups[g])
  {
    assert groups[..g + 1] == groups[..g] + [groups[g]];
    CustomEntriesAppend(runtime, config, groups[..g], [groups[g]]);
    assert CustomEntries(runtime, config, [groups[g]]) == CustomGroupEntries(runtime, config, groups[g]) + CustomEntries(runtime, config, []);
  }

  /** Defaulting the scripts of group `g` in place extends the defaulted prefix by one. */
  lemma WriteBack(groups: seq<CustomGroup>, g: nat)
    requires g < |groups|
    ensures (WithDefaultScripts(groups[..g]) + groups[g..])[g := DefaultScripts(groups[g])]
            == WithDefaultScripts(groups[..g + 1]) + groups[g + 1..]
  {
    var l := (WithDefaultScripts(groups[..g]) + groups[g..])[g := DefaultScripts(groups[g])];
    var r := WithDefaultScripts(groups[..g + 1]) + groups[g + 1..];
    forall i | 0 <= i < |l|
      ensures l[i] == r[i]
    {
      if i > g {
        assert l[i] == groups[i];
      }
    }
  }

  // ---------------------------------------------------------------------------
  // Properties

  /** A single scope ending in a separator and '*' gives its directory as the prefix, without a leading './'. */
  lemma WorkspacePrefixExamples()
    ensures WorkspacePrefix(["packages/*"]) == Some("packages/")
    ensures WorkspacePrefix(["./packages/*"]) == Some("packages/")
  {
    assert EndsWith("packages/*", "/*") && GlobDirname("packages/*") == "packages";
    assert "packages"[..2] != "./" by { assert "packages"[..2][0] == 'p'; }
    assert DropDotSlash("packages") + "/" == "packages/";
    assert EndsWith("./packages/*", "/*") && GlobDirname("./packages/*") == "./packages";
    assert StartsWith("./packages", "./") && "./packages"[2..] == "packages";
  }

  /** No prefix for the directory '.', for a scope not ending in a separator and a star, or for several scopes. */
  lemma WorkspacePrefixAbsent()
    ensures WorkspacePrefix(["./*"]) == None
    ensures WorkspacePrefix(["packages"]) == None
    ensures WorkspacePrefix(["a/*", "b/*"]) == None
  {
    assert EndsWith("./*", "/*") && GlobDirname("./*") == ".";
    assert !EndsWith("packages", "/*");
  }

  /** With the prefix, a name under it loses it. */
  lemma RelativeNameUnderPrefix()
    ensures RelativeName("/r", Some("packages/"), "/r/packages/a/x.test.ts") == "a/x.test.ts"
  {
    assert FileFinder.RelativePath("/r", "/r/packages/a/x.test.ts") == "packages/a/x.test.ts";
    assert StartsWith("packages/a/x.test.ts", "packages/");
  }

  /** With the prefix, a name elsewhere keeps its full relative path. */
  lemma RelativeNameElsewhere()
    ensures RelativeName("/r", Some("packages/"), "/r/tools/x.test.ts") == "tools/x.test.ts"
  {
    assert FileFinder.RelativePath("/r", "/r/tools/x.test.ts") == "tools/x.test.ts";
    assert "tools/x.test.ts"[..9] != "packages/" by { assert "tools/x.test.ts"[..9][0] == 't'; }
  }

  /** Without a prefix, the name is the path relative to the root. */
  lemma RelativeNameWithoutPrefix()
    ensures RelativeName("/r", None, "/r/packages/a/x.test.ts") == "packages/a/x.test.ts"
  {
    assert FileFinder.RelativePath("/r", "/r/packages/a/x.test.ts") == "packages/a/x.test.ts";
  }

  /** Only names ending in '.test' or '.run' followed by '.ts' or '.js' are taken. */
  lemma IsTestOrRunExamples()
    ensures IsTestOrRun("app.test.ts") && IsTestOrRun("cli.run.js")
    ensures !IsTestOrRun("test.ts") && !IsTestOrRun("app.test.tsx") && !IsTestOrRun("app.spec.ts")
  {
    assert EndsWith("app.test.ts", ".test.ts");
    assert EndsWith("cli.run.js", ".run.js");
    assert "app.test.tsx"[|"app.test.tsx"| - 3..] == "tsx";
    assert "app.spec.ts"[|"app.spec.ts"| - 7..] == "spec.ts";
  }

  /** The files are added ordered by path, and they are exactly the test and run files found. */
  lemma WorkspaceFilesSorted(root: string, project: ProjectConfig, expand: string -> seq<string>, resolve: string -> string,
                             walk: (string, seq<string>, seq<string>) -> seq<WalkEntry>, leq: (string, string) -> bool)
    requires TotalPreorder(leq)
    ensures var scopes := WorkspaceScopes(project);
            var found := Additions(root, WorkspacePrefix(scopes), ExpandScopes(scopes, expand, resolve), walk,
                                   Includes(project), Excludes(project));
            SortedByPath(WorkspaceFiles(root, project, expand, resolve, walk, leq), leq)
            && multiset(WorkspaceFiles(root, project, expand, resolve, walk, leq)) == multiset(found)
  {
    var scopes := WorkspaceScopes(project);
    SortByPathSorted(Additions(root, WorkspacePrefix(scopes), ExpandScopes(scopes, expand, resolve), walk,
                               Includes(project), Excludes(project)), leq);
  }

  /** Every found entry is a test or run file. */
  lemma {:induction false} SelectedAreTests(root: string, prefix: Option<string>, entries: seq<WalkEntry>)
    ensures forall e :: e in Selected(root, prefix, entries) ==>
              exists w :: w in entries && w.isFile && IsTestOrRun(w.name) && w.path == e.path
  {
    if entries != [] {
      SelectedAreTests(root, prefix, entries[1..]);
    }
  }

  /**
   * A test entry is marked as generated, is named and placed by the entry's
   * name, and runs the entry's full path after the runtime's defaults, with
   * '--check' when launch.config.json gives no test arguments.
   */
  lemma TestEntryShape(runtime: Runtime, config: Config, entry: WalkEntry)
    ensures var e := TestEntry(runtime, config, entry);
            && IsGenerated(e)
            && e.name == "Debug " + entry.name
            && e.program == Some("${workspaceFolder}/" + entry.name)
            && e.runtimeArgs.Some? && |e.runtimeArgs.value| == |DefaultArgs(runtime)| + 1 + |TestArgs(config)|
            && e.runtimeArgs.value[|DefaultArgs(runtime)|] == entry.path
            && (runtime == Deno ==> e.runtimeArgs.value[..3] == ["test", "--inspect-brk", "-A"] && e.debugType == "deno")
            && (runtime == Node ==> e.runtimeArgs.value[0] == entry.path && e.debugType == "node")
            && (config.testRuntimeArgs.None? ==> e.runtimeArgs.value[|e.runtimeArgs.value| - 1] == "--check")
  {
    assert Generator.WorkspaceFolder + "/" == "${workspaceFolder}/";
    assert Generator.WorkspaceFolder + "/" + entry.name == "${workspaceFolder}/" + entry.name;
  }

  /** A group without scripts gives one entry, named after the program with a trailing space, run with `['']`. */
  lemma CustomGroupWithoutScripts(runtime: Runtime, config: Config, group: CustomGroup)
    requires group.scripts.None? || group.scripts.value == []
    ensures var es := CustomGroupEntries(runtime, config, group);
            && |es| == 1
            && es[0].name == "Debug " + group.program + " "
            && es[0].args == Some((if group.scriptArgs.Some? && group.scriptArgs.value.Args? then group.scriptArgs.value.args else []) + [""])
            && es[0].runtimeArgs == group.runtimeArgs
  {
    var g := DefaultScripts(group);
    assert g.scripts.value == [Script.Words("")];
    assert SplitSpace("") == [""];
    var es := CustomGroupEntries(runtime, config, group);
    assert es[0] == CustomEntry(runtime, config, g, Script.Words(""));
  }

  /** A string `scriptArgs` is ignored, and a string script splits on runs of white space. */
  lemma CustomArgsOfStrings(group: CustomGroup)
    ensures CustomArgs(group.(scriptArgs := Some(Script.Words("--verbose"))), Script.Words("a  b")) == ["a", "b"]
  {
    assert "a  b" == "a" + "  " + "b";
    assert !IsSpace('a') && !IsSpace('b');
    SplitSpaceOfTwoWords("a", "  ", "b");
  }

  /** An array `scriptArgs` comes first, then an array script as it is. */
  lemma CustomArgsOfArrays(group: CustomGroup)
    ensures CustomArgs(group.(scriptArgs := Some(Script.Args(["-v"]))), Script.Args(["x"])) == ["-v", "x"]
  {
  }

  lemma {:induction false} TestEntriesGenerated(runtime: Runtime, config: Config, entries: seq<WalkEntry>)
    ensures forall c :: c in TestEntries(runtime, config, entries) ==> IsGenerated(c)
  {
    forall c | c in TestEntries(runtime, config, entries)
      ensures IsGenerated(c)
    {
      var e :| e in entries && e.isFile && c == TestEntry(runtime, config, e);
      TestEntryShape(runtime, config, e);
    }
  }

  lemma {:induction false} CustomEntriesGenerated(runtime: Runtime, config: Config, groups: seq<CustomGroup>)
    ensures forall c :: c in CustomEntries(runtime, config, groups) ==> IsGenerated(c)
  {
    if groups != [] {
      CustomEntriesGenerated(runtime, config, groups[1..]);
      var g := DefaultScripts(groups[0]);
      var es := ScriptsEntries(runtime, config, g, g.scripts.value);
      assert forall c :: c in es ==> IsGenerated(c) by {
        forall c | c in es
          ensures IsGenerated(c)
        {
          var i :| 0 <= i < |es| && es[i] == c;
          assert c == CustomEntry(runtime, config, g, g.scripts.value[i]);
        }
      }
    }
  }

  /** A second run keeps exactly the entries the first run kept: everything it added is marked as generated. */
  lemma RegeneratedIsStable(runtime: Runtime, spec: LaunchJson, config: Config, project: ProjectConfig, root: string,
                            expand: string -> seq<string>, resolve: string -> string,
                            walk: (string, seq<string>, seq<string>) -> seq<WalkEntry>, leq: (string, string) -> bool)
    ensures var after := Regenerated(runtime, spec, config, project, root, expand, resolve, walk, leq);
            Generator.Manual(after.configurations) == Generator.Manual(spec.configurations)
            && after.version == spec.version && after.compounds == spec.compounds
  {
    var tests := TestEntries(runtime, config, WorkspaceFiles(root, project, expand, resolve, walk, leq));
    var customs := CustomEntries(runtime, config, config.groups.GetOr([]));
    var manual := Generator.Manual(spec.configurations);
    TestEntriesGenerated(runtime, config, WorkspaceFiles(root, project, expand, resolve, walk, leq));
    CustomEntriesGenerated(runtime, config, config.groups.GetOr([]));
    Generator.ManualAppend(manual + tests, customs);
    Generator.ManualAppend(manual, tests);
    Generator.ManualOfGenerated(tests);
    Generator.ManualOfGenerated(customs);
    Generator.ManualIdempotent(spec.configurations);
  }
}
