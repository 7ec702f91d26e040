/**
 * The workspace-aware launch.json generator (`LaunchGenerator`): which
 * directories are workspaces, how each workspace's configuration is layered
 * on the root's, the entries built from each group, and the rewrite of
 * launch.json that keeps the entries it did not generate. Files, directory
 * walks and glob matching come in as values and as the `matches` parameter.
 */
module Generator {

  import opened Wrappers
  import opened Strings
  import opened LaunchTypes
  import ConfigLoader
  import FileFinder

  // ---------------------------------------------------------------------------
  // Entries

  /** `a || b || fallback` on ports: 0 is false in JavaScript. */
  function Port(group: Group, config: LaunchConfig): (p: int)
    ensures p != 0
    ensures group.port.Some? && group.port.value != 0 ==> p == group.port.value
    ensures (group.port.None? || group.port.value == 0) && config.port.Some? && config.port.value != 0 ==> p == config.port.value
    ensures (group.port.None? || group.port.value == 0) && (config.port.None? || config.port.value == 0) ==> p == DefaultPort
  {
    if group.port.Some? && group.port.value != 0 then group.port.value
    else if config.port.Some? && config.port.value != 0 then config.port.value
    else DefaultPort
  }

  /** `a || b || fallback` on console names: the empty string is false in JavaScript. */
  function Console(group: Group, config: LaunchConfig): (c: string)
    ensures c != ""
    ensures c == group.console.GetOr("") || (group.console.GetOr("") == "" && c == config.console.GetOr(""))
            || (group.console.GetOr("") == "" && config.console.GetOr("") == "" && c == DefaultConsole)
  {
    if group.console.Some? && group.console.value != "" then group.console.value
    else if config.console.Some? && config.console.value != "" then config.console.value
    else DefaultConsole
  }

  const WorkspaceFolder := "${workspaceFolder}"

  function PresentationFor(workspaceName: string): Option<Presentation>
  {
    if workspaceName == "root" then None else Some(Presentation(Some(workspaceName)))
  }

  /**
   * The entry for one found file, by its path relative to the workspace. Its
   * program is `<workspace name>/<path>` under the workspace folder, while a
   * script entry's program is `packages/<workspace name>/<program>`: the two
   * modes place a workspace differently, and both are kept as they are.
   */
  function FileEntry(workspaceName: string, group: Group, config: LaunchConfig, rel: string): LaunchConfiguration
  {
    LaunchConfiguration(
      "node", "launch",
      if workspaceName == "root" then rel else workspaceName + ": " + rel,
      Some(WorkspaceFolder + "/" + (if workspaceName == "root" then rel else workspaceName + "/" + rel)),
      Some(WorkspaceFolder), Some("deno"), Some(group.runtimeArgs.GetOr([])), None,
      Some(Port(group, config)), Some(Console(group, config)), PresentationFor(workspaceName),
      Some(GeneratedMarker))
  }

  /** A `string | string[]` value as words: an array as it is, a non-empty string split on white space. */
  function ScriptWords(s: Script): seq<string>
  {
    match s
    case Args(a) => a
    case Words(t) => if t != "" then SplitSpace(t) else []
  }

  /** `${group.name}`: a missing name prints as 'undefined'. */
  function NameText(group: Group): string { group.name.GetOr("undefined") }

  function ScriptName(words: seq<string>): string
  {
    if |words| > 0 then " " + Join(words, ' ') else ""
  }

  /** `group.scriptArgs` as leading arguments: none when absent or the empty string. */
  function LeadingArgs(group: Group): seq<string>
  {
    if group.scriptArgs.Some? then ScriptWords(group.scriptArgs.value) else []
  }

  /** The entry for one script of a program group; its program sits under `packages/<workspace name>/` (see FileEntry). */
  function ScriptEntry(workspaceName: string, group: Group, config: LaunchConfig, script: Script): LaunchConfiguration
    requires group.program.Some?
  {
    var words := ScriptWords(script);
    LaunchConfiguration(
      "node", "launch",
      (if workspaceName == "root" then "" else workspaceName + ": ") + NameText(group) + ScriptName(words),
      Some(WorkspaceFolder + "/" + (if workspaceName == "root" then group.program.value
                                     else "packages/" + workspaceName + "/" + group.program.value)),
      Some(WorkspaceFolder), Some("deno"), Some(group.runtimeArgs.GetOr([])), Some(LeadingArgs(group) + words),
      Some(Port(group, config)), Some(Console(group, config)), PresentationFor(workspaceName),
      Some(GeneratedMarker))
  }

  /** A group is in file mode when it has an `includes` array (even an empty one), whatever else it has. */
  predicate FileMode(group: Group) { group.includes.Some? }

  /** Otherwise it is in program mode when it has a non-empty `program`. */
  predicate ProgramMode(group: Group) { !FileMode(group) && group.program.Some? && group.program.value != "" }

  /** The search excludes of a file-mode group: the configuration's, then the group's. */
  function AllExcludes(config: LaunchConfig, group: Group): seq<string>
  {
    config.excludes.GetOr([]) + group.excludes.GetOr([])
  }

  function FileEntries(workspaceName: string, group: Group, config: LaunchConfig, rels: seq<string>): (r: seq<LaunchConfiguration>)
    ensures |r| == |rels|
    ensures forall i :: 0 <= i < |rels| ==> r[i] == FileEntry(workspaceName, group, config, rels[i])
  {
    if rels == [] then [] else [FileEntry(workspaceName, group, config, rels[0])] + FileEntries(workspaceName, group, config, rels[1..])
  }

  function ScriptEntries(workspaceName: string, group: Group, config: LaunchConfig, scripts: seq<Script>): (r: seq<LaunchConfiguration>)
    requires group.program.Some?
    ensures |r| == |scripts|
    ensures forall i :: 0 <= i < |scripts| ==> r[i] == ScriptEntry(workspaceName, group, config, scripts[i])
  {
    if scripts == [] then [] else [ScriptEntry(workspaceName, group, config, scripts[0])] + ScriptEntries(workspaceName, group, config, scripts[1..])
  }

  /** The relative paths of the files the finder returns for a file-mode group. */
  function FoundPaths(matches: (string, string) -> bool, root: string, walked: seq<FileFinder.Entry>,
                      config: LaunchConfig, group: Group): seq<string>
    requires FileMode(group)
  {
    Relatives(root, FileFinder.Select(matches, root, group.includes.value, AllExcludes(config, group), walked))
  }

  function Relatives(root: string, files: seq<FileFinder.Entry>): (r: seq<string>)
    ensures |r| == |files|
    ensures forall i :: 0 <= i < |files| ==> r[i] == FileFinder.RelativePath(root, files[i].path)
  {
    if files == [] then [] else [FileFinder.RelativePath(root, files[0].path)] + Relatives(root, files[1..])
  }

  /** The entries of one group; `scripts` defaults to `['']` only when absent. */
  function GroupEntries(matches: (string, string) -> bool, root: string, walked: seq<FileFinder.Entry>,
                        workspaceName: string, config: LaunchConfig, group: Group): seq<LaunchConfiguration>
  {
    if FileMode(group) then FileEntries(workspaceName, group, config, FoundPaths(matches, root, walked, config, group))
    else if ProgramMode(group) then ScriptEntries(workspaceName, group, config, group.scripts.GetOr([Script.Words("")]))
    else []
  }

  function AllGroupEntries(matches: (string, string) -> bool, root: string, walked: seq<FileFinder.Entry>,
                           workspaceName: string, config: LaunchConfig, groups: seq<Group>): seq<LaunchConfiguration>
  {
    if groups == [] then []
    else GroupEntries(matches, root, walked, workspaceName, config, groups[0])
         + AllGroupEntries(matches, root, walked, workspaceName, config, groups[1..])
  }

  /** The entries of a configuration: none without groups, else each group's in group order. */
  function Configurations(matches: (string, string) -> bool, root: string, walked: seq<FileFinder.Entry>,
                          workspaceName: string, config: LaunchConfig): seq<LaunchConfiguration>
  {
    if config.groups.None? then [] else AllGroupEntries(matches, root, walked, workspaceName, config, config.groups.value)
  }

  lemma {:induction false} AllGroupEntriesAppend(matches: (string, string) -> bool, root: string, walked: seq<FileFinder.Entry>,
                                                 workspaceName: string, config: LaunchConfig, a: seq<Group>, b: seq<Group>)
    ensures AllGroupEntries(matches, root, walked, workspaceName, config, a + b)
            == AllGroupEntries(matches, root, walked, workspaceName, config, a)
               + AllGroupEntries(matches, root, walked, workspaceName, config, b)
  {
    if a == [] {
      assert a + b == b;
    } else {
      assert (a + b)[0] == a[0] && (a + b)[1..] == a[1..] + b;
      AllGroupEntriesAppend(matches, root, walked, workspaceName, config, a[1..], b);
      Strings.AppendAssoc(GroupEntries(matches, root, walked, workspaceName, config, a[0]),
                          AllGroupEntries(matches, root, walked, workspaceName, config, a[1..]),
                          AllGroupEntries(matches, root, walked, workspaceName, config, b));
    }
  }

  /** One more group adds that group's entries at the end. */
  lemma AllGroupEntriesStep(matches: (string, string) -> bool, root: string, walked: seq<FileFinder.Entry>,
                            workspaceName: string, config: LaunchConfig, groups: seq<Group>, g: nat)
    requires g < |groups|
    ensures AllGroupEntries(matches, root, walked, workspaceName, config, groups[..g + 1])
            == AllGroupEntries(matches, root, walked, workspaceName, config, groups[..g])
               + GroupEntries(matches, root, walked, workspaceName, config, groups[g])
  {
    assert groups[..g + 1] == groups[..g] + [groups[g]];
    AllGroupEntriesAppend(matches, root, walked, workspaceName, config, groups[..g], [groups[g]]);
    assert AllGroupEntries(matches, root, walked, workspaceName, config, [groups[g]])
           == GroupEntries(matches, root, walked, workspaceName, config, groups[g])
              + AllGroupEntries(matches, root, walked, workspaceName, config, []);
  }

  /**
   * `generateConfigurations`: a loop over the groups; a file-mode group runs
   * the finder and pushes one entry per file, a program-mode group pushes one
   * entry per script.
   */
  method GenerateConfigurations(matches: (string, string) -> bool, root: string, walked: seq<FileFinder.Entry>,
                                config: LaunchConfig, workspaceName: string)
    returns (configurations: seq<LaunchConfiguration>)
    ensures configurations == Configurations(matches, root, walked, workspaceName, config)
  {
    configurations := [];
    if config.groups.None? {
      return;
    }
    var groups := config.groups.value;
    var g := 0;
    while g < |groups|
      invariant 0 <= g <= |groups|
      invariant configurations == AllGroupEntries(matches, root, walked, workspaceName, config, groups[..g])
    {
      var entries := PushGroupEntries(matches, root, walked, config, workspaceName, groups[g]);
      AllGroupEntriesStep(matches, root, walked, workspaceName, config, groups, g);
      configurations := configurations + entries;
      g := g + 1;
    }
    assert groups[..g] == groups;
  }

  /** The body of the group loop: file mode runs the finder, program mode walks the scripts. */
  method PushGroupEntries(matches: (string, string) -> bool, root: string, walked: seq<FileFinder.Entry>,
                          config: LaunchConfig, workspaceName: string, group: Group)
    returns (entries: seq<LaunchConfiguration>)
    ensures entries == GroupEntries(matches, root, walked, workspaceName, config, group)
  {
    entries := [];
    if group.includes.Some? {
      var allExcludes := config.excludes.GetOr([]) + group.excludes.GetOr([]);
      var files := FileFinder.FindFiles(matches, root, group.includes.value, allExcludes, walked);
      entries := PushFileEntries(root, files, workspaceName, group, config);
    } else if group.program.Some? && group.program.value != "" {
      entries := PushScriptEntries(group.scripts.GetOr([Script.Words("")]), workspaceName, group, config);
    }
  }

  /** The inner loop of file mode: one entry per found file. */
  method PushFileEntries(root: string, files: seq<FileFinder.Entry>, workspaceName: string, group: Group, config: LaunchConfig)
    returns (entries: seq<LaunchConfiguration>)
    ensures entries == FileEntries(workspaceName, group, config, Relatives(root, files))
  {
    var rels := Relatives(root, files);
    entries := [];
    var k := 0;
    while k < |files|
      invariant 0 <= k <= |files|
      invariant entries == FileEntries(workspaceName, group, config, rels[..k])
    {
      var relativePath := FileFinder.RelativePath(root, files[k].path);
      var entry := FileEntry(workspaceName, group, config, relativePath);
      FileEntriesStep(workspaceName, group, config, rels, k);
      entries := entries + [entry];
      k := k + 1;
    }
    assert rels[..k] == rels;
  }

  /** The inner loop of program mode: one entry per script, its arguments after the group's `scriptArgs`. */
  method PushScriptEntries(scripts: seq<Script>, workspaceName: string, group: Group, config: LaunchConfig)
    returns (entries: seq<LaunchConfiguration>)
    requires group.program.Some?
    ensures entries == ScriptEntries(workspaceName, group, config, scripts)
  {
    entries := [];
    var k := 0;
    while k < |scripts|
      invariant 0 <= k <= |scripts|
      invariant entries == ScriptEntries(workspaceName, group, config, scripts[..k])
    {
      ScriptEntriesStep(workspaceName, group, config, scripts, k);
      entries := entries + [ScriptEntry(workspaceName, group, config, scripts[k])];
      k := k + 1;
    }
    assert scripts[..k] == scripts;
  }

  lemma FileEntriesAppend(workspaceName: string, group: Group, config: LaunchConfig, a: seq<string>, b: seq<string>)
    ensures FileEntries(workspaceName, group, config, a + b)
            == FileEntries(workspaceName, group, config, a) + FileEntries(workspaceName, group, config, b)
  {
    var l := FileEntries(workspaceName, group, config, a + b);
    var la := FileEntries(workspaceName, group, config, a);
    var lb := FileEntries(workspaceName, group, config, b);
    forall i | 0 <= i < |l|
      ensures l[i] == (la + lb)[i]
    {
      if i < |a| {
        assert (a + b)[i] == a[i] && (la + lb)[i] == la[i];
      } else {
        assert (a + b)[i] == b[i - |a|] && (la + lb)[i] == lb[i - |a|];
      }
    }
  }

  /** Extending the paths by one adds that path's entry. */
  lemma FileEntriesStep(workspaceName: string, group: Group, config: LaunchConfig, rels: seq<string>, k: nat)
    requires k < |rels|
    ensures FileEntries(workspaceName, group, config, rels[..k + 1])
            == FileEntries(workspaceName, group, config, rels[..k]) + [FileEntry(workspaceName, group, config, rels[k])]
  {
    assert rels[..k + 1] == rels[..k] + [rels[k]];
    FileEntriesAppend(workspaceName, group, config, rels[..k], [rels[k]]);
  }

  /** Extending the scripts by one adds that script's entry. */
  lemma ScriptEntriesStep(workspaceName: string, group: Group, config: LaunchConfig, scripts: seq<Script>, k: nat)
    requires group.program.Some? && k < |scripts|
    ensures ScriptEntries(workspaceName, group, config, scripts[..k + 1])
            == ScriptEntries(workspaceName, group, config, scripts[..k]) + [ScriptEntry(workspaceName, group, config, scripts[k])]
  {
    assert scripts[..k + 1] == scripts[..k] + [scripts[k]];
    ScriptEntriesAppend(workspaceName, group, config, scripts[..k], [scripts[k]]);
  }

  lemma ScriptEntriesAppend(workspaceName: string, group: Group, config: LaunchConfig, a: seq<Script>, b: seq<Script>)
    requires group.program.Some?
    ensures ScriptEntries(workspaceName, group, config, a + b)
            == ScriptEntries(workspaceName, group, config, a) + ScriptEntries(workspaceName, group, config, b)
  {
    var l := ScriptEntries(workspaceName, group, config, a + b);
    var la := ScriptEntries(workspaceName, group, config, a);
    var lb := ScriptEntries(workspaceName, group, config, b);
    forall i | 0 <= i < |l|
      ensures l[i] == (la + lb)[i]
    {
      if i < |a| {
        assert (a + b)[i] == a[i] && (la + lb)[i] == la[i];
      } else {
        assert (a + b)[i] == b[i - |a|] && (la + lb)[i] == lb[i - |a|];
      }
    }
  }

  // ---------------------------------------------------------------------------
  // Properties of the entries

  /** Every generated entry carries the marker, so a later run recognises it. */
  lemma {:induction false} AllGroupEntriesGenerated(matches: (string, string) -> bool, root: string, walked: seq<FileFinder.Entry>,
                                                    workspaceName: string, config: LaunchConfig, groups: seq<Group>)
    ensures forall c :: c in AllGroupEntries(matches, root, walked, workspaceName, config, groups) ==> IsGenerated(c)
  {
    if groups != [] {
      AllGroupEntriesGenerated(matches, root, walked, workspaceName, config, groups[1..]);
      var group := groups[0];
      var own := GroupEntries(matches, root, walked, workspaceName, config, group);
      forall c | c in own ensures IsGenerated(c) {
        var i :| 0 <= i < |own| && own[i] == c;
      }
    }
  }

  /** A file-mode group gives one entry per found file, in finder order, even when it also has a program. */
  lemma FileModeEntries(matches: (string, string) -> bool, root: string, walked: seq<FileFinder.Entry>,
                        workspaceName: string, config: LaunchConfig, group: Group)
    requires FileMode(group)
    ensures var found := FileFinder.Select(matches, root, group.includes.value, AllExcludes(config, group), walked);
            var r := GroupEntries(matches, root, walked, workspaceName, config, group);
            |r| == |found| &&
            forall i :: 0 <= i < |found| ==> r[i] == FileEntry(workspaceName, group, config, FileFinder.RelativePath(root, found[i].path))
  {
  }

  /** A program-mode group gives one entry per script; an empty `scripts` array gives none, a missing one a single entry. */
  lemma ProgramModeEntries(matches: (string, string) -> bool, root: string, walked: seq<FileFinder.Entry>,
                           workspaceName: string, config: LaunchConfig, group: Group)
    requires ProgramMode(group)
    ensures group.scripts == Some([]) ==> GroupEntries(matches, root, walked, workspaceName, config, group) == []
    ensures group.scripts.None? ==>
      GroupEntries(matches, root, walked, workspaceName, config, group) == [ScriptEntry(workspaceName, group, config, Script.Words(""))]
  {
  }

  /** A group with neither `includes` nor a `program` gives nothing. */
  lemma NeitherModeEntries(matches: (string, string) -> bool, root: string, walked: seq<FileFinder.Entry>,
                           workspaceName: string, config: LaunchConfig, group: Group)
    requires !FileMode(group) && !ProgramMode(group)
    ensures GroupEntries(matches, root, walked, workspaceName, config, group) == []
  {
  }

  /** A configuration without `groups` gives no entries. */
  lemma NoGroupsNoEntries(matches: (string, string) -> bool, root: string, walked: seq<FileFinder.Entry>,
                          workspaceName: string, config: LaunchConfig)
    requires config.groups.None?
    ensures Configurations(matches, root, walked, workspaceName, config) == []
  {
  }

  /** The names, programs and arguments of script entries, at the root and in a workspace. */
  lemma ScriptEntryFields(workspaceName: string, group: Group, config: LaunchConfig, script: Script)
    requires group.program.Some?
    ensures var e := ScriptEntry(workspaceName, group, config, script);
      && e.args == Some(LeadingArgs(group) + ScriptWords(script))
      && (workspaceName == "root" ==> e.program == Some(WorkspaceFolder + "/" + group.program.value) && e.presentation.None?)
      && (workspaceName != "root" ==>
            e.program == Some(WorkspaceFolder + "/" + ("packages/" + workspaceName + "/" + group.program.value))
            && e.presentation == Some(Presentation(Some(workspaceName))))
      && IsGenerated(e)
  {
  }

  /** Names and programs of file entries. */
  lemma FileEntryFields(workspaceName: string, group: Group, config: LaunchConfig, rel: string)
    ensures var e := FileEntry(workspaceName, group, config, rel);
      && (workspaceName == "root" ==> e.name == rel && e.program == Some(WorkspaceFolder + "/" + rel))
      && (workspaceName != "root" ==> e.name == workspaceName + ": " + rel
                                      && e.program == Some(WorkspaceFolder + "/" + (workspaceName + "/" + rel)))
      && e.runtimeArgs == Some(group.runtimeArgs.GetOr([]))
      && IsGenerated(e)
  {
  }

  /** A string script splits on white space; its words follow the leading arguments, and nothing is lost but spaces. */
  lemma ScriptWordsKeepText(t: string)
    requires t != ""
    ensures Concat(ScriptWords(Script.Words(t))) == NonSpace(t)
  {
    SplitSpaceKeepsText(t);
  }

  // ---------------------------------------------------------------------------
  // Workspaces

  /** A walked directory: its path and whether it holds a deno.json. */
  datatype Dir = Dir(path: string, hasDenoJson: bool)

  datatype PackageJson = PackageJson(workspaces: Option<seq<string>>)

  /** The workspace patterns: deno.json's `workspaces`, else its `workspace`, else package.json's `workspaces`. */
  function WorkspacePatterns(deno: Option<DenoJson>, pkg: Option<PackageJson>): seq<string>
  {
    if deno.Some? then
      (if deno.value.workspaces.Some? then deno.value.workspaces.value
       else deno.value.workspace.GetOr([]))
    else if pkg.Some? then pkg.value.workspaces.GetOr([])
    else []
  }


  function NormalizeAll(ps: seq<string>): (r: seq<string>)
    ensures |r| == |ps| && forall i :: 0 <= i < |ps| ==> r[i] == DropDotSlash(ps[i])
  {
    if ps == [] then [] else [DropDotSlash(ps[0])] + NormalizeAll(ps[1..])
  }

  /** A walked directory is a workspace when it is not the root, has a deno.json and matches a normalised pattern. */
  predicate IsWorkspace(matches: (string, string) -> bool, root: string, patterns: seq<string>, d: Dir)
  {
    && d.path != root
    && d.hasDenoJson
    && FileFinder.AnyMatch(matches, NormalizeAll(patterns), FileFinder.RelativePath(root, d.path))
  }

  /** What one walked directory contributes: its path when it is a workspace. */
  function WorkspaceOf(matches: (string, string) -> bool, root: string, patterns: seq<string>, d: Dir): (r: seq<string>)
    ensures r == [d.path] || r == []
  {
    if IsWorkspace(matches, root, patterns, d) then [d.path] else []
  }

  function Workspaces(matches: (string, string) -> bool, root: string, patterns: seq<string>, dirs: seq<Dir>): seq<string>
  {
    if dirs == [] then []
    else WorkspaceOf(matches, root, patterns, dirs[0]) + Workspaces(matches, root, patterns, dirs[1..])
  }

  lemma {:induction false} WorkspacesAppend(matches: (string, string) -> bool, root: string, patterns: seq<string>,
                                            a: seq<Dir>, b: seq<Dir>)
    ensures Workspaces(matches, root, patterns, a + b)
            == Workspaces(matches, root, patterns, a) + Workspaces(matches, root, patterns, b)
  {
    if a == [] {
      assert a + b == b;
    } else {
      var first := WorkspaceOf(matches, root, patterns, a[0]);
      assert (a + b)[0] == a[0] && (a + b)[1..] == a[1..] + b;
      calc {
        Workspaces(matches, root, patterns, a + b);
        first + Workspaces(matches, root, patterns, a[1..] + b);
        { WorkspacesAppend(matches, root, patterns, a[1..], b); }
        first + (Workspaces(matches, root, patterns, a[1..]) + Workspaces(matches, root, patterns, b));
        { AppendAssoc(first, Workspaces(matches, root, patterns, a[1..]), Workspaces(matches, root, patterns, b)); }
        Workspaces(matches, root, patterns, a) + Workspaces(matches, root, patterns, b);
      }
    }
  }

  /** One more walked directory adds what it contributes at the end. */
  lemma WorkspacesStep(matches: (string, string) -> bool, root: string, patterns: seq<string>, dirs: seq<Dir>, n: nat)
    requires n < |dirs|
    ensures Workspaces(matches, root, patterns, dirs[..n + 1])
            == Workspaces(matches, root, patterns, dirs[..n]) + WorkspaceOf(matches, root, patterns, dirs[n])
  {
    assert dirs[..n + 1] == dirs[..n] + [dirs[n]];
    WorkspacesAppend(matches, root, patterns, dirs[..n], [dirs[n]]);
    assert Workspaces(matches, root, patterns, [dirs[n]]) == WorkspaceOf(matches, root, patterns, dirs[n]) + [];
  }

  /**
   * `findWorkspaces`: no patterns, no workspaces; otherwise a loop over the
   * walked directories and, inside, over the patterns, stopping at the first
   * matching pattern whose directory has a deno.json.
   */
  method FindWorkspaces(matches: (string, string) -> bool, root: string, deno: Option<DenoJson>, pkg: Option<PackageJson>,
                        dirs: seq<Dir>)
    returns (workspaces: seq<string>)
    ensures workspaces == Workspaces(matches, root, WorkspacePatterns(deno, pkg), dirs)
  {
    var workspacePatterns := WorkspacePatterns(deno, pkg);
    if |workspacePatterns| == 0 {
      WorkspacesWithoutPatterns(matches, root, dirs);
      return [];
    }
    var normalizedPatterns := NormalizeAll(workspacePatterns);
    workspaces := [];
    var n := 0;
    while n < |dirs|
      invariant 0 <= n <= |dirs|
      invariant workspaces == Workspaces(matches, root, workspacePatterns, dirs[..n])
    {
      var found := ScanDir(matches, root, workspacePatterns, normalizedPatterns, dirs[n]);
      WorkspacesStep(matches, root, workspacePatterns, dirs, n);
      workspaces := workspaces + found;
      n := n + 1;
    }
    assert dirs[..n] == dirs;
  }

  /** The body of the directory loop: the directory's path when some pattern matches and it has a deno.json. */
  method ScanDir(matches: (string, string) -> bool, root: string, patterns: seq<string>, normalizedPatterns: seq<string>, spec: Dir)
    returns (found: seq<string>)
    requires normalizedPatterns == NormalizeAll(patterns)
    ensures found == WorkspaceOf(matches, root, patterns, spec)
  {
    found := [];
    if spec.path != root {
      var relativePath := FileFinder.RelativePath(root, spec.path);
      var pushed := false;
      var i := 0;
      while i < |normalizedPatterns|
        invariant 0 <= i <= |normalizedPatterns|
        invariant pushed == (spec.hasDenoJson && FileFinder.AnyMatch(matches, normalizedPatterns[..i], relativePath))
        invariant found == (if pushed then [spec.path] else [])
      {
        FileFinder.AnyMatchStep(matches, normalizedPatterns, i, relativePath);
        if matches(normalizedPatterns[i], relativePath) {
          if spec.hasDenoJson {
            found := found + [spec.path];
            pushed := true;
            i := i + 1;
            break;
          }
        }
        i := i + 1;
      }
      assert pushed == IsWorkspace(matches, root, patterns, spec);
    }
  }

  lemma {:induction false} WorkspacesWithoutPatterns(matches: (string, string) -> bool, root: string, dirs: seq<Dir>)
    ensures Workspaces(matches, root, [], dirs) == []
  {
    if dirs != [] {
      WorkspacesWithoutPatterns(matches, root, dirs[1..]);
    }
  }

  /** A path is a workspace iff some walked directory with that path qualifies. */
  lemma {:induction false} WorkspacesMembers(matches: (string, string) -> bool, root: string, patterns: seq<string>,
                                             dirs: seq<Dir>, p: string)
    ensures p in Workspaces(matches, root, patterns, dirs) <==>
            exists d :: d in dirs && d.path == p && IsWorkspace(matches, root, patterns, d)
  {
    if dirs != [] {
      WorkspacesMembers(matches, root, patterns, dirs[1..], p);
      assert forall d :: d in dirs <==> d == dirs[0] || d in dirs[1..];
    }
  }

  /** A pattern with a leading './' selects what the same pattern without it selects. */
  lemma NormalizeDropsDotSlash(rest: string)
    ensures DropDotSlash("./" + rest) == rest
  {
    assert StartsWith("./" + rest, "./");
    assert ("./" + rest)[2..] == rest;
  }

  /** The workspace name: the last segment of the path relative to the root, 'unknown' when that is empty. */
  function WorkspaceName(root: string, path: string): (r: string)
    ensures r != "" && '/' !in r
  {
    var parts := Split(FileFinder.RelativePath(root, path), '/');
    if parts[|parts| - 1] != "" then parts[|parts| - 1] else "unknown"
  }

  /**
   * A workspace at `root/s1/.../sn` is named `sn`; a path ending in '/' (an
   * empty last segment) is named 'unknown'.
   */
  lemma WorkspaceNameOfSegments(root: string, segments: seq<string>)
    requires |segments| > 0 && forall i :: 0 <= i < |segments| ==> '/' !in segments[i]
    ensures segments[|segments| - 1] != "" ==> WorkspaceName(root, root + "/" + Join(segments, '/')) == segments[|segments| - 1]
    ensures segments[|segments| - 1] == "" ==> WorkspaceName(root, root + "/" + Join(segments, '/')) == "unknown"
  {
    var joined := Join(segments, '/');
    FileFinder.RelativePathOfChild(root, joined);
    SplitJoin(segments, '/');
    assert Split(FileFinder.RelativePath(root, root + "/" + joined), '/') == segments;
  }

  // ---------------------------------------------------------------------------
  // The run

  /** What the run reads of one directory: its deno.json, its launch.config.json and its walked files. */
  datatype Folder = Folder(path: string, deno: Option<DenoJson>, file: Option<ConfigLoader.LaunchConfigFile>,
                           walked: seq<FileFinder.Entry>)

  const DefaultLaunch := LaunchJson("0.2.0", [], None, None, None)

  function Manual(cs: seq<LaunchConfiguration>): (r: seq<LaunchConfiguration>)
    ensures forall c :: c in r <==> c in cs && !IsGenerated(c)
    ensures |r| <= |cs|
  {
    if cs == [] then []
    else (if IsGenerated(cs[0]) then [] else [cs[0]]) + Manual(cs[1..])
  }

  /** `processWorkspace`: a folder's own layered configuration, merged on top of the parent's. */
  function Processed(folder: Folder, parent: LaunchConfig, init: bool): LaunchConfig
  {
    ConfigLoader.Merge(parent, ConfigLoader.Layered(folder.deno, folder.file, init))
  }

  function WorkspaceEntries(matches: (string, string) -> bool, root: Folder, workspaces: seq<Folder>, init: bool): seq<LaunchConfiguration>
  {
    if workspaces == [] then []
    else WorkspaceEntriesOf(matches, root, workspaces[0], init) + WorkspaceEntries(matches, root, workspaces[1..], init)
  }

  /** The entries of one workspace: its configuration layered on the root's, named after its directory. */
  function WorkspaceEntriesOf(matches: (string, string) -> bool, root: Folder, ws: Folder, init: bool): seq<LaunchConfiguration>
  {
    Configurations(matches, ws.path, ws.walked, WorkspaceName(root.path, ws.path), Processed(ws, Processed(root, EmptyConfig, init), init))
  }

  /** The rewritten launch.json: manual entries first, then each workspace's, then the root's only without workspaces. */
  function Regenerated(matches: (string, string) -> bool, existing: Option<LaunchJson>, root: Folder,
                       workspaces: seq<Folder>, init: bool): LaunchJson
  {
    var launch := existing.GetOr(DefaultLaunch);
    var rootEntries := if workspaces == [] then Configurations(matches, root.path, root.walked, "root", Processed(root, EmptyConfig, init))
                       else [];
    launch.(configurations := Manual(launch.configurations) + WorkspaceEntries(matches, root, workspaces, init) + rootEntries)
  }

  lemma {:induction false} WorkspaceEntriesAppend(matches: (string, string) -> bool, root: Folder, a: seq<Folder>, b: seq<Folder>, init: bool)
    ensures WorkspaceEntries(matches, root, a + b, init) == WorkspaceEntries(matches, root, a, init) + WorkspaceEntries(matches, root, b, init)
  {
    if a == [] {
      assert a + b == b;
    } else {
      assert (a + b)[0] == a[0] && (a + b)[1..] == a[1..] + b;
      WorkspaceEntriesAppend(matches, root, a[1..], b, init);
      AppendAssoc(WorkspaceEntriesOf(matches, root, a[0], init), WorkspaceEntries(matches, root, a[1..], init),
                  WorkspaceEntries(matches, root, b, init));
    }
  }

  /** The entries of the first `w + 1` workspaces extend those of the first `w`. */
  lemma WorkspaceEntriesStep(matches: (string, string) -> bool, root: Folder, workspaces: seq<Folder>, w: nat, init: bool)
    requires w <= |workspaces|
    ensures WorkspaceEntries(matches, root, workspaces[..0], init) == []
    ensures w < |workspaces| ==>
              WorkspaceEntries(matches, root, workspaces[..w + 1], init)
              == WorkspaceEntries(matches, root, workspaces[..w], init) + WorkspaceEntriesOf(matches, root, workspaces[w], init)
  {
    assert workspaces[..0] == [];
    if w < |workspaces| {
      assert workspaces[..w + 1] == workspaces[..w] + [workspaces[w]];
      WorkspaceEntriesAppend(matches, root, workspaces[..w], [workspaces[w]], init);
      assert WorkspaceEntries(matches, root, [workspaces[w]], init)
             == WorkspaceEntriesOf(matches, root, workspaces[w], init) + WorkspaceEntries(matches, root, [], init);
    }
  }

  /**
   * `LaunchGenerator.run` up to writing the file. `existing` is launch.json
   * (None when missing), `workspaces` the folders `findWorkspaces` returned.
   * The loader is called as the generator calls it, never as project root,
   * so it never regenerates launch.config.json here.
   */
  method Run(matches: (string, string) -> bool, existing: Option<LaunchJson>, root: Folder, workspaces: seq<Folder>,
             init: bool, home: string)
    returns (launch: LaunchJson)
    ensures launch == Regenerated(matches, existing, root, workspaces, init)
  {
    var existingLaunch := existing.GetOr(DefaultLaunch);
    var manualConfigs := Manual(existingLaunch.configurations);
    var generated := WorkspacesConfigurations(matches, root, workspaces, init, home);
    var configurations := manualConfigs + generated;
    if |workspaces| == 0 {
      var rootConfigs := RootConfigurations(matches, root, init, home);
      configurations := configurations + rootConfigs;
    }
    launch := existingLaunch.(configurations := configurations);
  }

  /** The workspace loop of the run: each workspace's entries, in the order the workspaces were found. */
  method WorkspacesConfigurations(matches: (string, string) -> bool, root: Folder, workspaces: seq<Folder>, init: bool, home: string)
    returns (generated: seq<LaunchConfiguration>)
    ensures generated == WorkspaceEntries(matches, root, workspaces, init)
  {
    generated := [];
    var w := 0;
    WorkspaceEntriesStep(matches, root, workspaces, w, init);
    while w < |workspaces|
      invariant 0 <= w <= |workspaces|
      invariant generated == WorkspaceEntries(matches, root, workspaces[..w], init)
    {
      var workspaceConfigs := WorkspaceConfigurations(matches, root, workspaces[w], init, home);
      WorkspaceEntriesStep(matches, root, workspaces, w, init);
      generated := generated + workspaceConfigs;
      w := w + 1;
    }
    assert workspaces[..w] == workspaces;
  }

  /** The root's own entries, generated only when there are no workspaces. */
  method RootConfigurations(matches: (string, string) -> bool, root: Folder, init: bool, home: string)
    returns (rootConfigs: seq<LaunchConfiguration>)
    ensures rootConfigs == Configurations(matches, root.path, root.walked, "root", Processed(root, EmptyConfig, init))
  {
    var rootConfig := ProcessWorkspace(root, EmptyConfig, init, home);
    rootConfigs := GenerateConfigurations(matches, root.path, root.walked, rootConfig, "root");
  }

  /** One pass of the workspace loop: the root's configuration, the workspace's on top of it, and its entries. */
  method WorkspaceConfigurations(matches: (string, string) -> bool, root: Folder, workspace: Folder, init: bool, home: string)
    returns (workspaceConfigs: seq<LaunchConfiguration>)
    ensures workspaceConfigs == WorkspaceEntriesOf(matches, root, workspace, init)
  {
    var rootConfig := ProcessWorkspace(root, EmptyConfig, init, home);
    var workspaceConfig := ProcessWorkspace(workspace, rootConfig, init, home);
    var workspaceName := WorkspaceName(root.path, workspace.path);
    workspaceConfigs := GenerateConfigurations(matches, workspace.path, workspace.walked, workspaceConfig, workspaceName);
  }

  /** `processWorkspace`: load the folder's configuration (not as project root) and merge it onto the parent's. */
  method ProcessWorkspace(folder: Folder, parent: LaunchConfig, init: bool, home: string) returns (config: LaunchConfig)
    ensures config == Processed(folder, parent, init)
  {
    var loaded, written := ConfigLoader.LoadAndMerge(folder.deno, folder.file, init, false, home);
    config := ConfigLoader.MergeConfigs(parent, loaded);
  }

  /** The entries the run did not generate are kept, in order, ahead of everything it generates. */
  lemma RegeneratedKeepsManual(matches: (string, string) -> bool, existing: Option<LaunchJson>, root: Folder,
                               workspaces: seq<Folder>, init: bool)
    ensures var before := existing.GetOr(DefaultLaunch).configurations;
            var after := Regenerated(matches, existing, root, workspaces, init).configurations;
            |Manual(before)| <= |after| && after[..|Manual(before)|] == Manual(before)
  {
  }

  /** Every other launch.json field (version, compounds, port, console) is carried over unchanged. */
  lemma RegeneratedKeepsOtherFields(matches: (string, string) -> bool, existing: Option<LaunchJson>, root: Folder,
                                    workspaces: seq<Folder>, init: bool)
    ensures var launch := existing.GetOr(DefaultLaunch);
            Regenerated(matches, existing, root, workspaces, init)
              == launch.(configurations := Regenerated(matches, existing, root, workspaces, init).configurations)
  {
  }

  lemma {:induction false} WorkspaceEntriesGenerated(matches: (string, string) -> bool, root: Folder, workspaces: seq<Folder>, init: bool)
    ensures forall c :: c in WorkspaceEntries(matches, root, workspaces, init) ==> IsGenerated(c)
  {
    if workspaces != [] {
      var ws := workspaces[0];
      var config := Processed(ws, Processed(root, EmptyConfig, init), init);
      if config.groups.Some? {
        AllGroupEntriesGenerated(matches, ws.path, ws.walked, WorkspaceName(root.path, ws.path), config, config.groups.value);
      }
      WorkspaceEntriesGenerated(matches, root, workspaces[1..], init);
    }
  }

  lemma {:induction false} ManualAppend(a: seq<LaunchConfiguration>, b: seq<LaunchConfiguration>)
    ensures Manual(a + b) == Manual(a) + Manual(b)
  {
    if a == [] {
      assert a + b == b;
    } else {
      assert (a + b)[1..] == a[1..] + b;
      ManualAppend(a[1..], b);
    }
  }

  lemma {:induction false} ManualOfGenerated(cs: seq<LaunchConfiguration>)
    requires forall c :: c in cs ==> IsGenerated(c)
    ensures Manual(cs) == []
  {
    if cs != [] {
      ManualOfGenerated(cs[1..]);
    }
  }

  lemma {:induction false} ManualIdempotent(cs: seq<LaunchConfiguration>)
    ensures Manual(Manual(cs)) == Manual(cs)
  {
    if cs != [] {
      ManualIdempotent(cs[1..]);
      ManualAppend(if IsGenerated(cs[0]) then [] else [cs[0]], Manual(cs[1..]));
    }
  }

  /** Running again keeps exactly the same manual entries: every generated entry is recognised as generated. */
  lemma RegenerationIsStable(matches: (string, string) -> bool, existing: Option<LaunchJson>, root: Folder,
                             workspaces: seq<Folder>, init: bool)
    ensures Manual(Regenerated(matches, existing, root, workspaces, init).configurations)
            == Manual(existing.GetOr(DefaultLaunch).configurations)
  {
    var launch := existing.GetOr(DefaultLaunch);
    var ws := WorkspaceEntries(matches, root, workspaces, init);
    var rootConfig := Processed(root, EmptyConfig, init);
    var rootEntries := if workspaces == [] then Configurations(matches, root.path, root.walked, "root", rootConfig) else [];
    WorkspaceEntriesGenerated(matches, root, workspaces, init);
    if workspaces == [] && rootConfig.groups.Some? {
      AllGroupEntriesGenerated(matches, root.path, root.walked, "root", rootConfig, rootConfig.groups.value);
    }
    ManualAppend(Manual(launch.configurations) + ws, rootEntries);
    ManualAppend(Manual(launch.configurations), ws);
    ManualOfGenerated(ws);
    ManualOfGenerated(rootEntries);
    ManualIdempotent(launch.configurations);
  }
}
