# epdoc tools: version bumping, launch.json generation and release housekeeping

This Dafny project models the deterministic core of three of the repository's tools, and proves properties of that model.

- **bump** decides a package's next version from its current version and the command-line flags:
  - `AppMain.increment` in packages/bump/src/app.ts;
  - the older `AppMain.run` in bump/app.ts.

  Both delegate to node-semver's `inc`. `SemVer` models the six increments they use, over versions `X.Y.Z`, `X.Y.Z-tag.N` and `X.Y.Z-N`:
  - the normal version is section 2 of Semantic Versioning 2.0.0;
  - pre-releases are section 9;
  - precedence is section 11.
- **bump's release steps:**
  - `Git` models which paths `git add` stages and the argument lists of `commit`, `tag` and `push`;
  - `Changelog` models the new section of CHANGELOG.md and where it is inserted.
- **launchgen** writes VS Code's `.vscode/launch.json`:
  - `ConfigLoader` layers deno.json's `launch` and launch.config.json, merges configurations group by group, and decides when launch.config.json is regenerated;
  - `FileFinder` selects files by include and exclude patterns;
  - `Generator` builds one launch entry per found file or per script, keeps the entries a user wrote by hand, and finds the workspaces;
  - `LegacyLaunch` is the older single-file generator, `launchgen.ts`. It is a class whose methods update the runtime, launch.json, launch.config.json and the project file in place.

Modules and helpers:
- `LaunchTypes` holds the records of the JSON files and the constants.
- `Strings` holds the JavaScript string operations used: `split`, `join`, `trim`, `split(/\s+/)`, `substring`, `repeat`, and decimal numerals.
- `Wrappers` holds `Option`.

Inputs the model takes as parameters:
- `matches(pattern, path)` stands for a glob matcher.
- `leq` stands for the locale order of paths.
- Each runs a subprocess or reads a file in the source; here it comes in as a value:
  - the repository root;
  - `git status --porcelain` output;
  - the current directory;
  - the date;
  - the home directory;
  - the contents of deno.json, launch.config.json and launch.json;
  - directory walks.
- What the tools write comes out as a value.

The pre-release policy of `increment` is fixed, and the model and its lemmas state its rules:
- the same identifier bumps the counter;
- a lower identifier moves to the next patch;
- `-i` on `rc` finalises the release.

node-semver rules the model states that the test suite does not exercise:
- `major`, `minor` and `patch` always drop the pre-release; on a pre-release they bump their own number only when a lower field is non-zero, so `minor` on X.Y.0-pre gives X.Y.0 (SemVer.IncOnPrerelease);
- `prerelease` without an identifier on a stable version gives X.Y.(Z+1)-0 (BumpLegacy.PrereleaseExamples);
- `prerelease` with an identifier that sorts below the current tag lowers precedence (SemVer.IncPrereleaseCanLower);
- text is trimmed, and refused above 256 characters or with a number above 2^53-1 (SemVer.ParseInput).

## Model

| member | source | states |
|---|---|---|
| SemVer.Parse | packages/bump/src/app.ts:115-119 | the strict grammar of its text: a parsed version is well formed; anything outside `X.Y.Z[-tag.N or -N]` gives None |
| SemVer.ParseInput | packages/bump/src/app.ts:114-119 | node-semver's `parse`: a version exactly when the text is at most 256 characters, its trimmed form parses, and major, minor and patch are at most 2^53-1 |
| SemVer.ParseInputFormat | packages/bump/src/app.ts:114 | the canonical text of a well-formed version within the bounds is read back as that version |
| SemVer.ParseInputPadded | packages/bump/src/app.ts:114 | white space before and after the canonical text is ignored |
| SemVer.ParseInputTrims | packages/bump/src/app.ts:114 | ' 1.2.3' is version 1.2.3 |
| SemVer.ParseInputRefusesUnsafe | packages/bump/src/app.ts:114-118 | a well-formed text whose major, minor or patch exceeds 2^53-1 is refused |
| SemVer.ParseFormat | packages/bump/src/app.ts:115 | parsing the text of a well-formed version gives the version back |
| SemVer.FormatParse | packages/bump/src/app.ts:115 | a string that parses is the canonical text of its version |
| SemVer.Inc | packages/bump/src/app.ts:125-197 | node-semver `inc` fails exactly for a pre-release kind with a non-empty identifier that is not a tag; otherwise it keeps versions well formed |
| SemVer.IncRaisesPrecedence | packages/bump/src/app.ts:193 | every increment raises precedence unless a `prerelease` identifier sorts below the current tag |
| SemVer.IncPrereleaseCanLower | bump/app.ts:52 | 1.0.0-beta.2 with `prerelease alpha` gives the lower 1.0.0-alpha.0 |
| SemVer.IncOnPrerelease | packages/bump/src/app.ts:132-149 | `minor` on 1.2.0-beta.1 gives 1.2.0, `major` on 2.0.0-rc.0 gives 2.0.0, `patch` keeps X.Y.Z, and a non-zero lower field still bumps |
| BumpIncrement.IndexOf | packages/bump/src/app.ts:153-154 | `indexOf`: -1 when absent, otherwise the first position holding the value |
| BumpIncrement.OrderAreTags | packages/bump/src/app.ts:113 | alpha, beta and rc are valid pre-release identifiers |
| BumpIncrement.OrderIsAscending | packages/bump/src/app.ts:113 | the fixed identifier order is ascending in precedence |
| BumpIncrement.IncrementVersion | packages/bump/src/app.ts:121-203 | fails exactly for an unknown identifier on the identifier-only path or a pre-release kind with an invalid identifier; results stay well formed |
| BumpIncrement.Increment | packages/bump/src/app.ts:106-210 | text node-semver does not read gives undefined; otherwise the result is the canonical text of IncrementVersion of the parsed version, and undefined exactly when that fails |
| BumpIncrement.FirstFlagDecides | packages/bump/src/app.ts:125-150 | release, then major, minor, patch are tried in order, and the first one set decides alone |
| BumpIncrement.ReleaseCases | packages/bump/src/app.ts:125-131 | `release` strips the pre-release, or bumps patch on a stable version |
| BumpIncrement.MajorCases | packages/bump/src/app.ts:132-139 | `major` without identifier is `inc major`; with one it is `inc premajor`, using alpha for a bare `-i` |
| BumpIncrement.MinorCases | packages/bump/src/app.ts:140-147 | `minor` likewise with `minor` and `preminor` |
| BumpIncrement.PatchCases | packages/bump/src/app.ts:148-149 | `patch` is `inc patch` whatever the identifier |
| BumpIncrement.NamedCases | packages/bump/src/app.ts:159-173 | a known identifier: the same one bumps the counter, a lower one starts at Z+1, a higher one restarts at Z |
| BumpIncrement.NamedOnStable | packages/bump/src/app.ts:168-172 | a known identifier on a stable version starts `X.Y.(Z+1)-id.0` |
| BumpIncrement.NamedOutsideOrder | packages/bump/src/app.ts:150-158 | on the identifier-only path an identifier outside alpha, beta and rc fails |
| BumpIncrement.AdvanceCases | packages/bump/src/app.ts:175-188 | a bare `-i` advances alpha to beta to rc, finalises rc, treats an unknown tag as before alpha and starts a stable version at Z+1 alpha.0 |
| BumpIncrement.DefaultCases | packages/bump/src/app.ts:190-197 | without flags a tagged pre-release bumps its counter and a stable version bumps patch |
| BumpIncrement.FlagsRaisePrecedence | packages/bump/src/app.ts:125-149 | release, major, minor and patch always give a higher version |
| BumpIncrement.NamedRaisesPrecedence | packages/bump/src/app.ts:151-173 | a named identifier gives a higher version when the current tag is in the order |
| BumpIncrement.AdvanceRaisesPrecedence | packages/bump/src/app.ts:175-188 | a bare `-i` gives a higher version when the current tag is in the order |
| BumpIncrement.IncrementRaisesPrecedence | packages/bump/src/app.ts:125-197 | every successful increment raises precedence when the current tag is in the order |
| BumpIncrement.NamedAfterUnknownTagCanLower | packages/bump/src/app.ts:153-172 | from an unknown tag (dev) a named identifier can give a lower version |
| BumpIncrement.ExamplesDefault | packages/bump/test/app.test.ts:8-18 | the default-behaviour cases of the test suite |
| BumpIncrement.ExamplesReleasePatch | packages/bump/test/app.test.ts:20-37 | the release and patch cases of the test suite |
| BumpIncrement.ExamplesAdvance | packages/bump/test/app.test.ts:39-54 | the bare `-i` cases of the test suite |
| BumpIncrement.ExampleNamedSwitch | packages/bump/test/app.test.ts:57-60 | beta.2 with `-i alpha` gives 0.0.2-alpha.0 |
| BumpIncrement.ExampleNamedFromRelease | packages/bump/test/app.test.ts:62-65 | 0.0.7 with `-i alpha` gives 0.0.8-alpha.0 |
| BumpIncrement.ExampleNamedSame | packages/bump/test/app.test.ts:67-70 | 0.0.4-rc.0 with `-i rc` gives 0.0.4-rc.1 |
| BumpIncrement.ExamplesMajorMinor | packages/bump/test/app.test.ts:73-108 | the major and minor cases without identifier |
| BumpIncrement.ExamplesMajorMinorNamed | packages/bump/test/app.test.ts:89-118 | the major and minor cases with an identifier |
| BumpIncrement.IncrementOfFormat | packages/bump/src/app.ts:106-210 | on the canonical text of a readable version, `increment` gives the text of IncrementVersion's result, or undefined when it fails |
| BumpIncrement.ExamplesDefaultText | packages/bump/test/app.test.ts:9-12 | '0.0.1' gives '0.0.2' |
| BumpIncrement.ExamplePrereleaseText | packages/bump/test/app.test.ts:14-17 | '0.0.1-alpha.20' gives '0.0.1-alpha.21' |
| BumpIncrement.ExampleReleaseText | packages/bump/test/app.test.ts:28-31 | '0.2.1-alpha.3' with `release` gives '0.2.1' |
| BumpIncrement.ExampleAdvanceText | packages/bump/test/app.test.ts:40-43 | '0.0.1-alpha.5' with a bare `-i` gives '0.0.1-beta.0' |
| BumpIncrement.ExampleMajorNamedText | packages/bump/test/app.test.ts:95-98 | '2.0.5-alpha.2' with `major -i alpha` gives '3.0.0-alpha.0' |
| BumpIncrement.ExamplePaddedText | packages/bump/src/app.ts:114 | ' 0.0.1' is bumped like '0.0.1', to '0.0.2' |
| BumpLegacy.BumpKind | bump/app.ts:28-39 | major, else minor, else prerelease, else patch, each exactly when its flag is the first set |
| BumpLegacy.IncText | bump/app.ts:52 | `semver.inc` on text: a result exactly when node-semver reads the text and Inc succeeds, and then it is the canonical text of Inc of the parsed version |
| BumpLegacy.IncTextIgnoresIdentifier | bump/app.ts:52 | `inc` with `major`, `minor` or `patch` gives the same text whatever the identifier |
| BumpLegacy.IncTextOfFormat | bump/app.ts:52 | on the canonical text of a readable version, `inc` gives the text of Inc's version, or null when Inc fails |
| BumpLegacy.Run | bump/app.ts:9-73 | a missing or empty version stops first; an invalid identifier is rejected only for prerelease; a failed increment writes nothing; dry run writes nothing; otherwise only `version` changes |
| BumpLegacy.IdentifierIgnoredOutsidePrerelease | bump/app.ts:41-52 | outside a prerelease bump the identifier does not change the outcome |
| BumpLegacy.PrereleaseWithOrderTag | bump/app.ts:41-72 | a prerelease bump with alpha, beta or rc of a version node-semver reads writes the incremented version |
| BumpLegacy.PrereleaseExamples | bump/app.ts:52 | `inc prerelease` on stable and tagged versions, with and without an identifier |
| BumpLegacy.IncTextExamples | bump/app.ts:52 | on text, '1.2.3' becomes '1.2.4-beta.0' under `prerelease beta` and '1.2.4' under `patch` |
| Git.PorcelainFile | packages/bump/src/git.ts:56 | a porcelain line's file is a single space-free token |
| Git.UpPrefix | packages/bump/src/git.ts:50-53 | one '../' per segment of the current directory below the root |
| Git.GetFilesToAdd | packages/bump/src/git.ts:36-71 | the loop computes FilesToAdd |
| Git.StageLines | packages/bump/src/git.ts:55-68 | the forEach computes Staged over the porcelain lines |
| Git.StageLine | packages/bump/src/git.ts:56-64 | one porcelain line adds its prefixed file exactly when it is a release file outside the current directory |
| Git.Porcelain | packages/bump/src/git.ts:73-76 | the listing's lines, none empty |
| Git.NonEmpty | packages/bump/src/git.ts:75 | the filter keeps exactly the non-empty parts |
| Git.AddArgs | packages/bump/src/git.ts:31-34 | `add` followed by the files in order |
| Git.CommitArgs | packages/bump/src/git.ts:88-95 | `commit` then '-m' and each message, in order |
| Git.TagArgs | packages/bump/src/git.ts:97-100 | `tag -a version -m` with the message, or the version when it is missing or empty |
| Git.PushCommands | packages/bump/src/git.ts:102-107 | `push`, then `push --tags` exactly when tags are pushed |
| Git.FilesToAddStartsWithDot | packages/bump/src/git.ts:39-49 | '.' comes first; without a root or porcelain lines it is all |
| Git.AddStagesCurrentDirectory | packages/bump/src/git.ts:31-39 | `git add` always stages '.' first |
| Git.StagedMembers | packages/bump/src/git.ts:55-64 | a path is staged exactly when a line names a non-empty release file outside the current directory, with the prefix |
| Git.StagedOrder | packages/bump/src/git.ts:55-64 | staged files keep porcelain order |
| Git.UpPrefixOfSegments | packages/bump/src/git.ts:50-53 | n segments below the root give n times '../' |
| Git.UpPrefixOneLevel | packages/bump/src/git.ts:50-53 | one level down gives '../' |
| Git.UpPrefixTwoLevels | packages/bump/src/git.ts:50-53 | packages/bump gives '../../' |
| Git.OutsideExamples | packages/bump/src/git.ts:40-63 | the string-prefix test counts a sibling like pkg2 as inside; release files are the allowed names, '.md' and 'docs/' |
| Git.PorcelainOfLines | packages/bump/src/git.ts:73-76 | output made of non-empty lines gives those lines back |
| Git.NonEmptyOfNonEmpty | packages/bump/src/git.ts:75 | the filter keeps a list without empty strings as it is |
| Git.NonEmptyDropsBlank | packages/bump/src/git.ts:75 | the trailing empty piece after a final newline is dropped |
| Git.NonEmptyAppend | packages/bump/src/git.ts:75 | the filter distributes over concatenation |
| ConfigLoader.FindIndex | packages/launchgen/src/config-loader.ts:63 | -1 exactly when no group has the id, otherwise the first such group |
| ConfigLoader.OverlayLaws | packages/launchgen/src/config-loader.ts:65 | the property spread is idempotent and associative, and a bare group changes nothing |
| ConfigLoader.Upsert | packages/launchgen/src/config-loader.ts:63-68 | a known id is overlaid in place, and an unknown one is appended; other groups are untouched |
| ConfigLoader.MergedGroupsSnoc | packages/launchgen/src/config-loader.ts:62-69 | merging one more override group is one more upsert |
| ConfigLoader.MergedGroupsIds | packages/launchgen/src/config-loader.ts:62-69 | the merged ids are the base ids, then each new id once in override order |
| ConfigLoader.MergedGroupsLength | packages/launchgen/src/config-loader.ts:62-69 | the length is the base's plus the number of distinct new ids |
| ConfigLoader.MergedGroupsDistinct | packages/launchgen/src/config-loader.ts:60-69 | distinct base ids stay distinct |
| ConfigLoader.MergedGroupsKeepsUnmentioned | packages/launchgen/src/config-loader.ts:60-68 | a base group no override mentions keeps its value and position |
| ConfigLoader.OverrideWins | packages/launchgen/src/config-loader.ts:63-65 | the last override group's properties are all in the merged group with its id |
| ConfigLoader.MergedGroupsOfFresh | packages/launchgen/src/config-loader.ts:62-69 | with all ids distinct the merge is concatenation |
| ConfigLoader.MergeConfigs | packages/launchgen/src/config-loader.ts:51-74 | the copy-and-upsert loop computes Merge; `LaunchGenerator.#mergeConfigs` (generator.ts:114-137) is the same code and uses it |
| ConfigLoader.MergeFields | packages/launchgen/src/config-loader.ts:52-58 | port, console and excludes come from the override when present; `$schema` and `runtimeExecutable` from the base; no override groups keep the base's |
| ConfigLoader.ExportNameCases | packages/launchgen/src/config-loader.ts:100 | the key names the group, except '.', which takes the path without './' and '.ts' |
| ConfigLoader.ExportGroupsMembers | packages/launchgen/src/config-loader.ts:98-110 | a group per export exactly when its path does not end in mod.ts |
| ConfigLoader.GeneratedConfigShape | packages/launchgen/src/config-loader.ts:77-123 | port 9229, default console and excludes, deno under home, 'test' and 'run' first, then programs with an empty script |
| ConfigLoader.AutoGenerateConfig | packages/launchgen/src/config-loader.ts:76-124 | the export loop computes GeneratedConfig |
| ConfigLoader.LoadAndMerge | packages/launchgen/src/config-loader.ts:6-44 | deno.json's launch, then launch.config.json's unless forced; regenerated exactly when ShouldAutoGenerate, then merged on top |
| ConfigLoader.ForceIgnoresFile | packages/launchgen/src/config-loader.ts:21 | with regeneration forced launch.config.json is not read |
| ConfigLoader.FirstRunYieldsGenerated | packages/launchgen/src/config-loader.ts:29-41 | at a root without any launch configuration the result is the generated one, without runtimeExecutable |
| LaunchTypes.RuntimeExecutable | packages/launchgen/src/consts.ts:11 | the deno path starts with the home directory |
| FileFinder.FindFiles | packages/launchgen/src/file-finder.ts:5-51 | the nested loops compute Select |
| FileFinder.SelectWithoutIncludes | packages/launchgen/src/file-finder.ts:7-9 | no includes give no files, whatever the excludes |
| FileFinder.SelectMembers | packages/launchgen/src/file-finder.ts:21-46 | an entry is returned exactly when it was walked, is a file, matches an include and no exclude |
| FileFinder.SelectAppend | packages/launchgen/src/file-finder.ts:21-48 | the result follows walk order |
| FileFinder.SelectSubMultiset | packages/launchgen/src/file-finder.ts:21-48 | no entry is returned more often than walked |
| FileFinder.SelectDistinct | packages/launchgen/src/file-finder.ts:21-48 | a walk without repeats gives a result without repeats |
| FileFinder.RelativePathOfChild | packages/launchgen/src/file-finder.ts:23 | matching sees the path without the directory and one separator |
| Generator.Port | packages/launchgen/src/generator.ts:169 | group port, else config port, else 9229, zero counting as absent |
| Generator.Console | packages/launchgen/src/generator.ts:170 | group console, else config console, else internalConsole, empty counting as absent |
| Generator.FileEntries | packages/launchgen/src/generator.ts:154-176 | one file entry per relative path, in order |
| Generator.ScriptEntries | packages/launchgen/src/generator.ts:181-215 | one script entry per script, in order |
| Generator.Relatives | packages/launchgen/src/generator.ts:155 | each found file's path relative to the workspace |
| Generator.GenerateConfigurations | packages/launchgen/src/generator.ts:139-221 | the group loop computes Configurations |
| Generator.PushGroupEntries | packages/launchgen/src/generator.ts:148-216 | one group's branch computes GroupEntries |
| Generator.PushFileEntries | packages/launchgen/src/generator.ts:154-176 | the file loop computes FileEntries |
| Generator.PushScriptEntries | packages/launchgen/src/generator.ts:181-215 | the script loop computes ScriptEntries |
| Generator.NoGroupsNoEntries | packages/launchgen/src/generator.ts:146 | a configuration without groups gives no entries |
| Generator.FileModeEntries | packages/launchgen/src/generator.ts:149-176 | a group with includes gives one entry per found file, even with a program |
| Generator.ProgramModeEntries | packages/launchgen/src/generator.ts:177-181 | an empty scripts array gives none, a missing one a single entry |
| Generator.NeitherModeEntries | packages/launchgen/src/generator.ts:148-217 | a group with neither includes nor program gives nothing |
| Generator.FileEntryFields | packages/launchgen/src/generator.ts:155-174 | name and program by relative path, prefixed by the workspace outside root; runtimeArgs or []; marked generated |
| Generator.ScriptEntryFields | packages/launchgen/src/generator.ts:182-213 | args are scriptArgs then the script's words; program under packages/ws outside root, with presentation group ws; marked generated |
| Generator.ScriptWordsKeepText | packages/launchgen/src/generator.ts:182 | splitting a script on white space loses only white space |
| Generator.AllGroupEntriesGenerated | packages/launchgen/src/generator.ts:174 | every entry built from groups carries LAUNCHGEN 'true' |
| Strings.DropDotSlash | packages/launchgen/src/generator.ts:80 | one leading './' is removed, nothing else changes; also the `replace(/^\.\//, '')` of launchgen.ts:172 and config-loader.ts:100 |
| Generator.NormalizeAll | packages/launchgen/src/generator.ts:80 | every pattern normalised, in order |
| Generator.NormalizeDropsDotSlash | packages/launchgen/src/generator.ts:80 | exactly one leading './' is removed, even when what follows starts with './' again |
| Generator.WorkspaceOf | packages/launchgen/src/generator.ts:89-101 | a walked directory contributes itself or nothing |
| Generator.ScanDir | packages/launchgen/src/generator.ts:90-101 | the pattern loop with its break computes WorkspaceOf |
| Generator.FindWorkspaces | packages/launchgen/src/generator.ts:60-106 | the directory loop computes Workspaces over deno.json's or package.json's patterns |
| Generator.WorkspacesWithoutPatterns | packages/launchgen/src/generator.ts:74-76 | without patterns there are no workspaces |
| Generator.WorkspacesMembers | packages/launchgen/src/generator.ts:89-103 | a path is a workspace exactly when it is walked, not the root, has deno.json and matches a normalised pattern |
| Generator.WorkspaceName | packages/launchgen/src/generator.ts:34 | never empty and without '/' |
| Generator.WorkspaceNameOfSegments | packages/launchgen/src/generator.ts:34 | a workspace at root/s1/.../sn is named sn, and 'unknown' when sn is empty (the path ends in '/') |
| Generator.Manual | packages/launchgen/src/generator.ts:25 | exactly the entries not marked generated |
| Generator.ManualAppend | packages/launchgen/src/generator.ts:25 | the filter keeps order |
| Generator.ManualOfGenerated | packages/launchgen/src/generator.ts:239-241 | generated entries are all dropped |
| Generator.ManualIdempotent | packages/launchgen/src/generator.ts:25 | filtering twice is filtering once |
| Generator.ProcessWorkspace | packages/launchgen/src/generator.ts:108-137 | a folder's layered configuration merged onto its parent's |
| Generator.RootConfigurations | packages/launchgen/src/generator.ts:40-44 | the root's entries from its own configuration, named 'root' |
| Generator.WorkspaceConfigurations | packages/launchgen/src/generator.ts:32-36 | a workspace's entries from its configuration on the root's |
| Generator.WorkspacesConfigurations | packages/launchgen/src/generator.ts:31-37 | the workspace loop's entries, in workspace order |
| Generator.Run | packages/launchgen/src/generator.ts:19-50 | the written launch.json is Regenerated |
| Generator.RegeneratedKeepsManual | packages/launchgen/src/generator.ts:25-26 | hand-written entries come first, in order |
| Generator.RegeneratedKeepsOtherFields | packages/launchgen/src/generator.ts:46 | `version`, `compounds`, `port` and `console` of launch.json are kept; only `configurations` changes |
| Generator.WorkspaceEntriesGenerated | packages/launchgen/src/generator.ts:31-37 | every workspace entry is marked generated |
| Generator.RegenerationIsStable | packages/launchgen/src/generator.ts:25-46 | a second run keeps exactly the same hand-written entries |
| LegacyLaunch.ConfigPort | packages/launchgen/src/launchgen.ts:292 | the configured port when non-zero, else 9229 |
| LegacyLaunch.ConfigConsole | packages/launchgen/src/launchgen.ts:293 | the configured console when non-empty, else internalConsole |
| LegacyLaunch.TestEntries | packages/launchgen/src/launchgen.ts:270-298 | at most one entry per walked entry, each from a file |
| LegacyLaunch.DefaultScripts | packages/launchgen/src/launchgen.ts:229-231 | missing or empty scripts become one empty script; nothing else changes |
| LegacyLaunch.WithDefaultScripts | packages/launchgen/src/launchgen.ts:228-231 | each group defaulted, in order |
| LegacyLaunch.ScriptsEntries | packages/launchgen/src/launchgen.ts:232-253 | one entry per script, in order |
| LegacyLaunch.Excludes | packages/launchgen/src/launchgen.ts:156-157 | the excludes always end with '**/.*' |
| LegacyLaunch.GlobDirname | packages/launchgen/src/launchgen.ts:168 | dirname of 'dir/*' is 'dir' |
| LegacyLaunch.WorkspacePrefix | packages/launchgen/src/launchgen.ts:166-174 | a prefix ending in '/' exactly for a single scope ending in '/*' whose dirname is not '.' |
| LegacyLaunch.RelativeName | packages/launchgen/src/launchgen.ts:206-209 | the root-relative path, without the prefix when it starts with it |
| LegacyLaunch.Selected | packages/launchgen/src/launchgen.ts:198-213 | only files are taken, at most one per entry |
| LegacyLaunch.Pick | packages/launchgen/src/launchgen.ts:205-211 | one walk entry gives at most one file |
| LegacyLaunch.Insert | packages/launchgen/src/launchgen.ts:219 | insertion adds exactly the entry |
| LegacyLaunch.SortByPath | packages/launchgen/src/launchgen.ts:219 | sorting permutes the additions |
| LegacyLaunch.InsertSorted | packages/launchgen/src/launchgen.ts:219 | insertion into a sorted list keeps it sorted |
| LegacyLaunch.SortByPathSorted | packages/launchgen/src/launchgen.ts:219 | the additions come out ordered by path |
| LegacyLaunch.ExpandWorkspaces | packages/launchgen/src/launchgen.ts:176-194 | the scope loop computes ExpandScopes |
| LegacyLaunch.SelectFrom | packages/launchgen/src/launchgen.ts:198-213 | the walk loop computes Selected |
| LegacyLaunch.CollectAdditions | packages/launchgen/src/launchgen.ts:196-215 | the workspace loop computes Additions, in workspace order |
| LegacyLaunch.PushAll | packages/launchgen/src/launchgen.ts:258-261 | the additions are appended in order |
| LegacyLaunch.GroupEntries | packages/launchgen/src/launchgen.ts:232-253 | the script loop computes ScriptsEntries |
| LegacyLaunch.DefaultInPlace | packages/launchgen/src/launchgen.ts:229-231 | the defaulted group replaces just its own slot |
| LegacyLaunch.CustomGroupsEntries | packages/launchgen/src/launchgen.ts:226-255 | the group loop defaults each group in place and computes CustomEntries |
| LegacyLaunch.LaunchGen.constructor | packages/launchgen/src/launchgen.ts:78-86 | deno runtime, the default launch.json and empty configurations |
| LegacyLaunch.LaunchGen.DetectRuntime | packages/launchgen/src/launchgen.ts:97-109 | deno.json wins, then package.json, else unchanged |
| LegacyLaunch.LaunchGen.LoadConfigs | packages/launchgen/src/launchgen.ts:111-134 | each file read replaces its field; a missing one keeps it |
| LegacyLaunch.LaunchGen.FilterExisting | packages/launchgen/src/launchgen.ts:136-148 | configurations become the entries not marked generated |
| LegacyLaunch.LaunchGen.AddTest | packages/launchgen/src/launchgen.ts:270-298 | a file appends its test entry |
| LegacyLaunch.LaunchGen.AddTests | packages/launchgen/src/launchgen.ts:220-222 | each file appends its entry, in order |
| LegacyLaunch.LaunchGen.AddWorkspaceFiles | packages/launchgen/src/launchgen.ts:150-223 | the test entries of the sorted workspace files are appended; the project's excludes gain '**/.*' |
| LegacyLaunch.LaunchGen.AddCustomGroups | packages/launchgen/src/launchgen.ts:225-262 | groups are defaulted in place and their entries appended |
| LegacyLaunch.LaunchGen.Run | packages/launchgen/src/launchgen.ts:88-95 | launch.json becomes Regenerated |
| LegacyLaunch.WorkspacePrefixExamples | packages/launchgen/src/launchgen.ts:166-174 | 'packages/*' and './packages/*' give 'packages/' |
| LegacyLaunch.WorkspacePrefixAbsent | packages/launchgen/src/launchgen.ts:166-170 | './*', 'packages' and two scopes give no prefix |
| LegacyLaunch.RelativeNameUnderPrefix | packages/launchgen/src/launchgen.ts:206-209 | a path under the prefix loses it |
| LegacyLaunch.RelativeNameElsewhere | packages/launchgen/src/launchgen.ts:206-209 | a path elsewhere keeps its relative path |
| LegacyLaunch.RelativeNameWithoutPrefix | packages/launchgen/src/launchgen.ts:206 | without a prefix the name is root-relative |
| LegacyLaunch.IsTestOrRunExamples | packages/launchgen/src/launchgen.ts:205 | '.test' or '.run' followed by '.ts' or '.js' at the end |
| LegacyLaunch.WorkspaceFilesSorted | packages/launchgen/src/launchgen.ts:196-219 | the added files are sorted by path and are exactly the files found |
| LegacyLaunch.SelectedAreTests | packages/launchgen/src/launchgen.ts:205 | every found entry is a test or run file |
| LegacyLaunch.TestEntryShape | packages/launchgen/src/launchgen.ts:273-295 | name 'Debug name', program by name, runtime defaults then path then test args or '--check', marked generated |
| LegacyLaunch.CustomGroupWithoutScripts | packages/launchgen/src/launchgen.ts:229-253 | one entry named 'Debug program ' with args ending in '' |
| LegacyLaunch.CustomArgsOfStrings | packages/launchgen/src/launchgen.ts:246-250 | a string scriptArgs is ignored and a string script splits on white space |
| LegacyLaunch.CustomArgsOfArrays | packages/launchgen/src/launchgen.ts:246-248 | an array scriptArgs comes first, then the array script |
| LegacyLaunch.TestEntriesGenerated | packages/launchgen/src/launchgen.ts:294 | every test entry is marked generated |
| LegacyLaunch.CustomEntriesGenerated | packages/launchgen/src/launchgen.ts:244 | every custom entry is marked generated |
| LegacyLaunch.RegeneratedIsStable | packages/launchgen/src/launchgen.ts:136-139 | a second run keeps the same hand-written entries, version and compounds |
| Changelog.Header | bump/changelog.ts:10 | the header is its four lines joined by line breaks, with a final one |
| Changelog.HeaderLinesFacts | bump/changelog.ts:10 | the header's four lines hold no line break and no level-2 heading |
| Changelog.Bullets | bump/changelog.ts:16-23 | '- ' before each message, in order; no messages give the placeholder |
| Changelog.Prefixed | bump/changelog.ts:18-20 | each message prefixed, in order |
| Changelog.Section | bump/changelog.ts:24 | the heading, an empty line and the bullets |
| Changelog.SectionOneLine | bump/changelog.ts:24 | without line breaks in the inputs no section line has one |
| Changelog.FirstH2Index | bump/changelog.ts:29 | -1 exactly when no line starts '## ', otherwise the first such line |
| Changelog.Splice | bump/changelog.ts:32 | the section and one blank line inserted at the index, all other lines kept |
| Changelog.SpliceRemoves | bump/changelog.ts:32 | removing the inserted lines gives the file back |
| Changelog.SpliceIsNewest | bump/changelog.ts:29-32 | the new heading becomes the first level-2 heading |
| Changelog.Updated | bump/changelog.ts:26-39 | lines are spliced exactly when a file with a level-2 heading exists; otherwise header and section replace it |
| Changelog.UpdatedSplices | bump/changelog.ts:28-33 | the file grows by the section plus one line, before its first section |
| Changelog.NewFileLines | bump/changelog.ts:34-39 | read back as lines, a new file is the header lines, the section and a final empty line |
| Changelog.NewFileThenSplices | bump/changelog.ts:29-38 | the next update of a new file splices after the header |
| Changelog.UpdatedAsWritten | bump/changelog.ts:35-38 | the same choice, with the section comma-joined into the template |
| Changelog.AsWrittenLines | bump/changelog.ts:35-38 | as written, the whole section becomes one line of the new file |
| Changelog.AsWrittenLosesBullets | bump/changelog.ts:35-38 | as written, the bullet '- a' is not a line of the new file; corrected, it is |
| Changelog.Changelog.constructor | bump/changelog.ts:9-11 | the header for the package name |
| Changelog.Changelog.Update | bump/changelog.ts:13-40 | the corrected `update`: the bullet loop and splice compute Updated, which writes a new file's section line by line where the code comma-joins it (see Findings) |

## Left out

- I/O is left out: files, subprocesses, logging and colours. Everything read comes in as a parameter and everything written comes out as a value:
  - `Git.run`, `runWithOutput` and `getRootDir`;
  - file reads, writes and `ensureDir`;
  - the directory walks.
- A missing `git rev-parse` result is `None`.
- The packages/bump `AppMain.run` is left out: it reads and writes files. `#gitOps` and `isWorkspace` are left out for the same reason. Only their argument lists and decisions are modelled, in Git.
- `findRoot`, `main` and the generator's dry-run temp file are left out: they probe the file system.
- launchgen's `detectRuntime` becomes two booleans.
- Glob matching (`globToRegExp`, `expandGlob`) is left out. It is the parameter `matches`, or `expand` and `resolve` for the legacy generator.
- `localeCompare` is left out. It is the parameter `leq`, assumed total and transitive.
- Concurrency is left out. The `Promise.all` fan-out over workspaces is modelled in workspace order.
- `Object.entries` order of `exports` is taken as the order of the sequence.
- The date and the home directory are parameters.
- The changelog's written file is `Written`: lines or a text.
- Changelog.Changelog.Update: it is the corrected method and writes a new file's section line by line. The code as written comma-joins it there; Changelog.UpdatedAsWritten models that, with the Findings row.
- launch.json keys outside `version`, `configurations`, `compounds`, `port` and `console` (such as `inputs`), and keys of a launch entry outside its record fields (such as `preLaunchTask` or `skipFiles`), are not modelled. The source's object spread keeps them; the model cannot represent them.
- SemVer.Parse: leaves out 'v' prefixes, loose parsing, build metadata and pre-releases of more than two identifiers, or of an alphanumeric identifier without a counter; such versions give None.
- SemVer.ParseInput: a numeric pre-release counter of 2^53-1 or more, which node-semver keeps as text, stays a number here; `trim` removes only ASCII white space.
- SemVer.Inc: invalid identifiers are rejected by a simplified rule. An identifier is accepted when it is one identifier of letters, digits and '-' with a non-digit. node-semver's exact validation of identifiers, and its `identifierBase`, are not modelled.
- BumpIncrement.Increment: the source asserts a non-empty version, which is the requires.
- Git.Staged: its ensures only bounds the length. Membership and order are in Git.StagedMembers and Git.StagedOrder.
- LegacyLaunch.TestEntries: its ensures states membership. The exact entries are in LegacyLaunch.LaunchGen.AddTests.
- JavaScript's `\s` is taken as ASCII white space. Unicode spaces are not treated as separators.
- `path.relative`, `path.resolve` and `path.dirname` are modelled only on the strings the tools pass them: a prefix and one separator. Normalisation of '..' is not modelled.

## Findings

| source | as written | input that shows it | evidently intended | confidence | as-written member | corrected member |
|---|---|---|---|---|---|---|
| bump/changelog.ts:35-38 | a new CHANGELOG.md interpolates the section array into the template, so its lines are joined with ',' | name "x", version 1.0.0, date 2024-01-01, message ["a"], no existing file: the written text has the single line `## [1.0.0] - 2024-01-01,,- a` | the section's lines joined with line breaks, as the splice path writes them | not executed | Changelog.UpdatedAsWritten | Changelog.Updated |
