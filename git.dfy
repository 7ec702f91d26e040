/**
 * The string logic of the release tool's git wrapper: which paths to stage
 * from `git status --porcelain` output, and the argument lists of `commit`,
 * `tag` and `push`. The repository root, the current directory and the
 * command output are parameters; running git is not modelled.
 */
module Git {

  import opened Wrappers
  import opened Strings

  /** Files outside the current package that are staged as well. */
  const AllowedFiles: seq<string> := [
    "deno.lock", ".vscode/launch.json", "launch.config.json", "README.md", "deno.json", ".gitignore",
    "launch.config.json"
  ]

  /** The path of a porcelain line: the last space-separated word of the trimmed line. */
  function PorcelainFile(line: string): (file: string)
    ensures ' ' !in file
  {
    var parts := Split(Trim(line), ' ');
    parts[|parts| - 1]
  }

  /** A file outside the package is staged when it is an allowed name, Markdown, or under docs/. */
  predicate IsReleaseFile(file: string)
  {
    file in AllowedFiles || EndsWith(file, ".md") || StartsWith(file, "docs/")
  }

  /** The file is not under the current directory, by a plain string-prefix test on its absolute path. */
  predicate Outside(rootDir: string, cwd: string, file: string)
  {
    !StartsWith(rootDir + "/" + file, cwd)
  }

  /** `'../'` once per segment of the current directory below the root (at least once). */
  function UpPrefix(rootDir: string, cwd: string): (prefix: string)
    ensures |prefix| == 3 * (Count(Substring(cwd, |rootDir| + 1), '/') + 1)
  {
    var relativeToRoot := Substring(cwd, |rootDir| + 1);
    SplitLength(relativeToRoot, '/');
    Repeat("../", |Split(relativeToRoot, '/')|)
  }

  /** The porcelain lines whose file is staged separately, with the prefix in front. */
  function Staged(rootDir: string, cwd: string, prefix: string, lines: seq<string>): (r: seq<string>)
    ensures |r| <= |lines|
  {
    if lines == [] then [] else StagedLine(rootDir, cwd, prefix, lines[0]) + Staged(rootDir, cwd, prefix, lines[1..])
  }

  /** What one porcelain line adds: its file with the prefix, or nothing. */
  function StagedLine(rootDir: string, cwd: string, prefix: string, line: string): (r: seq<string>)
    ensures |r| <= 1
  {
    var file := PorcelainFile(line);
    if file != "" && Outside(rootDir, cwd, file) && IsReleaseFile(file) then [prefix + file] else []
  }

  /** `getFilesToAdd`: '.' first, then the release files outside the package, when there is a root and output. */
  function FilesToAdd(porcelain: seq<string>, rootDir: Option<string>, cwd: string): seq<string>
  {
    ["."] + (if rootDir.Some? && rootDir.value != "" && |porcelain| > 0
             then Staged(rootDir.value, cwd, UpPrefix(rootDir.value, cwd), porcelain)
             else [])
  }

  method GetFilesToAdd(porcelain: seq<string>, rootDir: Option<string>, cwd: string) returns (filesToAdd: seq<string>)
    ensures filesToAdd == FilesToAdd(porcelain, rootDir, cwd)
  {
    filesToAdd := ["."];
    if rootDir.Some? && rootDir.value != "" && |porcelain| > 0 {
      var root := rootDir.value;
      var prefix := UpPrefix(root, cwd);
      var staged := StageLines(root, cwd, prefix, porcelain);
      filesToAdd := filesToAdd + staged;
    }
  }

  /** The `forEach` over the porcelain lines: the paths it pushes, in order. */
  method StageLines(root: string, cwd: string, prefix: string, lines: seq<string>) returns (staged: seq<string>)
    ensures staged == Staged(root, cwd, prefix, lines)
  {
    staged := [];
    var i := 0;
    assert lines[..i] == [];
    while i < |lines|
      invariant 0 <= i <= |lines|
      invariant staged == Staged(root, cwd, prefix, lines[..i])
    {
      StagedStep(root, cwd, prefix, lines, i);
      var added := StageLine(root, cwd, prefix, lines[i]);
      staged := staged + added;
      i := i + 1;
    }
    assert lines[..i] == lines;
  }

  /** The body of the `forEach`: what one porcelain line pushes. */
  method StageLine(root: string, cwd: string, prefix: string, line: string) returns (added: seq<string>)
    ensures added == StagedLine(root, cwd, prefix, line)
  {
    added := [];
    var file := PorcelainFile(line);
    if file != "" {
      var absFile := root + "/" + file;
      if !StartsWith(absFile, cwd) {
        if IsReleaseFile(file) {
          added := [prefix + file];
        }
      }
    }
  }

  lemma {:induction false} StagedAppend(rootDir: string, cwd: string, prefix: string, a: seq<string>, b: seq<string>)
    ensures Staged(rootDir, cwd, prefix, a + b) == Staged(rootDir, cwd, prefix, a) + Staged(rootDir, cwd, prefix, b)
  {
    if a == [] {
      assert a + b == b;
    } else {
      assert (a + b)[0] == a[0] && (a + b)[1..] == a[1..] + b;
      StagedAppend(rootDir, cwd, prefix, a[1..], b);
      AppendAssoc(StagedLine(rootDir, cwd, prefix, a[0]), Staged(rootDir, cwd, prefix, a[1..]), Staged(rootDir, cwd, prefix, b));
    }
  }

  lemma StagedStep(rootDir: string, cwd: string, prefix: string, lines: seq<string>, i: nat)
    requires i < |lines|
    ensures Staged(rootDir, cwd, prefix, lines[..i + 1])
            == Staged(rootDir, cwd, prefix, lines[..i]) + StagedLine(rootDir, cwd, prefix, lines[i])
  {
    assert lines[..i + 1] == lines[..i] + [lines[i]];
    StagedAppend(rootDir, cwd, prefix, lines[..i], [lines[i]]);
  }

  /** `getPorcelain`: the lines of the output, without the empty ones. */
  function Porcelain(output: string): (lines: seq<string>)
    ensures forall i :: 0 <= i < |lines| ==> lines[i] != "" && '\n' !in lines[i]
  {
    NonEmpty(Split(output, '\n'))
  }

  function NonEmpty(parts: seq<string>): (r: seq<string>)
    ensures forall i :: 0 <= i < |r| ==> r[i] != "" && r[i] in parts
    ensures forall p :: p in parts && p != "" ==> p in r
  {
    if parts == [] then [] else (if parts[0] == "" then [] else [parts[0]]) + NonEmpty(parts[1..])
  }

  /** `add`: 'add' followed by the files to stage, in order. */
  function AddArgs(filesToAdd: seq<string>): (args: seq<string>)
    ensures |args| == 1 + |filesToAdd| && args[0] == "add"
    ensures forall i :: 0 <= i < |filesToAdd| ==> args[1 + i] == filesToAdd[i]
  {
    ["add"] + filesToAdd
  }

  /** `commit`: 'commit', then '-m' and the message for each message, in order. */
  method CommitArgs(msgs: seq<string>) returns (args: seq<string>)
    ensures |args| == 1 + 2 * |msgs| && args[0] == "commit"
    ensures forall i :: 0 <= i < |msgs| ==> args[1 + 2 * i] == "-m" && args[2 + 2 * i] == msgs[i]
  {
    args := ["commit"];
    var k := 0;
    while k < |msgs|
      invariant 0 <= k <= |msgs|
      invariant |args| == 1 + 2 * k && args[0] == "commit"
      invariant forall i :: 0 <= i < k ==> args[1 + 2 * i] == "-m" && args[2 + 2 * i] == msgs[i]
    {
      args := args + ["-m"];
      args := args + [msgs[k]];
      k := k + 1;
    }
  }

  /** `tag`: an annotated tag named after the version; its message is the version when none (or '') is given. */
  function TagArgs(version: string, message: Option<string>): (args: seq<string>)
    ensures |args| == 5 && args[..4] == ["tag", "-a", version, "-m"]
    ensures message.Some? && message.value != "" ==> args[4] == message.value
    ensures message.None? || message.value == "" ==> args[4] == version
  {
    ["tag", "-a", version, "-m", if message.Some? && message.value != "" then message.value else version]
  }

  /** `push`: the commits, then the tags only when asked. */
  function PushCommands(withTags: bool): (commands: seq<seq<string>>)
    ensures |commands| == (if withTags then 2 else 1)
    ensures commands[0] == ["push"]
    ensures withTags ==> commands[1] == ["push", "--tags"]
  {
    [["push"]] + (if withTags then [["push", "--tags"]] else [])
  }

  // ---------------------------------------------------------------------------
  // Properties

  /** '.' always comes first; without a root or without output it is all there is. */
  lemma FilesToAddStartsWithDot(porcelain: seq<string>, rootDir: Option<string>, cwd: string)
    ensures var r := FilesToAdd(porcelain, rootDir, cwd);
            |r| >= 1 && r[0] == "."
            && (rootDir.None? || rootDir.value == "" || porcelain == [] ==> r == ["."])
  {
  }

  /** `add` always stages the current directory first. */
  lemma AddStagesCurrentDirectory(porcelain: seq<string>, rootDir: Option<string>, cwd: string)
    ensures var args := AddArgs(FilesToAdd(porcelain, rootDir, cwd));
            |args| >= 2 && args[..2] == ["add", "."]
  {
    FilesToAddStartsWithDot(porcelain, rootDir, cwd);
  }

  /**
   * A path is staged besides '.' exactly when some porcelain line names a
   * non-empty release file outside the current directory; it is staged with
   * the prefix that leads back up to the root.
   */
  lemma {:induction false} StagedMembers(rootDir: string, cwd: string, prefix: string, lines: seq<string>, x: string)
    ensures x in Staged(rootDir, cwd, prefix, lines) <==>
            exists l :: l in lines && PorcelainFile(l) != "" && Outside(rootDir, cwd, PorcelainFile(l))
                        && IsReleaseFile(PorcelainFile(l)) && x == prefix + PorcelainFile(l)
  {
    if lines != [] {
      StagedMembers(rootDir, cwd, prefix, lines[1..], x);
      assert forall l :: l in lines <==> l == lines[0] || l in lines[1..];
    }
  }

  /** Staged files keep the order of the porcelain lines. */
  lemma {:induction false} StagedOrder(rootDir: string, cwd: string, prefix: string, a: seq<string>, b: seq<string>)
    ensures Staged(rootDir, cwd, prefix, a + b) == Staged(rootDir, cwd, prefix, a) + Staged(rootDir, cwd, prefix, b)
  {
    StagedAppend(rootDir, cwd, prefix, a, b);
  }

  /** Each directory between the root and the package adds one `../`. */
  lemma UpPrefixOfSegments(rootDir: string, segments: seq<string>)
    requires |segments| > 0
    requires forall i :: 0 <= i < |segments| ==> '/' !in segments[i]
    ensures UpPrefix(rootDir, rootDir + "/" + Join(segments, '/')) == Repeat("../", |segments|)
  {
    var cwd := rootDir + "/" + Join(segments, '/');
    assert Substring(cwd, |rootDir| + 1) == Join(segments, '/');
    SplitJoin(segments, '/');
  }

  /** A package one directory below the root climbs once. */
  lemma UpPrefixOneLevel()
    ensures UpPrefix("/r", "/r/pkg") == "../"
  {
    assert '/' !in "pkg";
    UpPrefixOfSegments("/r", ["pkg"]);
    assert Join(["pkg"], '/') == "pkg";
  }

  /** A package two directories below the root climbs twice. */
  lemma UpPrefixTwoLevels()
    ensures UpPrefix("/r", "/r/packages/bump") == "../../"
  {
    var segments := ["packages", "bump"];
    assert '/' !in segments[0] && '/' !in segments[1];
    UpPrefixOfSegments("/r", segments);
    PackagesBumpPath(segments);
    assert Repeat("../", 1) == "../";
  }

  lemma PackagesBumpPath(segments: seq<string>)
    requires segments == ["packages", "bump"]
    ensures "/r" + "/" + Join(segments, '/') == "/r/packages/bump"
  {
    assert Join(segments, '/') == "packages" + ['/'] + "bump";
  }

  /** A root-level README is staged from a package; a sibling directory sharing the package's name as prefix counts as inside. */
  lemma OutsideExamples()
    ensures Outside("/r", "/r/pkg", "README.md") && IsReleaseFile("README.md")
    ensures !Outside("/r", "/r/pkg", "pkg2/README.md")
    ensures !Outside("/r", "/r/pkg", "pkg/README.md")
    ensures !IsReleaseFile("src/app.ts") && IsReleaseFile("docs/guide.txt") && IsReleaseFile("CHANGELOG.md")
  {
    assert ("/r" + "/" + "README.md")[..6] != "/r/pkg" by { assert ("/r" + "/" + "README.md")[..6][3] == 'R'; }
    assert ("/r" + "/" + "pkg2/README.md")[..6] == "/r/pkg";
    assert ("/r" + "/" + "pkg/README.md")[..6] == "/r/pkg";
    assert "src/app.ts"[|"src/app.ts"| - 3..] != ".md";
    assert "src/app.ts"[..5] != "docs/" by { assert "src/app.ts"[0] == 's'; }
    assert StartsWith("docs/guide.txt", "docs/");
    assert EndsWith("CHANGELOG.md", ".md");
  }

  /** The output of `git status --porcelain` lines joined with newlines gives those lines back. */
  lemma PorcelainOfLines(lines: seq<string>)
    requires |lines| > 0
    requires forall i :: 0 <= i < |lines| ==> lines[i] != "" && '\n' !in lines[i]
    ensures Porcelain(Join(lines, '\n')) == lines
  {
    SplitJoin(lines, '\n');
    NonEmptyOfNonEmpty(lines);
  }

  lemma {:induction false} NonEmptyOfNonEmpty(parts: seq<string>)
    requires forall i :: 0 <= i < |parts| ==> parts[i] != ""
    ensures NonEmpty(parts) == parts
  {
    if parts != [] {
      NonEmptyOfNonEmpty(parts[1..]);
    }
  }

  /** Empty lines, such as the one after the final newline, are dropped. */
  lemma NonEmptyDropsBlank(a: seq<string>)
    ensures NonEmpty(a + [""]) == NonEmpty(a)
  {
    NonEmptyAppend(a, [""]);
  }

  lemma {:induction false} NonEmptyAppend(a: seq<string>, b: seq<string>)
    ensures NonEmpty(a + b) == NonEmpty(a) + NonEmpty(b)
  {
    if a == [] {
      assert a + b == b;
    } else {
      assert (a + b)[1..] == a[1..] + b;
      NonEmptyAppend(a[1..], b);
    }
  }
}
