/**
 * `FileFinder.findFiles`: the files under a workspace directory whose
 * relative path matches some include pattern and no exclude pattern. The
 * directory walk arrives as a sequence of entries in walk order, and glob
 * matching is the parameter `matches(pattern, relativePath)`.
 */
module FileFinder {

  import opened Strings

  /** One walked entry: its full path, and whether it is a file rather than a directory. */
  datatype Entry = Entry(path: string, isFile: bool)

  /** `path.substring(root.length + 1)`: the path without the workspace prefix and one separator. */
  function RelativePath(root: string, path: string): string { Substring(path, |root| + 1) }

  predicate AnyMatch(matches: (string, string) -> bool, patterns: seq<string>, rel: string)
  {
    exists i :: 0 <= i < |patterns| && matches(patterns[i], rel)
  }

  /** Testing one more pattern: some of the first `i + 1` match iff some of the first `i` do or pattern `i` does. */
  lemma AnyMatchStep(matches: (string, string) -> bool, patterns: seq<string>, i: nat, rel: string)
    requires i < |patterns|
    ensures AnyMatch(matches, patterns[..i + 1], rel) <==> AnyMatch(matches, patterns[..i], rel) || matches(patterns[i], rel)
  {
    var p := patterns[..i + 1];
    assert p[i] == patterns[i];
    assert forall j :: 0 <= j < i ==> p[j] == patterns[..i][j];
  }

  /** The selection rule for one entry. */
  predicate Selected(matches: (string, string) -> bool, root: string, includes: seq<string>, excludes: seq<string>, e: Entry)
  {
    && e.isFile
    && AnyMatch(matches, includes, RelativePath(root, e.path))
    && !AnyMatch(matches, excludes, RelativePath(root, e.path))
  }

  /** The selected entries, in walk order. */
  function Select(matches: (string, string) -> bool, root: string, includes: seq<string>, excludes: seq<string>,
                  walked: seq<Entry>): seq<Entry>
  {
    if walked == [] then []
    else (if Selected(matches, root, includes, excludes, walked[0]) then [walked[0]] else [])
         + Select(matches, root, includes, excludes, walked[1..])
  }

  /**
   * `findFiles`: no includes, no files; otherwise a loop over the walked
   * entries with an include loop and an exclude loop, each stopping at its
   * first match.
   */
  method FindFiles(matches: (string, string) -> bool, root: string, includes: seq<string>, excludes: seq<string>,
                   walked: seq<Entry>)
    returns (files: seq<Entry>)
    ensures files == Select(matches, root, includes, excludes, walked)
  {
    if |includes| == 0 {
      SelectWithoutIncludes(matches, root, excludes, walked);
      return [];
    }
    files := [];
    var n := 0;
    while n < |walked|
      invariant 0 <= n <= |walked|
      invariant files == Select(matches, root, includes, excludes, walked[..n])
    {
      var spec := walked[n];
      SelectAppend(matches, root, includes, excludes, walked[..n], [spec]);
      assert walked[..n + 1] == walked[..n] + [spec];
      if spec.isFile {
        var relativePath := RelativePath(root, spec.path);
        var included := false;
        var i := 0;
        while i < |includes|
          invariant 0 <= i <= |includes|
          invariant included == AnyMatch(matches, includes[..i], relativePath)
        {
          AnyMatchStep(matches, includes, i, relativePath);
          if matches(includes[i], relativePath) {
            included := true;
            i := i + 1;
            break;
          }
          i := i + 1;
        }
        assert included == AnyMatch(matches, includes, relativePath);
        if included {
          var excluded := false;
          var j := 0;
          while j < |excludes|
            invariant 0 <= j <= |excludes|
            invariant excluded == AnyMatch(matches, excludes[..j], relativePath)
          {
            AnyMatchStep(matches, excludes, j, relativePath);
            if matches(excludes[j], relativePath) {
              excluded := true;
              j := j + 1;
              break;
            }
            j := j + 1;
          }
          assert excluded == AnyMatch(matches, excludes, relativePath);
          if !excluded {
            files := files + [spec];
          }
        }
      }
      n := n + 1;
    }
    assert walked[..n] == walked;
  }

  /** Selection follows walk order: it distributes over concatenation. */
  lemma {:induction false} SelectAppend(matches: (string, string) -> bool, root: string, includes: seq<string>,
                                        excludes: seq<string>, a: seq<Entry>, b: seq<Entry>)
    ensures Select(matches, root, includes, excludes, a + b)
            == Select(matches, root, includes, excludes, a) + Select(matches, root, includes, excludes, b)
  {
    if a == [] {
      assert a + b == b;
    } else {
      assert (a + b)[1..] == a[1..] + b;
      SelectAppend(matches, root, includes, excludes, a[1..], b);
    }
  }

  /** Without include patterns nothing is selected, whatever the excludes. */
  lemma {:induction false} SelectWithoutIncludes(matches: (string, string) -> bool, root: string, excludes: seq<string>,
                                                 walked: seq<Entry>)
    ensures Select(matches, root, [], excludes, walked) == []
  {
    if walked != [] {
      SelectWithoutIncludes(matches, root, excludes, walked[1..]);
    }
  }

  /** An entry is returned iff it was walked, is a file, matches an include and matches no exclude. */
  lemma {:induction false} SelectMembers(matches: (string, string) -> bool, root: string, includes: seq<string>,
                                         excludes: seq<string>, walked: seq<Entry>, e: Entry)
    ensures e in Select(matches, root, includes, excludes, walked) <==>
            e in walked && Selected(matches, root, includes, excludes, e)
  {
    if walked != [] {
      SelectMembers(matches, root, includes, excludes, walked[1..], e);
      assert e in walked <==> e == walked[0] || e in walked[1..];
    }
  }

  /** The result is a sub-multiset of the walk: no entry comes back more often than it was walked. */
  lemma {:induction false} SelectSubMultiset(matches: (string, string) -> bool, root: string, includes: seq<string>,
                                             excludes: seq<string>, walked: seq<Entry>)
    ensures multiset(Select(matches, root, includes, excludes, walked)) <= multiset(walked)
  {
    if walked != [] {
      SelectSubMultiset(matches, root, includes, excludes, walked[1..]);
      assert walked == [walked[0]] + walked[1..];
    }
  }

  /** A walk without repeated entries gives a result without repeated entries. */
  lemma {:induction false} SelectDistinct(matches: (string, string) -> bool, root: string, includes: seq<string>,
                                          excludes: seq<string>, walked: seq<Entry>)
    requires forall i, j :: 0 <= i < j < |walked| ==> walked[i] != walked[j]
    ensures var r := Select(matches, root, includes, excludes, walked);
            forall i, j :: 0 <= i < j < |r| ==> r[i] != r[j]
  {
    if walked != [] {
      SelectDistinct(matches, root, includes, excludes, walked[1..]);
      var rest := Select(matches, root, includes, excludes, walked[1..]);
      SelectMembers(matches, root, includes, excludes, walked[1..], walked[0]);
      assert walked[0] !in walked[1..] by {
        forall k | 0 <= k < |walked[1..]| ensures walked[1..][k] != walked[0] {
          assert walked[1..][k] == walked[k + 1];
        }
      }
    }
  }

  /** Matching sees the path with the workspace directory and one separator removed. */
  lemma RelativePathOfChild(root: string, rel: string)
    ensures RelativePath(root, root + "/" + rel) == rel
  {
    assert (root + "/" + rel)[|root| + 1..] == rel;
  }
}
