/**
 * Loading a package's launch configuration: the keyed merge of two `launch`
 * configurations, the layering of deno.json and launch.config.json, the
 * decision to regenerate launch.config.json, and the configuration generated
 * then. File contents come in as values; the generated file comes out as one.
 */
module ConfigLoader {

  import opened Wrappers
  import opened Strings
  import opened LaunchTypes

  // ---------------------------------------------------------------------------
  // Group lists keyed by id

  function Ids(gs: seq<Group>): (r: seq<string>)
    ensures |r| == |gs| && forall i :: 0 <= i < |gs| ==> r[i] == gs[i].id
  {
    if gs == [] then [] else [gs[0].id] + Ids(gs[1..])
  }

  function IdSet(gs: seq<Group>): set<string> { set x | x in Ids(gs) }

  predicate Distinct(s: seq<string>) { forall i, j :: 0 <= i < j < |s| ==> s[i] != s[j] }

  /** `findIndex` by id: the first group with that id, or -1. */
  function FindIndex(gs: seq<Group>, id: string): (i: int)
    ensures -1 <= i < |gs|
    ensures i == -1 <==> id !in IdSet(gs)
    ensures i >= 0 ==> gs[i].id == id && forall j :: 0 <= j < i ==> gs[j].id != id
  {
    if gs == [] then -1
    else if gs[0].id == id then 0
    else
      var j := FindIndex(gs[1..], id);
      assert Ids(gs) == [gs[0].id] + Ids(gs[1..]);
      if j < 0 then -1 else j + 1
  }

  /** `{ ...a, ...b }` on groups: every property `b` has wins. */
  function Overlay(a: Group, b: Group): Group
  {
    Group(
      b.id,
      b.name.Or(a.name),
      b.includes.Or(a.includes),
      b.excludes.Or(a.excludes),
      b.program.Or(a.program),
      b.runtimeExecutable.Or(a.runtimeExecutable),
      b.runtimeArgs.Or(a.runtimeArgs),
      b.scriptArgs.Or(a.scriptArgs),
      b.scripts.Or(a.scripts),
      b.port.Or(a.port),
      b.console.Or(a.console))
  }

  /** Overlaying twice is overlaying once; overlays compose; an id-only group changes nothing. */
  lemma OverlayLaws(a: Group, b: Group, c: Group)
    ensures Overlay(Overlay(a, b), b) == Overlay(a, b)
    ensures Overlay(Overlay(a, b), c) == Overlay(a, Overlay(b, c))
    ensures Overlay(a, BareGroup(a.id)) == a
  {
  }

  /**
   * One step of the merge loop: the group with the override's id takes the
   * override's properties in place; an unknown id is appended.
   */
  function Upsert(gs: seq<Group>, o: Group): (r: seq<Group>)
    ensures Ids(r) == if o.id in IdSet(gs) then Ids(gs) else Ids(gs) + [o.id]
    ensures forall j :: 0 <= j < |gs| && gs[j].id != o.id ==> r[j] == gs[j]
    ensures var k := FindIndex(r, o.id);
            && k == (if o.id in IdSet(gs) then FindIndex(gs, o.id) else |gs|)
            && r[k] == (if k < |gs| then Overlay(gs[k], o) else o)
  {
    var i := FindIndex(gs, o.id);
    if i >= 0 then
      UpsertExisting(gs, o, i);
      gs[i := Overlay(gs[i], o)]
    else
      UpsertNew(gs, o);
      gs + [o]
  }

  /** A known id: its first group takes the override's properties where it is. */
  lemma UpsertExisting(gs: seq<Group>, o: Group, i: int)
    requires i == FindIndex(gs, o.id) && i >= 0
    ensures var r := gs[i := Overlay(gs[i], o)];
            && Ids(r) == Ids(gs)
            && (forall j :: 0 <= j < |gs| && gs[j].id != o.id ==> r[j] == gs[j])
            && FindIndex(r, o.id) == i && r[i] == Overlay(gs[i], o)
  {
    var r := gs[i := Overlay(gs[i], o)];
    forall j | 0 <= j < |gs|
      ensures r[j].id == gs[j].id
    {
    }
    assert Ids(r) == Ids(gs);
    assert o.id in IdSet(r) by { assert Ids(r)[i] in Ids(r); }
    var k := FindIndex(r, o.id);
    assert k <= i;
    assert gs[k].id == o.id;
  }

  /** An unknown id: the override is appended. */
  lemma UpsertNew(gs: seq<Group>, o: Group)
    requires FindIndex(gs, o.id) == -1
    ensures Ids(gs + [o]) == Ids(gs) + [o.id]
    ensures FindIndex(gs + [o], o.id) == |gs| && (gs + [o])[|gs|] == o
  {
    IdsAppend(gs, [o]);
    assert Ids([o]) == [o.id];
    FindIndexAppendNew(gs, o);
  }

  lemma {:induction false} IdsAppend(a: seq<Group>, b: seq<Group>)
    ensures Ids(a + b) == Ids(a) + Ids(b)
  {
    if a == [] {
      assert a + b == b;
    } else {
      assert (a + b)[0] == a[0];
      assert (a + b)[1..] == a[1..] + b;
      IdsAppend(a[1..], b);
    }
  }

  lemma {:induction false} FindIndexAppendNew(gs: seq<Group>, o: Group)
    requires FindIndex(gs, o.id) == -1
    ensures FindIndex(gs + [o], o.id) == |gs|
  {
    if gs == [] {
      assert gs + [o] == [o];
    } else {
      assert (gs + [o])[0] == gs[0];
      assert (gs + [o])[1..] == gs[1..] + [o];
      FindIndexAppendNew(gs[1..], o);
    }
  }

  /** The groups after applying the override groups one by one, in order. */
  function MergedGroups(gs: seq<Group>, ovs: seq<Group>): seq<Group>
    decreases |ovs|
  {
    if ovs == [] then gs else MergedGroups(Upsert(gs, ovs[0]), ovs[1..])
  }

  /** The ids the overrides add: those not seen before, once each, in order of first appearance. */
  function FreshIds(seen: set<string>, ovs: seq<Group>): seq<string>
    decreases |ovs|
  {
    if ovs == [] then []
    else if ovs[0].id in seen then FreshIds(seen, ovs[1..])
    else [ovs[0].id] + FreshIds(seen + {ovs[0].id}, ovs[1..])
  }

  /** The merge is the reference definition applied by the loop. */
  lemma {:induction false} MergedGroupsSnoc(gs: seq<Group>, ovs: seq<Group>, o: Group)
    ensures MergedGroups(gs, ovs + [o]) == Upsert(MergedGroups(gs, ovs), o)
    decreases |ovs|
  {
    if ovs == [] {
      assert ovs + [o] == [o];
    } else {
      assert (ovs + [o])[1..] == ovs[1..] + [o];
      MergedGroupsSnoc(Upsert(gs, ovs[0]), ovs[1..], o);
    }
  }

  /** The merged list holds the base ids in their places, then the new ids in order of first appearance. */
  lemma {:induction false} MergedGroupsIds(gs: seq<Group>, ovs: seq<Group>)
    ensures Ids(MergedGroups(gs, ovs)) == Ids(gs) + FreshIds(IdSet(gs), ovs)
    decreases |ovs|
  {
    if ovs != [] {
      var up := Upsert(gs, ovs[0]);
      MergedGroupsIds(up, ovs[1..]);
      assert MergedGroups(gs, ovs) == MergedGroups(up, ovs[1..]);
      UpsertFreshIds(gs, ovs);
    }
  }

  /** One upsert moves the first override's id, when new, from the fresh ids to the list. */
  lemma UpsertFreshIds(gs: seq<Group>, ovs: seq<Group>)
    requires ovs != []
    ensures var up := Upsert(gs, ovs[0]);
            Ids(up) + FreshIds(IdSet(up), ovs[1..]) == Ids(gs) + FreshIds(IdSet(gs), ovs)
  {
    if ovs[0].id in IdSet(gs) {
      UpsertKnownIds(gs, ovs);
    } else {
      UpsertNewIds(gs, ovs);
    }
  }

  lemma UpsertKnownIds(gs: seq<Group>, ovs: seq<Group>)
    requires ovs != [] && ovs[0].id in IdSet(gs)
    ensures var up := Upsert(gs, ovs[0]);
            Ids(up) + FreshIds(IdSet(up), ovs[1..]) == Ids(gs) + FreshIds(IdSet(gs), ovs)
  {
    var up := Upsert(gs, ovs[0]);
    assert Ids(up) == Ids(gs);
    assert IdSet(up) == IdSet(gs);
    assert FreshIds(IdSet(gs), ovs) == FreshIds(IdSet(gs), ovs[1..]);
  }

  lemma UpsertNewIds(gs: seq<Group>, ovs: seq<Group>)
    requires ovs != [] && ovs[0].id !in IdSet(gs)
    ensures var up := Upsert(gs, ovs[0]);
            Ids(up) + FreshIds(IdSet(up), ovs[1..]) == Ids(gs) + FreshIds(IdSet(gs), ovs)
  {
    var id := ovs[0].id;
    var up := Upsert(gs, ovs[0]);
    assert Ids(up) == Ids(gs) + [id];
    IdSetSnoc(gs, up, id);
    var rest := FreshIds(IdSet(gs) + {id}, ovs[1..]);
    assert FreshIds(IdSet(gs), ovs) == [id] + rest;
    AppendAssoc(Ids(gs), [id], rest);
  }

  lemma IdSetSnoc(gs: seq<Group>, up: seq<Group>, id: string)
    requires Ids(up) == Ids(gs) + [id]
    ensures IdSet(up) == IdSet(gs) + {id}
  {
    forall x
      ensures x in Ids(up) <==> x in Ids(gs) || x == id
    {
    }
  }

  lemma FreshIdsFacts(seen: set<string>, ovs: seq<Group>)
    ensures Distinct(FreshIds(seen, ovs))
    ensures forall x :: x in FreshIds(seen, ovs) <==> x in IdSet(ovs) && x !in seen
    ensures |FreshIds(seen, ovs)| == |IdSet(ovs) - seen|
  {
    FreshIdsMembers(seen, ovs);
    FreshIdsDistinct(seen, ovs);
    FreshIdsCount(seen, ovs);
  }

  lemma IdSetCons(ovs: seq<Group>)
    requires ovs != []
    ensures IdSet(ovs) == {ovs[0].id} + IdSet(ovs[1..])
  {
    assert Ids(ovs) == [ovs[0].id] + Ids(ovs[1..]);
  }

  lemma {:induction false} FreshIdsMembers(seen: set<string>, ovs: seq<Group>)
    ensures forall x :: x in FreshIds(seen, ovs) <==> x in IdSet(ovs) && x !in seen
    decreases |ovs|
  {
    if ovs != [] {
      IdSetCons(ovs);
      if ovs[0].id in seen {
        FreshIdsMembers(seen, ovs[1..]);
      } else {
        FreshIdsMembers(seen + {ovs[0].id}, ovs[1..]);
      }
    }
  }

  lemma {:induction false} FreshIdsDistinct(seen: set<string>, ovs: seq<Group>)
    ensures Distinct(FreshIds(seen, ovs))
    decreases |ovs|
  {
    if ovs != [] {
      var o := ovs[0];
      if o.id in seen {
        FreshIdsDistinct(seen, ovs[1..]);
      } else {
        var seen' := seen + {o.id};
        var rest := FreshIds(seen', ovs[1..]);
        FreshIdsDistinct(seen', ovs[1..]);
        FreshIdsMembers(seen', ovs[1..]);
        assert o.id !in rest;
        var r := [o.id] + rest;
        forall i, j | 0 <= i < j < |r|
          ensures r[i] != r[j]
        {
          if i == 0 {
            assert r[j] == rest[j - 1];
          } else {
            assert r[i] == rest[i - 1] && r[j] == rest[j - 1];
          }
        }
      }
    }
  }

  lemma {:induction false} FreshIdsCount(seen: set<string>, ovs: seq<Group>)
    ensures |FreshIds(seen, ovs)| == |IdSet(ovs) - seen|
    decreases |ovs|
  {
    if ovs != [] {
      var o := ovs[0];
      IdSetCons(ovs);
      if o.id in seen {
        FreshIdsCount(seen, ovs[1..]);
        assert IdSet(ovs) - seen == IdSet(ovs[1..]) - seen;
      } else {
        var seen' := seen + {o.id};
        FreshIdsCount(seen', ovs[1..]);
        assert IdSet(ovs) - seen == {o.id} + (IdSet(ovs[1..]) - seen');
        assert o.id !in IdSet(ovs[1..]) - seen';
      }
    }
  }

  /** Length = base groups + distinct override ids not already in the base. */
  lemma MergedGroupsLength(gs: seq<Group>, ovs: seq<Group>)
    ensures |MergedGroups(gs, ovs)| == |gs| + |IdSet(ovs) - IdSet(gs)|
  {
    MergedGroupsIds(gs, ovs);
    FreshIdsFacts(IdSet(gs), ovs);
    assert |Ids(MergedGroups(gs, ovs))| == |Ids(gs)| + |FreshIds(IdSet(gs), ovs)|;
  }

  /** Distinct ids stay distinct, whatever ids the overrides repeat. */
  lemma MergedGroupsDistinct(gs: seq<Group>, ovs: seq<Group>)
    requires Distinct(Ids(gs))
    ensures Distinct(Ids(MergedGroups(gs, ovs)))
  {
    MergedGroupsIds(gs, ovs);
    FreshIdsFacts(IdSet(gs), ovs);
    var a, b := Ids(gs), FreshIds(IdSet(gs), ovs);
    forall i, j | 0 <= i < j < |a + b| ensures (a + b)[i] != (a + b)[j] {
      if j >= |a| && i < |a| {
        assert a[i] in IdSet(gs);
        assert b[j - |a|] in b;
      }
    }
  }

  /** A base group whose id no override mentions keeps its value and its place. */
  lemma {:induction false} MergedGroupsKeepsUnmentioned(gs: seq<Group>, ovs: seq<Group>, i: nat)
    requires i < |gs| && gs[i].id !in IdSet(ovs)
    ensures i < |MergedGroups(gs, ovs)| && MergedGroups(gs, ovs)[i] == gs[i]
    decreases |ovs|
  {
    if ovs != [] {
      var up := Upsert(gs, ovs[0]);
      assert Ids(ovs) == [ovs[0].id] + Ids(ovs[1..]);
      assert |Ids(up)| >= |Ids(gs)|;
      MergedGroupsKeepsUnmentioned(up, ovs[1..], i);
    }
  }

  /** The last override group's properties are all in the merged group with its id. */
  lemma OverrideWins(gs: seq<Group>, ovs: seq<Group>, o: Group)
    ensures var r := MergedGroups(gs, ovs + [o]);
            FindIndex(r, o.id) >= 0 && Overlay(r[FindIndex(r, o.id)], o) == r[FindIndex(r, o.id)]
  {
    MergedGroupsSnoc(gs, ovs, o);
    var prev := MergedGroups(gs, ovs);
    var k := FindIndex(Upsert(prev, o), o.id);
    if k < |prev| {
      OverlayLaws(prev[k], o, o);
    }
  }

  /** With all ids distinct, the first override's id is not among the base ids. */
  lemma FirstOverrideFresh(gs: seq<Group>, ovs: seq<Group>)
    requires Distinct(Ids(gs + ovs)) && ovs != []
    ensures ovs[0].id !in IdSet(gs)
  {
    var all := gs + ovs;
    var ids := Ids(all);
    assert all[|gs|] == ovs[0];
    forall j | 0 <= j < |gs|
      ensures Ids(gs)[j] != ovs[0].id
    {
      assert all[j] == gs[j];
      assert ids[j] != ids[|gs|];
    }
  }

  /** A first override with a new id is appended, and the rest of the overrides apply to the longer list. */
  lemma FreshStep(gs: seq<Group>, ovs: seq<Group>)
    requires ovs != [] && ovs[0].id !in IdSet(gs)
    ensures MergedGroups(gs, ovs) == MergedGroups(gs + [ovs[0]], ovs[1..])
    ensures gs + [ovs[0]] + ovs[1..] == gs + ovs
  {
    var o := ovs[0];
    assert FindIndex(gs, o.id) == -1;
    assert Upsert(gs, o) == gs + [o];
    assert ovs == [o] + ovs[1..];
    AppendAssoc(gs, [o], ovs[1..]);
  }

  /** Overrides with ids new to the base and to each other are appended as they are. */
  lemma {:induction false} MergedGroupsOfFresh(gs: seq<Group>, ovs: seq<Group>)
    requires Distinct(Ids(gs + ovs))
    ensures MergedGroups(gs, ovs) == gs + ovs
    decreases |ovs|
  {
    if ovs != [] {
      FirstOverrideFresh(gs, ovs);
      FreshStep(gs, ovs);
      MergedGroupsOfFresh(gs + [ovs[0]], ovs[1..]);
    }
  }

  // ---------------------------------------------------------------------------
  // Merging two configurations

  /**
   * The merged configuration: port, console and excludes from the override
   * when it has them; `$schema` and `runtimeExecutable` always from the base;
   * groups merged by id whenever the override has a groups array (even an
   * empty one, which JavaScript treats as true).
   */
  function Merge(base: LaunchConfig, override: LaunchConfig): LaunchConfig
  {
    LaunchConfig(
      base.schema,
      override.port.Or(base.port),
      override.console.Or(base.console),
      base.runtimeExecutable,
      override.excludes.Or(base.excludes),
      if override.groups.Some? then Some(MergedGroups(base.groups.GetOr([]), override.groups.value))
      else base.groups)
  }

  /** `mergeConfigs`: copy the base, take the override's scalars, then upsert each override group. */
  method MergeConfigs(base: LaunchConfig, override: LaunchConfig) returns (merged: LaunchConfig)
    ensures merged == Merge(base, override)
  {
    merged := base;
    if override.port.Some? { merged := merged.(port := override.port); }
    if override.console.Some? { merged := merged.(console := override.console); }
    if override.excludes.Some? { merged := merged.(excludes := override.excludes); }
    if override.groups.Some? {
      var baseGroups := base.groups.GetOr([]);
      var ovs := override.groups.value;
      var mergedGroups := baseGroups;
      var k := 0;
      while k < |ovs|
        invariant 0 <= k <= |ovs|
        invariant MergedGroups(mergedGroups, ovs[k..]) == MergedGroups(baseGroups, ovs)
      {
        var o := ovs[k];
        assert ovs[k..][1..] == ovs[k + 1..];
        var existingIndex := FindIndex(mergedGroups, o.id);
        if existingIndex >= 0 {
          mergedGroups := mergedGroups[existingIndex := Overlay(mergedGroups[existingIndex], o)];
        } else {
          mergedGroups := mergedGroups + [o];
        }
        k := k + 1;
      }
      merged := merged.(groups := Some(mergedGroups));
    }
  }

  /** The scalar rules of the merge, and the groups when the override has none. */
  lemma MergeFields(base: LaunchConfig, override: LaunchConfig)
    ensures Merge(base, override).port == (if override.port.Some? then override.port else base.port)
    ensures Merge(base, override).console == (if override.console.Some? then override.console else base.console)
    ensures Merge(base, override).excludes == (if override.excludes.Some? then override.excludes else base.excludes)
    ensures Merge(base, override).schema == base.schema
    ensures Merge(base, override).runtimeExecutable == base.runtimeExecutable
    ensures override.groups.None? ==> Merge(base, override).groups == base.groups
  {
  }

  // ---------------------------------------------------------------------------
  // The generated configuration

  const TestGroup := Group("test", Some("Tests"), Some(["**/*.test.ts"]), None, None, None,
                           Some(DefaultTestArgs), None, None, None, Some(DefaultConsole))
  const RunGroup := Group("run", Some("Runnable"), Some(["**/*.run.ts"]), None, None, None,
                          Some(DefaultRuntimeArgs), None, None, None, Some(DefaultConsole))

  function DropTsSuffix(s: string): string { if EndsWith(s, ".ts") then s[..|s| - 3] else s }

  /** The group name of an export: its key, except for '.', where it is the path without './' and '.ts'. */
  function ExportName(key: string, path: string): string
  {
    if key == "." then DropTsSuffix(DropDotSlash(path)) else key
  }

  lemma ExportNameCases(key: string, stem: string)
    ensures key != "." ==> ExportName(key, stem) == key
    ensures ExportName(".", "./" + stem + ".ts") == stem
    ensures !StartsWith(stem, "./") && !EndsWith(stem, ".ts") ==> ExportName(".", stem) == stem
  {
    var p := "./" + stem + ".ts";
    assert StartsWith(p, "./") && p[2..] == stem + ".ts";
    assert EndsWith(stem + ".ts", ".ts");
    assert (stem + ".ts")[..|stem|] == stem;
  }

  function ExportGroup(key: string, path: string): Group
  {
    Group(key, Some(ExportName(key, path)), None, None, Some(path), None,
          Some(DefaultRuntimeArgs), None, Some([Words("")]), None, Some(DefaultConsole))
  }

  /** One group per export whose path does not end in 'mod.ts', in export order. */
  function ExportGroups(exports: seq<(string, string)>): seq<Group>
  {
    if exports == [] then []
    else (if EndsWith(exports[0].1, "mod.ts") then [] else [ExportGroup(exports[0].0, exports[0].1)])
         + ExportGroups(exports[1..])
  }

  lemma {:induction false} ExportGroupsAppend(a: seq<(string, string)>, b: seq<(string, string)>)
    ensures ExportGroups(a + b) == ExportGroups(a) + ExportGroups(b)
  {
    if a != [] {
      assert (a + b)[1..] == a[1..] + b;
      ExportGroupsAppend(a[1..], b);
    } else {
      assert a + b == b;
    }
  }

  /** A group is generated for an export exactly when its path does not end in 'mod.ts'. */
  lemma {:induction false} ExportGroupsMembers(exports: seq<(string, string)>, g: Group)
    ensures g in ExportGroups(exports) <==>
            exists e :: e in exports && !EndsWith(e.1, "mod.ts") && g == ExportGroup(e.0, e.1)
  {
    if exports != [] {
      ExportGroupsMembers(exports[1..], g);
      assert forall e :: e in exports <==> e == exports[0] || e in exports[1..];
    }
  }

  function GeneratedGroups(deno: Option<DenoJson>): seq<Group>
  {
    [TestGroup, RunGroup] + (if deno.Some? && deno.value.exports.Some? then ExportGroups(deno.value.exports.value) else [])
  }

  /** What `#autoGenerateConfig` writes as the `launch` of launch.config.json. */
  function GeneratedConfig(deno: Option<DenoJson>, home: string): LaunchConfig
  {
    LaunchConfig(None, Some(DefaultPort), Some(DefaultConsole), Some(RuntimeExecutable(home)),
                 Some(DefaultExcludes), Some(GeneratedGroups(deno)))
  }

  /**
   * The generated configuration: port 9229, the default console and excludes,
   * deno under the home directory, and the groups 'test' and 'run' ahead of
   * the export groups, which all run their program once with an empty script.
   */
  lemma GeneratedConfigShape(deno: Option<DenoJson>, home: string)
    ensures var c := GeneratedConfig(deno, home);
            && c.port == Some(9229) && c.console == Some("internalConsole")
            && c.excludes == Some(DefaultExcludes) && c.runtimeExecutable == Some(home + "/.deno/bin/deno")
            && c.groups.Some? && |c.groups.value| >= 2
            && c.groups.value[0].id == "test" && c.groups.value[0].includes == Some(["**/*.test.ts"])
            && c.groups.value[1].id == "run" && c.groups.value[1].includes == Some(["**/*.run.ts"])
            && (deno.None? || deno.value.exports.None? ==> |c.groups.value| == 2)
            && forall g :: g in c.groups.value[2..] ==> g.program.Some? && g.scripts == Some([Words("")])
  {
    var gs := GeneratedConfig(deno, home).groups.value;
    if deno.Some? && deno.value.exports.Some? {
      forall g | g in gs[2..]
        ensures g.program.Some? && g.scripts == Some([Words("")])
      {
        assert gs[2..] == ExportGroups(deno.value.exports.value);
        ExportGroupsMembers(deno.value.exports.value, g);
      }
    }
  }

  /** `#autoGenerateConfig`: the two fixed groups, then a loop over the exports pushing one group each. */
  method AutoGenerateConfig(deno: Option<DenoJson>, home: string) returns (generated: LaunchConfig)
    ensures generated == GeneratedConfig(deno, home)
  {
    var groups := [TestGroup, RunGroup];
    if deno.Some? && deno.value.exports.Some? {
      var exports := deno.value.exports.value;
      var k := 0;
      while k < |exports|
        invariant 0 <= k <= |exports|
        invariant groups == [TestGroup, RunGroup] + ExportGroups(exports[..k])
      {
        var (key, filePath) := exports[k];
        ExportGroupsAppend(exports[..k], [exports[k]]);
        assert ExportGroups([exports[k]]) ==
          (if EndsWith(filePath, "mod.ts") then [] else [ExportGroup(key, filePath)]) + ExportGroups([]);
        assert exports[..k + 1] == exports[..k] + [exports[k]];
        if !EndsWith(filePath, "mod.ts") {
          var name := if key == "." then DropTsSuffix(DropDotSlash(filePath)) else key;
          groups := groups + [Group(key, Some(name), None, None, Some(filePath), None,
                                    Some(DefaultRuntimeArgs), None, Some([Words("")]), None, Some(DefaultConsole))];
        }
        k := k + 1;
      }
      assert exports[..k] == exports;
    }
    assert groups == GeneratedGroups(deno);
    generated := LaunchConfig(None, Some(9229), Some(DefaultConsole), Some(RuntimeExecutable(home)),
                              Some(DefaultExcludes), Some(groups));
  }

  // ---------------------------------------------------------------------------
  // Loading

  /** The contents of launch.config.json: an object with an optional `launch` property. */
  datatype LaunchConfigFile = LaunchConfigFile(launch: Option<LaunchConfig>)

  predicate HasLaunch(deno: Option<DenoJson>) { deno.Some? && deno.value.launch.Some? }

  /** deno.json's `launch`, then launch.config.json's `launch` merged on top unless regeneration is forced. */
  function Layered(deno: Option<DenoJson>, file: Option<LaunchConfigFile>, forceRegenerate: bool): LaunchConfig
  {
    var fromDeno := if HasLaunch(deno) then deno.value.launch.value else EmptyConfig;
    if file.Some? && !forceRegenerate && file.value.launch.Some? then Merge(fromDeno, file.value.launch.value)
    else fromDeno
  }

  /** Regenerate only at the project root: when forced, or when nothing defines groups and deno.json has no `launch`. */
  predicate ShouldAutoGenerate(deno: Option<DenoJson>, layered: LaunchConfig, forceRegenerate: bool, isProjectRoot: bool)
  {
    isProjectRoot && (forceRegenerate || (layered.groups.None? && !HasLaunch(deno)))
  }

  /**
   * `loadAndMerge`. `deno` and `file` are the two files (None when missing),
   * `home` the user's home directory. `written` is the launch configuration
   * written to launch.config.json when it is regenerated; it is then read back
   * and merged on top.
   */
  method LoadAndMerge(deno: Option<DenoJson>, file: Option<LaunchConfigFile>, forceRegenerate: bool,
                      isProjectRoot: bool, home: string)
    returns (config: LaunchConfig, written: Option<LaunchConfig>)
    ensures written.Some? <==> ShouldAutoGenerate(deno, Layered(deno, file, forceRegenerate), forceRegenerate, isProjectRoot)
    ensures written.Some? ==> written.value == GeneratedConfig(deno, home)
                              && config == Merge(Layered(deno, file, forceRegenerate), written.value)
    ensures written.None? ==> config == Layered(deno, file, forceRegenerate)
  {
    config := EmptyConfig;
    if deno.Some? && deno.value.launch.Some? {
      config := deno.value.launch.value;
    }
    if file.Some? && !forceRegenerate && file.value.launch.Some? {
      config := MergeConfigs(config, file.value.launch.value);
    }
    var shouldAutoGenerate := isProjectRoot && (forceRegenerate || (config.groups.None? && !HasLaunch(deno)));
    written := None;
    if shouldAutoGenerate {
      var generated := AutoGenerateConfig(deno, home);
      written := Some(generated);
      config := MergeConfigs(config, generated);
    }
  }

  /** With regeneration forced, launch.config.json is not read. */
  lemma ForceIgnoresFile(deno: Option<DenoJson>, file: Option<LaunchConfigFile>)
    ensures Layered(deno, file, true) == Layered(deno, None, true)
  {
  }

  /**
   * A first run at a root without any launch configuration yields the
   * generated configuration, except its `runtimeExecutable`: the merge keeps
   * the base's, which is absent.
   */
  lemma FirstRunYieldsGenerated(deno: Option<DenoJson>, file: Option<LaunchConfigFile>, home: string)
    requires !HasLaunch(deno) && (file.None? || file.value.launch.None?)
    requires Distinct(Ids(GeneratedGroups(deno)))
    ensures ShouldAutoGenerate(deno, Layered(deno, file, false), false, true)
    ensures Merge(Layered(deno, file, false), GeneratedConfig(deno, home))
            == GeneratedConfig(deno, home).(runtimeExecutable := None)
  {
    assert [] + GeneratedGroups(deno) == GeneratedGroups(deno);
    MergedGroupsOfFresh([], GeneratedGroups(deno));
    assert [] + GeneratedGroups(deno) == GeneratedGroups(deno);
  }
}
