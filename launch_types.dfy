/**
 * The records launchgen reads and writes: the `launch` configuration (in
 * deno.json or launch.config.json), its groups, the VS Code launch.json file
 * and its entries, and the parts of deno.json it looks at. An optional
 * property of the JSON object is an `Option` field: `None` when the object
 * does not have it.
 */
module LaunchTypes {

  import opened Wrappers

  /** A value that is a string or an array of strings (`scriptArgs`, one entry of `scripts`). */
  datatype Script = Words(text: string) | Args(args: seq<string>)

  /** A group of related launch entries; `id` is the key groups are merged by. */
  datatype Group = Group(
    id: string,
    name: Option<string>,
    includes: Option<seq<string>>,
    excludes: Option<seq<string>>,
    program: Option<string>,
    runtimeExecutable: Option<string>,
    runtimeArgs: Option<seq<string>>,
    scriptArgs: Option<Script>,
    scripts: Option<seq<Script>>,
    port: Option<int>,
    console: Option<string>)

  /** A group with only its id. */
  function BareGroup(id: string): Group
  {
    Group(id, None, None, None, None, None, None, None, None, None, None)
  }

  /** The `launch` configuration. */
  datatype LaunchConfig = LaunchConfig(
    schema: Option<string>,
    port: Option<int>,
    console: Option<string>,
    runtimeExecutable: Option<string>,
    excludes: Option<seq<string>>,
    groups: Option<seq<Group>>)

  const EmptyConfig := LaunchConfig(None, None, None, None, None, None)

  datatype Presentation = Presentation(group: Option<string>)

  /** One entry of launch.json's `configurations`. */
  datatype LaunchConfiguration = LaunchConfiguration(
    debugType: string,
    request: string,
    name: string,
    program: Option<string>,
    cwd: Option<string>,
    runtimeExecutable: Option<string>,
    runtimeArgs: Option<seq<string>>,
    args: Option<seq<string>>,
    attachSimplePort: Option<int>,
    console: Option<string>,
    presentation: Option<Presentation>,
    env: Option<map<string, string>>)

  /** A JSON value launchgen carries through without looking inside (`compounds`). */
  type Json = string

  /** The launch.json file. */
  datatype LaunchJson = LaunchJson(
    version: string,
    configurations: seq<LaunchConfiguration>,
    compounds: Option<seq<Json>>,
    port: Option<int>,
    console: Option<string>)

  /** The parts of deno.json launchgen reads; `exports` in `Object.entries` order. */
  datatype DenoJson = DenoJson(
    workspaces: Option<seq<string>>,
    workspace: Option<seq<string>>,
    exports: Option<seq<(string, string)>>,
    launch: Option<LaunchConfig>)

  const DefaultPort: int := 9229
  const DefaultConsole: string := "internalConsole"
  const DefaultExcludes: seq<string> := ["node_modules/**", ".git/**", "**/.*", "**/.*/**"]
  const DefaultRuntimeArgs: seq<string> := ["run", "-A", "--inspect-brk"]
  const DefaultTestArgs: seq<string> := ["test", "-A", "--inspect-brk"]

  /** The marker every generated entry carries in its `env`. */
  const GeneratedMarker: map<string, string> := map["LAUNCHGEN" := "true"]

  /** The deno executable under the user's home directory. */
  function RuntimeExecutable(home: string): (r: string)
    ensures |r| == |home| + 15 && r[..|home|] == home
  {
    home + "/.deno/bin/deno"
  }

  /** An entry is generated when `env.LAUNCHGEN` is the string 'true'. */
  predicate IsGenerated(c: LaunchConfiguration)
  {
    c.env.Some? && "LAUNCHGEN" in c.env.value && c.env.value["LAUNCHGEN"] == "true"
  }
}
