/**
 * The older bump command (`AppMain.run` of the first bump tool): one bump
 * kind chosen from the flags, one identifier check, one node-semver `inc`,
 * and the decision whether the manifest is written back. Reading and writing
 * deno.json are left to the caller: the manifest comes in as a value and the
 * outcome says what would be written.
 */
module BumpLegacy {

  import opened Wrappers
  import opened Strings
  import opened SemVer
  import BumpIncrement

  type PreId = BumpIncrement.PreId

  datatype Opts = Opts(major: bool, minor: bool, prerelease: bool, dryRun: bool, identifier: PreId)

  /** The manifest: its `version` field and everything else in it, which the command never looks at. */
  datatype Manifest<R> = Manifest(version: Option<string>, rest: R)

  datatype Outcome<R> =
    | MissingVersion
    | InvalidIdentifier
    | IncFailed
    | DryRun(newVersion: string)
    | Updated(newVersion: string, written: Manifest<R>)

  /** The bump kind: the first of major, minor, prerelease that is set, patch otherwise. */
  function BumpKind(opts: Opts): (r: ReleaseType)
    ensures r == Major <==> opts.major
    ensures r == Minor <==> !opts.major && opts.minor
    ensures r == Prerelease <==> !opts.major && !opts.minor && opts.prerelease
    ensures r == Patch <==> !opts.major && !opts.minor && !opts.prerelease
  {
    if opts.major then Major
    else if opts.minor then Minor
    else if opts.prerelease then Prerelease
    else Patch
  }

  /**
   * What `inc` receives as identifier: a string as it is. `true` lands in
   * node-semver's options position, where it only turns on loose parsing,
   * and so stands for no identifier.
   */
  function IncIdentifier(id: PreId): string
  {
    if id.Named? then id.name else ""
  }

  /** `semver.inc` on version text: None when the text is no version or `inc` refuses. */
  function IncText(version: string, kind: ReleaseType, identifier: string): (r: Option<string>)
    ensures r.Some? <==> ParseInput(version).Some? && Inc(ParseInput(version).value, kind, identifier).Some?
    ensures r.Some? ==> ParseInput(version).Some? && Parse(r.value) == Inc(ParseInput(version).value, kind, identifier)
    ensures r.Some? ==> Format(Parse(r.value).value) == r.value
  {
    match ParseInput(version)
    case None => None
    case Some(v) =>
      match Inc(v, kind, identifier)
      case None => None
      case Some(w) =>
        ParseFormat(w);
        Some(Format(w))
  }

  /** On the canonical text of a version node-semver reads, `inc` gives the text of Inc's version. */
  lemma IncTextOfFormat(v: Version, kind: ReleaseType, identifier: string)
    requires Valid(v) && InRange(v) && |Format(v)| <= MaxLength
    ensures Inc(v, kind, identifier).None? ==> IncText(Format(v), kind, identifier).None?
    ensures Inc(v, kind, identifier).Some? ==> IncText(Format(v), kind, identifier) == Some(Format(Inc(v, kind, identifier).value))
  {
    ParseInputFormat(v);
  }

  /** The identifier check, made only for prerelease bumps: a truthy identifier must be alpha, beta or rc. */
  predicate IdentifierRejected(opts: Opts)
  {
    && BumpKind(opts) == Prerelease
    && BumpIncrement.IdTruthy(opts.identifier)
    && !(opts.identifier.Named? && opts.identifier.name in BumpIncrement.IdentifierOrder)
  }

  /**
   * The command on a manifest. A missing (or empty) version stops it first;
   * then a rejected identifier; then a failed increment. Otherwise a dry run
   * only reports the new version, and a real run writes the manifest back
   * with `version` replaced and every other field as it was.
   */
  function Run<R>(manifest: Manifest<R>, opts: Opts): (r: Outcome<R>)
    ensures manifest.version.None? || manifest.version.value == "" <==> r.MissingVersion?
    ensures r.InvalidIdentifier? <==> !r.MissingVersion? && IdentifierRejected(opts)
    ensures r.IncFailed? <==>
      && !r.MissingVersion? && !IdentifierRejected(opts)
      && IncText(manifest.version.value, BumpKind(opts), IncIdentifier(opts.identifier)).None?
    ensures r.DryRun? || r.Updated? ==>
      Some(r.newVersion) == IncText(manifest.version.value, BumpKind(opts), IncIdentifier(opts.identifier))
    ensures r.DryRun? <==> opts.dryRun && (r.DryRun? || r.Updated?)
    ensures r.Updated? ==> r.written == Manifest(Some(r.newVersion), manifest.rest)
  {
    if manifest.version.None? || manifest.version.value == "" then MissingVersion
    else if IdentifierRejected(opts) then InvalidIdentifier
    else
      match IncText(manifest.version.value, BumpKind(opts), IncIdentifier(opts.identifier))
      case None => IncFailed
      case Some(newVersion) =>
        if opts.dryRun then DryRun(newVersion)
        else Updated(newVersion, manifest.(version := Some(newVersion)))
  }

  /**
   * Outside prerelease bumps the identifier is never checked, and node-semver
   * ignores it: the outcome is the same as with no identifier at all.
   */
  lemma IdentifierIgnoredOutsidePrerelease<R>(manifest: Manifest<R>, opts: Opts)
    requires BumpKind(opts) != Prerelease
    ensures Run(manifest, opts) == Run(manifest, opts.(identifier := BumpIncrement.NoIdentifier))
  {
    if manifest.version.Some? && manifest.version.value != "" {
      IncTextIgnoresIdentifier(manifest.version.value, BumpKind(opts), IncIdentifier(opts.identifier));
    }
  }

  /** node-semver's `major`, `minor` and `patch` do not look at the identifier. */
  lemma IncTextIgnoresIdentifier(version: string, kind: ReleaseType, identifier: string)
    requires !IsPre(kind)
    ensures IncText(version, kind, identifier) == IncText(version, kind, "")
  {
    match ParseInput(version)
    case None =>
    case Some(v) =>
      assert Inc(v, kind, identifier) == Inc(v, kind, "");
  }

  /**
   * A valid version that node-semver reads (its text within MaxLength and its
   * numbers within MaxSafeInteger) with a tag from the order takes a
   * prerelease bump with that tag.
   */
  lemma PrereleaseWithOrderTag<R>(manifest: Manifest<R>, opts: Opts, v: Version, id: string)
    requires BumpKind(opts) == Prerelease && !opts.dryRun
    requires opts.identifier == BumpIncrement.Named(id) && id in BumpIncrement.IdentifierOrder
    requires manifest.version == Some(Format(v)) && Valid(v) && InRange(v) && |Format(v)| <= MaxLength
    ensures Inc(v, Prerelease, id).Some?
    ensures Run(manifest, opts) == Updated(Format(Inc(v, Prerelease, id).value), Manifest(Some(Format(Inc(v, Prerelease, id).value)), manifest.rest))
  {
    IncTextOfFormat(v, Prerelease, id);
    BumpIncrement.OrderAreTags();
    assert Format(v) != "" by { assert |NatToString(v.major)| > 0; }
  }

  /** `1.2.3 --prerelease -i beta` gives 1.2.4-beta.0; a second run gives 1.2.4-beta.1. */
  lemma PrereleaseExamples()
    ensures Inc(Version(1, 2, 3, None), Prerelease, "beta") == Some(Version(1, 2, 4, Some(Tagged("beta", 0))))
    ensures Inc(Version(1, 2, 4, Some(Tagged("beta", 0))), Prerelease, "beta") == Some(Version(1, 2, 4, Some(Tagged("beta", 1))))
    ensures Inc(Version(1, 2, 3, None), Prerelease, "") == Some(Version(1, 2, 4, Some(Numbered(0))))
  {
    assert IsTag("beta") by { assert !IsDigit("beta"[0]); }
  }

  lemma TextBeta()
    ensures Format(Version(1, 2, 4, Some(Tagged("beta", 0)))) == "1.2.4-beta.0"
  {
    var v := Version(1, 2, 4, Some(Tagged("beta", 0)));
    FormatTagged(v);
    var a, b, c, d := NatToString(1), NatToString(2), NatToString(4), NatToString(0);
    assert a == "1";
    assert b == "2";
    assert c == "4";
    assert d == "0";
    assert a + "." + b + "." + c + "-" + "beta" + "." + d == "1.2.4-beta.0";
  }

  /** The same on text: `inc('1.2.3', 'prerelease', 'beta')` is '1.2.4-beta.0', and `inc('1.2.3', 'patch')` is '1.2.4'. */
  lemma IncTextExamples()
    ensures IncText("1.2.3", Prerelease, "beta") == Some("1.2.4-beta.0")
    ensures IncText("1.2.3", Patch, "") == Some("1.2.4")
  {
    var v := Version(1, 2, 3, None);
    assert Format(v) == "1.2.3" by {
      assert NatToString(1) == "1" && NatToString(2) == "2" && NatToString(3) == "3";
    }
    assert Format(Version(1, 2, 4, None)) == "1.2.4" by {
      assert NatToString(1) == "1" && NatToString(2) == "2" && NatToString(4) == "4";
    }
    TextBeta();
    PrereleaseExamples();
    IncTextOfFormat(v, Prerelease, "beta");
    IncTextOfFormat(v, Patch, "");
  }
}
