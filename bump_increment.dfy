/**
 * The version-bump decision of the bump tool (`AppMain.increment`): a version
 * and the command-line flags give the next version, or no version at all
 * (the source's `undefined`).
 */
module BumpIncrement {

  import opened Wrappers
  import opened Strings
  import opened SemVer

  /** The value of `prereleaseIdentifier`: absent (or `false`), `true`, or a string. */
  datatype PreId = NoIdentifier | Advance | Named(name: string)

  datatype Opts = Opts(release: bool, major: bool, minor: bool, patch: bool, identifier: PreId)

  /** The fixed order of pre-release tags. */
  const IdentifierOrder: seq<string> := ["alpha", "beta", "rc"]

  /** JavaScript's `Array.prototype.indexOf`: the first position of `x`, or -1. */
  function IndexOf(s: seq<string>, x: string): (i: int)
    ensures -1 <= i < |s|
    ensures i == -1 <==> x !in s
    ensures i >= 0 ==> s[i] == x && x !in s[..i]
  {
    if s == [] then -1
    else if s[0] == x then 0
    else
      var j := IndexOf(s[1..], x);
      assert j >= 0 ==> s[1..][..j] == s[1..j + 1] && s[..j + 1] == [s[0]] + s[1..j + 1];
      if j < 0 then -1 else j + 1
  }

  /** The identifier counts as given when it is `true` or a non-empty string (JavaScript truthiness). */
  predicate IdTruthy(id: PreId) { id == Advance || (id.Named? && id.name != "") }

  /**
   * `prerelease[0]` is truthy: a tag (never empty), or a numeric identifier
   * other than 0.
   */
  predicate HasCurrent(v: Version) { v.pre.Some? && v.pre.value != Numbered(0) }

  /** The current tag as a string; a numeric identifier never equals a string, so it maps to "". */
  function CurrentTag(v: Version): string
  {
    if v.pre.Some? && v.pre.value.Tagged? then v.pre.value.tag else ""
  }

  /** The identifier handed to `premajor`/`preminor`: the string itself, or 'alpha' for `true`. */
  function PassedIdentifier(id: PreId): string
  {
    match id
    case Named(s) => s
    case _ => IdentifierOrder[0]
  }

  function Core(v: Version): Version { Version(v.major, v.minor, v.patch, None) }

  function StartTag(v: Version, patchDelta: nat, id: string): Version
  {
    Version(v.major, v.minor, v.patch + patchDelta, Some(Tagged(id, 0)))
  }

  /** `-i <name>`: move to the named tag, relative to the current one. */
  function NamedStep(v: Version, id: string): Option<Version>
  {
    var current := CurrentTag(v);
    var currentIndex := if HasCurrent(v) then IndexOf(IdentifierOrder, current) else -1;
    var newIndex := IndexOf(IdentifierOrder, id);
    if newIndex < 0 then None
    else if id == current then Inc(v, Prerelease, "")
    else if newIndex < currentIndex then Some(StartTag(v, 1, id))
    else if HasCurrent(v) then Some(StartTag(v, 0, id))
    else Some(StartTag(v, 1, id))
  }

  /** `-i` alone: the next tag in the order, finalising after the last one. */
  function AdvanceStep(v: Version): Version
  {
    if HasCurrent(v) then
      var currentIndex := IndexOf(IdentifierOrder, CurrentTag(v));
      if currentIndex < |IdentifierOrder| - 1 then StartTag(v, 0, IdentifierOrder[currentIndex + 1])
      else Core(v)
    else StartTag(v, 1, IdentifierOrder[0])
  }

  lemma OrderAreTags()
    ensures forall i :: 0 <= i < |IdentifierOrder| ==> IsTag(IdentifierOrder[i])
  {
    assert !IsDigit(IdentifierOrder[0][0]);
    assert !IsDigit(IdentifierOrder[1][0]);
    assert !IsDigit(IdentifierOrder[2][0]);
  }

  /**
   * The decision on a parsed version. The flags are tried in the order
   * release, major, minor, patch, identifier; no flag at all bumps the
   * pre-release counter or the patch level. It fails exactly when an
   * identifier is rejected: a named identifier outside the tag order on the
   * identifier-only path, or one node-semver refuses under major or minor.
   */
  function IncrementVersion(v: Version, opts: Opts): (r: Option<Version>)
    ensures r.None? <==>
      && !opts.release
      && opts.identifier.Named? && opts.identifier.name != ""
      && (if opts.major || opts.minor then !IsTag(opts.identifier.name)
          else !opts.patch && opts.identifier.name !in IdentifierOrder)
    ensures Valid(v) && r.Some? ==> Valid(r.value)
  {
    OrderAreTags();
    if opts.release then
      if v.pre.Some? then Some(Core(v)) else Inc(v, Patch, "")
    else if opts.major then
      if IdTruthy(opts.identifier) then Inc(v, PreMajor, PassedIdentifier(opts.identifier))
      else Inc(v, Major, "")
    else if opts.minor then
      if IdTruthy(opts.identifier) then Inc(v, PreMinor, PassedIdentifier(opts.identifier))
      else Inc(v, Minor, "")
    else if opts.patch then Inc(v, Patch, "")
    else if IdTruthy(opts.identifier) && opts.identifier.Named? then NamedStep(v, opts.identifier.name)
    else if opts.identifier == Advance then Some(AdvanceStep(v))
    else if HasCurrent(v) then Inc(v, Prerelease, "")
    else Inc(v, Patch, "")
  }

  /**
   * `AppMain.increment` on the version text. An empty version violates the
   * source's assertion; text node-semver does not read as a version, and
   * every failed decision, give None. A result is the canonical text of the
   * decision's version.
   */
  function Increment(version: string, opts: Opts): (r: Option<string>)
    requires version != ""
    ensures ParseInput(version).None? ==> r.None?
    ensures ParseInput(version).Some? ==> (r.None? <==> IncrementVersion(ParseInput(version).value, opts).None?)
    ensures r.Some? ==> ParseInput(version).Some? && Parse(r.value) == IncrementVersion(ParseInput(version).value, opts)
    ensures r.Some? ==> Format(Parse(r.value).value) == r.value
  {
    match ParseInput(version)
    case None => None
    case Some(v) =>
      match IncrementVersion(v, opts)
      case None => None
      case Some(w) =>
        ParseFormat(w);
        Some(Format(w))
  }

  // ---------------------------------------------------------------------------
  // The cases, one lemma per branch of the decision

  /** Only the first flag present decides; the later ones are ignored. */
  lemma FirstFlagDecides(v: Version, opts: Opts)
    ensures opts.release ==>
      IncrementVersion(v, opts) == IncrementVersion(v, Opts(true, false, false, false, NoIdentifier))
    ensures !opts.release && opts.major ==>
      IncrementVersion(v, opts) == IncrementVersion(v, Opts(false, true, false, false, opts.identifier))
    ensures !opts.release && !opts.major && opts.minor ==>
      IncrementVersion(v, opts) == IncrementVersion(v, Opts(false, false, true, false, opts.identifier))
    ensures !opts.release && !opts.major && !opts.minor && opts.patch ==>
      IncrementVersion(v, opts) == IncrementVersion(v, Opts(false, false, false, true, NoIdentifier))
  {
  }

  /** `release` keeps X.Y.Z of a pre-release and bumps the patch level of a stable version. */
  lemma ReleaseCases(v: Version, opts: Opts)
    requires opts.release
    ensures v.pre.Some? ==> IncrementVersion(v, opts) == Some(Version(v.major, v.minor, v.patch, None))
    ensures v.pre.None? ==> IncrementVersion(v, opts) == Some(Version(v.major, v.minor, v.patch + 1, None))
  {
  }

  /**
   * `major` without an identifier gives (X+1).0.0 and drops the pre-release;
   * node-semver keeps X for X.0.0-pre. With an identifier it gives
   * (X+1).0.0-id.0, with 'alpha' for `true`.
   */
  lemma MajorCases(v: Version, opts: Opts)
    requires !opts.release && opts.major
    ensures !IdTruthy(opts.identifier) ==>
      IncrementVersion(v, opts) ==
        Some(Version(if v.pre.Some? && v.minor == 0 && v.patch == 0 then v.major else v.major + 1, 0, 0, None))
    ensures IdTruthy(opts.identifier) && IsTag(PassedIdentifier(opts.identifier)) ==>
      IncrementVersion(v, opts) == Some(Version(v.major + 1, 0, 0, Some(Tagged(PassedIdentifier(opts.identifier), 0))))
    ensures opts.identifier == Advance ==> PassedIdentifier(opts.identifier) == "alpha"
  {
  }

  /** `minor`: X.(Y+1).0 without an identifier (X.Y.0-pre keeps Y), X.(Y+1).0-id.0 with one. */
  lemma MinorCases(v: Version, opts: Opts)
    requires !opts.release && !opts.major && opts.minor
    ensures !IdTruthy(opts.identifier) ==>
      IncrementVersion(v, opts) ==
        Some(Version(v.major, if v.pre.Some? && v.patch == 0 then v.minor else v.minor + 1, 0, None))
    ensures IdTruthy(opts.identifier) && IsTag(PassedIdentifier(opts.identifier)) ==>
      IncrementVersion(v, opts) == Some(Version(v.major, v.minor + 1, 0, Some(Tagged(PassedIdentifier(opts.identifier), 0))))
  {
  }

  /** `patch` drops a pre-release and otherwise bumps Z. */
  lemma PatchCases(v: Version, opts: Opts)
    requires !opts.release && !opts.major && !opts.minor && opts.patch
    ensures IncrementVersion(v, opts) ==
      Some(Version(v.major, v.minor, if v.pre.Some? then v.patch else v.patch + 1, None))
  {
  }

  function OnlyIdentifier(id: PreId): Opts { Opts(false, false, false, false, id) }

  /** `-i <name>` with a name in the order, by the name's place relative to the current tag. */
  lemma NamedCases(v: Version, c: nat, current: nat, id: nat)
    requires current < |IdentifierOrder| && id < |IdentifierOrder|
    requires v.pre == Some(Tagged(IdentifierOrder[current], c))
    ensures id == current ==>
      IncrementVersion(v, OnlyIdentifier(Named(IdentifierOrder[id]))) == Some(v.(pre := Some(Tagged(IdentifierOrder[id], c + 1))))
    ensures id < current ==>
      IncrementVersion(v, OnlyIdentifier(Named(IdentifierOrder[id]))) == Some(StartTag(v, 1, IdentifierOrder[id]))
    ensures id > current ==>
      IncrementVersion(v, OnlyIdentifier(Named(IdentifierOrder[id]))) == Some(StartTag(v, 0, IdentifierOrder[id]))
  {
    OrderAreTags();
  }

  /** `-i <name>` on a stable version starts the named tag on the next patch level. */
  lemma NamedOnStable(v: Version, id: string)
    requires v.pre.None? && id in IdentifierOrder
    ensures IncrementVersion(v, OnlyIdentifier(Named(id))) == Some(StartTag(v, 1, id))
  {
  }

  /** `-i <name>` with a name outside the order gives no version. */
  lemma NamedOutsideOrder(v: Version, id: string)
    requires id != "" && id !in IdentifierOrder
    ensures IncrementVersion(v, OnlyIdentifier(Named(id))).None?
  {
  }

  /**
   * `-i` alone: the next tag at the same X.Y.Z, finalising after 'rc', and
   * 'alpha' on the next patch level from a stable version. A tag outside the
   * order has position -1 and so moves to 'alpha'.
   */
  lemma AdvanceCases(v: Version, c: nat)
    ensures v.pre == Some(Tagged("alpha", c)) ==>
      IncrementVersion(v, OnlyIdentifier(Advance)) == Some(StartTag(v, 0, "beta"))
    ensures v.pre == Some(Tagged("beta", c)) ==>
      IncrementVersion(v, OnlyIdentifier(Advance)) == Some(StartTag(v, 0, "rc"))
    ensures v.pre == Some(Tagged("rc", c)) ==>
      IncrementVersion(v, OnlyIdentifier(Advance)) == Some(Core(v))
    ensures v.pre.Some? && v.pre.value.Tagged? && v.pre.value.tag !in IdentifierOrder ==>
      IncrementVersion(v, OnlyIdentifier(Advance)) == Some(StartTag(v, 0, "alpha"))
    ensures v.pre.None? ==>
      IncrementVersion(v, OnlyIdentifier(Advance)) == Some(StartTag(v, 1, "alpha"))
  {
  }

  /** No flag: a pre-release bumps only its counter, a stable version its patch level. */
  lemma DefaultCases(v: Version, id: PreId)
    requires !IdTruthy(id)
    ensures v.pre.Some? && v.pre.value.Tagged? ==>
      IncrementVersion(v, OnlyIdentifier(id)) == Some(v.(pre := Some(Tagged(v.pre.value.tag, v.pre.value.counter + 1))))
    ensures v.pre.None? ==>
      IncrementVersion(v, OnlyIdentifier(id)) == Some(Version(v.major, v.minor, v.patch + 1, None))
  {
  }

  lemma OrderIsAscending()
    ensures forall i, j :: 0 <= i < j < |IdentifierOrder| ==> StrLess(IdentifierOrder[i], IdentifierOrder[j])
  {
    assert StrLess("alpha", "beta") && StrLess("alpha", "rc") && StrLess("beta", "rc");
  }

  lemma FlagsRaisePrecedence(v: Version, opts: Opts)
    requires Valid(v)
    requires opts.release || opts.major || opts.minor || opts.patch
    requires IncrementVersion(v, opts).Some?
    ensures Less(v, IncrementVersion(v, opts).value)
  {
    var given := IdTruthy(opts.identifier);
    var id := if given then PassedIdentifier(opts.identifier) else "";
    if opts.release && v.pre.Some? {
    } else if opts.release || (!opts.major && !opts.minor) {
      IncRaisesPrecedence(v, Patch, "");
    } else if opts.major {
      IncRaisesPrecedence(v, if given then PreMajor else Major, id);
    } else {
      IncRaisesPrecedence(v, if given then PreMinor else Minor, id);
    }
  }

  lemma NamedRaisesPrecedence(v: Version, id: string)
    requires Valid(v)
    requires v.pre.Some? && v.pre.value.Tagged? ==> v.pre.value.tag in IdentifierOrder
    requires NamedStep(v, id).Some?
    ensures Less(v, NamedStep(v, id).value)
  {
    if id == CurrentTag(v) {
      IncRaisesPrecedence(v, Prerelease, "");
    } else if HasCurrent(v) && v.pre.value.Tagged? {
      OrderIsAscending();
    }
  }

  lemma AdvanceRaisesPrecedence(v: Version)
    requires v.pre.Some? && v.pre.value.Tagged? ==> v.pre.value.tag in IdentifierOrder
    ensures Less(v, AdvanceStep(v))
  {
    if HasCurrent(v) && v.pre.value.Tagged? {
      OrderIsAscending();
    }
  }

  /**
   * Whenever the current tag is one of the order (or there is none), the new
   * version has higher precedence than the old.
   */
  lemma IncrementRaisesPrecedence(v: Version, opts: Opts)
    requires Valid(v)
    requires v.pre.Some? && v.pre.value.Tagged? ==> v.pre.value.tag in IdentifierOrder
    requires IncrementVersion(v, opts).Some?
    ensures Less(v, IncrementVersion(v, opts).value)
  {
    if opts.release || opts.major || opts.minor || opts.patch {
      FlagsRaisePrecedence(v, opts);
    } else if IdTruthy(opts.identifier) && opts.identifier.Named? {
      NamedRaisesPrecedence(v, opts.identifier.name);
    } else if opts.identifier == Advance {
      AdvanceRaisesPrecedence(v);
    } else if HasCurrent(v) {
      IncRaisesPrecedence(v, Prerelease, "");
    } else {
      IncRaisesPrecedence(v, Patch, "");
    }
  }

  /** With a current tag outside the order, a named tag is treated as higher even when it sorts lower. */
  lemma NamedAfterUnknownTagCanLower()
    ensures IncrementVersion(Version(1, 0, 0, Some(Tagged("dev", 3))), OnlyIdentifier(Named("alpha")))
            == Some(Version(1, 0, 0, Some(Tagged("alpha", 0))))
    ensures Less(Version(1, 0, 0, Some(Tagged("alpha", 0))), Version(1, 0, 0, Some(Tagged("dev", 3))))
  {
  }

  /** Cases the test suite pins down: No flag (packages/bump/test/app.test.ts:8-18). */
  lemma ExamplesDefault()
    ensures IncrementVersion(Version(0, 0, 1, None), OnlyIdentifier(NoIdentifier)) == Some(Version(0, 0, 2, None))
    ensures IncrementVersion(Version(0, 0, 1, Some(Tagged("alpha", 20))), OnlyIdentifier(NoIdentifier))
            == Some(Version(0, 0, 1, Some(Tagged("alpha", 21))))
  {
    OrderAreTags();
  }

  /** Cases the test suite pins down: `patch` and `release`. */
  lemma ExamplesReleasePatch()
    ensures IncrementVersion(Version(0, 0, 6, Some(Tagged("rc", 10))), Opts(false, false, false, true, NoIdentifier))
            == Some(Version(0, 0, 6, None))
    ensures IncrementVersion(Version(0, 2, 1, Some(Tagged("alpha", 3))), Opts(true, false, false, false, NoIdentifier))
            == Some(Version(0, 2, 1, None))
    ensures IncrementVersion(Version(0, 2, 1, None), Opts(true, false, false, false, NoIdentifier))
            == Some(Version(0, 2, 2, None))
  {
    OrderAreTags();
  }

  /** Cases the test suite pins down: `-i` alone. */
  lemma ExamplesAdvance()
    ensures IncrementVersion(Version(0, 0, 1, Some(Tagged("alpha", 5))), OnlyIdentifier(Advance))
            == Some(Version(0, 0, 1, Some(Tagged("beta", 0))))
    ensures IncrementVersion(Version(0, 2, 1, Some(Tagged("rc", 0))), OnlyIdentifier(Advance))
            == Some(Version(0, 2, 1, None))
    ensures IncrementVersion(Version(0, 2, 2, None), OnlyIdentifier(Advance))
            == Some(Version(0, 2, 3, Some(Tagged("alpha", 0))))
  {
    OrderAreTags();
  }

  /** A case the test suite pins down: `-i <name>` with a different name starts that prerelease on the next patch. */
  lemma ExampleNamedSwitch()
    ensures IncrementVersion(Version(0, 0, 1, Some(Tagged("beta", 2))), OnlyIdentifier(Named("alpha")))
            == Some(Version(0, 0, 2, Some(Tagged("alpha", 0))))
  {
    OrderAreTags();
  }

  /** A case the test suite pins down: `-i <name>` on a release starts that prerelease on the next patch. */
  lemma ExampleNamedFromRelease()
    ensures IncrementVersion(Version(0, 0, 7, None), OnlyIdentifier(Named("alpha")))
            == Some(Version(0, 0, 8, Some(Tagged("alpha", 0))))
  {
    OrderAreTags();
  }

  /** A case the test suite pins down: `-i <name>` with the same name bumps the prerelease number. */
  lemma ExampleNamedSame()
    ensures IncrementVersion(Version(0, 0, 4, Some(Tagged("rc", 0))), OnlyIdentifier(Named("rc")))
            == Some(Version(0, 0, 4, Some(Tagged("rc", 1))))
  {
    OrderAreTags();
  }

  /** Cases the test suite pins down: `major` and `minor` without an identifier. */
  lemma ExamplesMajorMinor()
    ensures IncrementVersion(Version(0, 1, 0, None), Opts(false, true, false, false, NoIdentifier))
            == Some(Version(1, 0, 0, None))
    ensures IncrementVersion(Version(0, 1, 3, None), Opts(false, false, true, false, NoIdentifier))
            == Some(Version(0, 2, 0, None))
    ensures IncrementVersion(Version(0, 2, 1, Some(Tagged("rc", 0))), Opts(false, false, true, false, NoIdentifier))
            == Some(Version(0, 3, 0, None))
    ensures IncrementVersion(Version(2, 0, 5, Some(Tagged("alpha", 2))), Opts(false, false, true, false, NoIdentifier))
            == Some(Version(2, 1, 0, None))
    ensures IncrementVersion(Version(2, 0, 5, Some(Tagged("alpha", 2))), Opts(false, true, false, false, NoIdentifier))
            == Some(Version(3, 0, 0, None))
  {
    OrderAreTags();
  }

  /** Cases the test suite pins down: `major` and `minor` with an identifier. */
  lemma ExamplesMajorMinorNamed()
    ensures IncrementVersion(Version(2, 0, 5, Some(Tagged("alpha", 2))), Opts(false, false, true, false, Named("alpha")))
            == Some(Version(2, 1, 0, Some(Tagged("alpha", 0))))
    ensures IncrementVersion(Version(2, 0, 5, Some(Tagged("alpha", 2))), Opts(false, true, false, false, Named("alpha")))
            == Some(Version(3, 0, 0, Some(Tagged("alpha", 0))))
    ensures IncrementVersion(Version(2, 0, 5, Some(Tagged("alpha", 2))), Opts(false, false, true, false, Named("beta")))
            == Some(Version(2, 1, 0, Some(Tagged("beta", 0))))
    ensures IncrementVersion(Version(2, 0, 5, Some(Tagged("alpha", 2))), Opts(false, true, false, false, Named("beta")))
            == Some(Version(3, 0, 0, Some(Tagged("beta", 0))))
  {
    assert IsTag("alpha") by { assert !IsDigit("alpha"[0]); }
    assert IsTag("beta") by { assert !IsDigit("beta"[0]); }
  }

  // ---------------------------------------------------------------------------
  // The same cases on version text, as the test suite passes them

  /** On the canonical text of a version node-semver reads, `increment` gives the text of the decision's version. */
  lemma IncrementOfFormat(v: Version, opts: Opts)
    requires Valid(v) && InRange(v) && |Format(v)| <= MaxLength
    ensures Format(v) != ""
    ensures IncrementVersion(v, opts).None? ==> Increment(Format(v), opts).None?
    ensures IncrementVersion(v, opts).Some? ==> Increment(Format(v), opts) == Some(Format(IncrementVersion(v, opts).value))
  {
    FormatEnds(v);
    ParseInputFormat(v);
  }

  /** packages/bump/test/app.test.ts:9-12 on text: '0.0.1' gives '0.0.2'. */
  lemma ExamplesDefaultText()
    ensures Increment("0.0.1", OnlyIdentifier(NoIdentifier)) == Some("0.0.2")
  {
    var v := Version(0, 0, 1, None);
    assert Format(v) == "0.0.1" by { assert NatToString(0) == "0" && NatToString(1) == "1"; }
    assert Format(Version(0, 0, 2, None)) == "0.0.2" by { assert NatToString(0) == "0" && NatToString(2) == "2"; }
    ExamplesDefault();
    IncrementOfFormat(v, OnlyIdentifier(NoIdentifier));
  }

  // The texts of the tagged versions the test suite uses, one lemma each.

  lemma TextAlpha20()
    ensures Format(Version(0, 0, 1, Some(Tagged("alpha", 20)))) == "0.0.1-alpha.20"
  {
    var v := Version(0, 0, 1, Some(Tagged("alpha", 20)));
    FormatTagged(v);
    var a, b, c, d := NatToString(0), NatToString(0), NatToString(1), NatToString(20);
    assert a == "0";
    assert b == "0";
    assert c == "1";
    assert d == "20";
    assert a + "." + b + "." + c + "-" + "alpha" + "." + d == "0.0.1-alpha.20";
  }

  lemma TextAlpha21()
    ensures Format(Version(0, 0, 1, Some(Tagged("alpha", 21)))) == "0.0.1-alpha.21"
  {
    var v := Version(0, 0, 1, Some(Tagged("alpha", 21)));
    FormatTagged(v);
    var a, b, c, d := NatToString(0), NatToString(0), NatToString(1), NatToString(21);
    assert a == "0";
    assert b == "0";
    assert c == "1";
    assert d == "21";
    assert a + "." + b + "." + c + "-" + "alpha" + "." + d == "0.0.1-alpha.21";
  }

  lemma TextAlpha3()
    ensures Format(Version(0, 2, 1, Some(Tagged("alpha", 3)))) == "0.2.1-alpha.3"
  {
    var v := Version(0, 2, 1, Some(Tagged("alpha", 3)));
    FormatTagged(v);
    var a, b, c, d := NatToString(0), NatToString(2), NatToString(1), NatToString(3);
    assert a == "0";
    assert b == "2";
    assert c == "1";
    assert d == "3";
    assert a + "." + b + "." + c + "-" + "alpha" + "." + d == "0.2.1-alpha.3";
  }

  lemma TextAlpha5()
    ensures Format(Version(0, 0, 1, Some(Tagged("alpha", 5)))) == "0.0.1-alpha.5"
  {
    var v := Version(0, 0, 1, Some(Tagged("alpha", 5)));
    FormatTagged(v);
    var a, b, c, d := NatToString(0), NatToString(0), NatToString(1), NatToString(5);
    assert a == "0";
    assert b == "0";
    assert c == "1";
    assert d == "5";
    assert a + "." + b + "." + c + "-" + "alpha" + "." + d == "0.0.1-alpha.5";
  }

  lemma TextBeta0()
    ensures Format(Version(0, 0, 1, Some(Tagged("beta", 0)))) == "0.0.1-beta.0"
  {
    var v := Version(0, 0, 1, Some(Tagged("beta", 0)));
    FormatTagged(v);
    var a, b, c, d := NatToString(0), NatToString(0), NatToString(1), NatToString(0);
    assert a == "0";
    assert b == "0";
    assert c == "1";
    assert d == "0";
    assert a + "." + b + "." + c + "-" + "beta" + "." + d == "0.0.1-beta.0";
  }

  lemma TextMajorBefore()
    ensures Format(Version(2, 0, 5, Some(Tagged("alpha", 2)))) == "2.0.5-alpha.2"
  {
    var v := Version(2, 0, 5, Some(Tagged("alpha", 2)));
    FormatTagged(v);
    var a, b, c, d := NatToString(2), NatToString(0), NatToString(5), NatToString(2);
    assert a == "2";
    assert b == "0";
    assert c == "5";
    assert d == "2";
    assert a + "." + b + "." + c + "-" + "alpha" + "." + d == "2.0.5-alpha.2";
  }

  lemma TextMajorAfter()
    ensures Format(Version(3, 0, 0, Some(Tagged("alpha", 0)))) == "3.0.0-alpha.0"
  {
    var v := Version(3, 0, 0, Some(Tagged("alpha", 0)));
    FormatTagged(v);
    var a, b, c, d := NatToString(3), NatToString(0), NatToString(0), NatToString(0);
    assert a == "3";
    assert b == "0";
    assert c == "0";
    assert d == "0";
    assert a + "." + b + "." + c + "-" + "alpha" + "." + d == "3.0.0-alpha.0";
  }

  /** packages/bump/test/app.test.ts:14-17 on text: '0.0.1-alpha.20' gives '0.0.1-alpha.21'. */
  lemma ExamplePrereleaseText()
    ensures Increment("0.0.1-alpha.20", OnlyIdentifier(NoIdentifier)) == Some("0.0.1-alpha.21")
  {
    var v := Version(0, 0, 1, Some(Tagged("alpha", 20)));
    TextAlpha20();
    TextAlpha21();
    assert IsTag("alpha") by { assert !IsDigit("alpha"[0]); }
    ExamplesDefault();
    IncrementOfFormat(v, OnlyIdentifier(NoIdentifier));
  }

  /** packages/bump/test/app.test.ts:28-31 on text: `release` turns '0.2.1-alpha.3' into '0.2.1'. */
  lemma ExampleReleaseText()
    ensures Increment("0.2.1-alpha.3", Opts(true, false, false, false, NoIdentifier)) == Some("0.2.1")
  {
    var v := Version(0, 2, 1, Some(Tagged("alpha", 3)));
    TextAlpha3();
    assert Format(Version(0, 2, 1, None)) == "0.2.1" by {
      assert NatToString(0) == "0" && NatToString(1) == "1" && NatToString(2) == "2";
    }
    assert IsTag("alpha") by { assert !IsDigit("alpha"[0]); }
    ExamplesReleasePatch();
    IncrementOfFormat(v, Opts(true, false, false, false, NoIdentifier));
  }

  /** packages/bump/test/app.test.ts:40-43 on text: `-i` alone turns '0.0.1-alpha.5' into '0.0.1-beta.0'. */
  lemma ExampleAdvanceText()
    ensures Increment("0.0.1-alpha.5", OnlyIdentifier(Advance)) == Some("0.0.1-beta.0")
  {
    var v := Version(0, 0, 1, Some(Tagged("alpha", 5)));
    TextAlpha5();
    TextBeta0();
    assert IsTag("alpha") by { assert !IsDigit("alpha"[0]); }
    ExamplesAdvance();
    IncrementOfFormat(v, OnlyIdentifier(Advance));
  }

  /** packages/bump/test/app.test.ts:95-98 on text: `major -i alpha` turns '2.0.5-alpha.2' into '3.0.0-alpha.0'. */
  lemma ExampleMajorNamedText()
    ensures Increment("2.0.5-alpha.2", Opts(false, true, false, false, Named("alpha"))) == Some("3.0.0-alpha.0")
  {
    var v := Version(2, 0, 5, Some(Tagged("alpha", 2)));
    TextMajorBefore();
    TextMajorAfter();
    assert IsTag("alpha") by { assert !IsDigit("alpha"[0]); }
    ExamplesMajorMinorNamed();
    IncrementOfFormat(v, Opts(false, true, false, false, Named("alpha")));
  }

  /** node-semver trims its input: ' 0.0.1' is bumped like '0.0.1'. */
  lemma ExamplePaddedText()
    ensures Increment(" 0.0.1", OnlyIdentifier(NoIdentifier)) == Some("0.0.2")
  {
    var v := Version(0, 0, 1, None);
    assert Format(v) == "0.0.1" by { assert NatToString(0) == "0" && NatToString(1) == "1"; }
    assert Format(Version(0, 0, 2, None)) == "0.0.2" by { assert NatToString(0) == "0" && NatToString(2) == "2"; }
    assert " 0.0.1" == " " + Format(v) + "";
    ParseInputPadded(" ", v, "");
    ExamplesDefault();
  }
}
