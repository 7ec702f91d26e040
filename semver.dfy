/**
 * The part of Semantic Versioning 2.0.0 the bump tool works with, and a model
 * of the six node-semver `inc` operations it calls. A version is the normal
 * version X.Y.Z of section 2 with an optional pre-release (section 9) of one of
 * two shapes: `tag.N`, the shape the tool itself produces, or a single numeric
 * identifier `N`, which node-semver's `prerelease` increment gives a stable
 * version.
 */
module SemVer {

  import opened Wrappers
  import opened Strings

  datatype Prerelease = Tagged(tag: string, counter: nat) | Numbered(counter: nat)

  datatype Version = Version(major: nat, minor: nat, patch: nat, pre: Option<Prerelease>)

  predicate IsIdentChar(c: char) { IsDigit(c) || 'a' <= c <= 'z' || 'A' <= c <= 'Z' || c == '-' }

  /** One alphanumeric pre-release identifier: identifier characters only, at least one of them not a digit. */
  predicate IsTag(s: string)
  {
    && |s| > 0
    && (forall i :: 0 <= i < |s| ==> IsIdentChar(s[i]))
    && (exists i :: 0 <= i < |s| && !IsDigit(s[i]))
  }

  predicate Valid(v: Version) { v.pre.Some? && v.pre.value.Tagged? ==> IsTag(v.pre.value.tag) }

  // ---------------------------------------------------------------------------
  // Text form

  function FormatPre(p: Prerelease): string
  {
    match p
    case Tagged(t, n) => t + "." + NatToString(n)
    case Numbered(n) => NatToString(n)
  }

  /** The canonical text `X.Y.Z[-pre]`: decimal numbers without leading zeros. */
  function Format(v: Version): string
  {
    Join([NatToString(v.major), NatToString(v.minor), NatToString(v.patch)], '.')
    + (if v.pre.Some? then "-" + FormatPre(v.pre.value) else "")
  }

  function ParseNormal(s: string): Option<(nat, nat, nat)>
  {
    var parts := Split(s, '.');
    if |parts| == 3 && IsNumeral(parts[0]) && IsNumeral(parts[1]) && IsNumeral(parts[2])
    then Some((StringToNat(parts[0]), StringToNat(parts[1]), StringToNat(parts[2])))
    else None
  }

  function ParsePre(s: string): (r: Option<Prerelease>)
    ensures r.Some? && r.value.Tagged? ==> IsTag(r.value.tag)
  {
    var parts := Split(s, '.');
    if |parts| == 1 && IsNumeral(parts[0]) then Some(Numbered(StringToNat(parts[0])))
    else if |parts| == 2 && IsTag(parts[0]) && IsNumeral(parts[1]) then Some(Tagged(parts[0], StringToNat(parts[1])))
    else None
  }

  /**
   * The version a string denotes. The normal version ends at the first '-',
   * since it holds only digits and dots; the pre-release may contain '-'.
   */
  function Parse(s: string): (r: Option<Version>)
    ensures r.Some? ==> Valid(r.value)
  {
    var (normal, rest) := SplitOnce(s, '-');
    match ParseNormal(normal)
    case None => None
    case Some(n) =>
      if rest.None? then Some(Version(n.0, n.1, n.2, None))
      else
        match ParsePre(rest.value)
        case None => None
        case Some(p) => Some(Version(n.0, n.1, n.2, Some(p)))
  }

  lemma ParseNormalOfFormat(v: Version)
    ensures ParseNormal(Join([NatToString(v.major), NatToString(v.minor), NatToString(v.patch)], '.'))
            == Some((v.major, v.minor, v.patch))
  {
    var parts := [NatToString(v.major), NatToString(v.minor), NatToString(v.patch)];
    SplitJoin(parts, '.');
    StringToNatOfNatToString(v.major);
    StringToNatOfNatToString(v.minor);
    StringToNatOfNatToString(v.patch);
  }

  lemma ParsePreOfFormat(p: Prerelease)
    requires p.Tagged? ==> IsTag(p.tag)
    ensures ParsePre(FormatPre(p)) == Some(p)
  {
    match p
    case Tagged(t, n) =>
      assert forall i :: 0 <= i < |t| ==> IsIdentChar(t[i]);
      assert '.' !in t;
      assert '.' !in NatToString(n);
      assert FormatPre(p) == t + ['.'] + NatToString(n);
      SplitOfJoined(t, '.', NatToString(n));
      SplitOfFree(NatToString(n), '.');
      StringToNatOfNatToString(n);
    case Numbered(n) =>
      assert '.' !in NatToString(n);
      SplitOfFree(NatToString(n), '.');
      StringToNatOfNatToString(n);
  }

  /** Parsing the text of a version gives the version back. */
  lemma ParseFormat(v: Version)
    requires Valid(v)
    ensures Parse(Format(v)) == Some(v)
  {
    var parts := [NatToString(v.major), NatToString(v.minor), NatToString(v.patch)];
    var normal := Join(parts, '.');
    JoinFree(parts, '.', '-');
    ParseNormalOfFormat(v);
    if v.pre.Some? {
      assert Format(v) == normal + ['-'] + FormatPre(v.pre.value);
      SplitOnceOfJoined(normal, '-', FormatPre(v.pre.value));
      ParsePreOfFormat(v.pre.value);
    } else {
      assert Format(v) == normal;
      SplitOnceOfFree(normal, '-');
    }
  }

  lemma FormatOfParseNormal(normal: string)
    requires ParseNormal(normal).Some?
    ensures var n := ParseNormal(normal).value;
            Join([NatToString(n.0), NatToString(n.1), NatToString(n.2)], '.') == normal
  {
    var parts := Split(normal, '.');
    JoinSplit(normal, '.');
    NatToStringOfStringToNat(parts[0]);
    NatToStringOfStringToNat(parts[1]);
    NatToStringOfStringToNat(parts[2]);
    var n := ParseNormal(normal).value;
    assert [NatToString(n.0), NatToString(n.1), NatToString(n.2)] == parts;
  }

  lemma FormatOfParsePre(s: string)
    requires ParsePre(s).Some?
    ensures FormatPre(ParsePre(s).value) == s
  {
    var parts := Split(s, '.');
    JoinSplit(s, '.');
    if |parts| == 1 {
      NatToStringOfStringToNat(parts[0]);
    } else {
      NatToStringOfStringToNat(parts[1]);
      assert Join(parts, '.') == parts[0] + ['.'] + parts[1];
    }
  }

  /** Every string that parses is the canonical text of its version. */
  lemma FormatParse(s: string)
    requires Parse(s).Some?
    ensures Format(Parse(s).value) == s
  {
    var (normal, rest) := SplitOnce(s, '-');
    FormatOfParseNormal(normal);
    if rest.Some? {
      FormatOfParsePre(rest.value);
    }
  }

  // ---------------------------------------------------------------------------
  // node-semver's reading of its input

  /** node-semver's MAX_LENGTH, and JavaScript's Number.MAX_SAFE_INTEGER. */
  const MaxLength: nat := 256
  const MaxSafeInteger: nat := 9007199254740991

  /** The numbers of X.Y.Z that node-semver's constructor accepts. */
  predicate InRange(v: Version)
  {
    v.major <= MaxSafeInteger && v.minor <= MaxSafeInteger && v.patch <= MaxSafeInteger
  }

  /**
   * `semver.parse`, and the parse at the start of `semver.inc`: text longer
   * than MaxLength is refused before anything else, the rest is trimmed and
   * read, and a major, minor or patch number above MaxSafeInteger is refused.
   */
  function ParseInput(s: string): (r: Option<Version>)
    ensures r.Some? <==> |s| <= MaxLength && Parse(Trim(s)).Some? && InRange(Parse(Trim(s)).value)
    ensures r.Some? ==> r == Parse(Trim(s)) && Valid(r.value) && InRange(r.value)
  {
    if |s| > MaxLength then None
    else
      match Parse(Trim(s))
      case None => None
      case Some(v) => if InRange(v) then Some(v) else None
  }

  /** The canonical text begins and ends with a digit. */
  lemma FormatEnds(v: Version)
    ensures |Format(v)| > 0 && IsDigit(Format(v)[0]) && IsDigit(Format(v)[|Format(v)| - 1])
  {
    var parts := [NatToString(v.major), NatToString(v.minor), NatToString(v.patch)];
    var normal := Join(parts, '.');
    JoinEnds(parts, '.');
    assert IsDigit(normal[0]) && IsDigit(parts[2][|parts[2]| - 1]);
    if v.pre.Some? {
      var pre := FormatPre(v.pre.value);
      var n := NatToString(v.pre.value.counter);
      assert pre[|pre| - 1] == n[|n| - 1];
      assert Format(v) == normal + "-" + pre;
    } else {
      assert Format(v) == normal;
    }
  }

  /** `trim` leaves the canonical text alone. */
  lemma TrimFormat(v: Version)
    ensures Trim(Format(v)) == Format(v)
  {
    FormatEnds(v);
    TrimOfUnspaced(Format(v));
  }

  /** The canonical text of a stable version, piece by piece. */
  lemma FormatStable(v: Version)
    requires v.pre.None?
    ensures Format(v) == NatToString(v.major) + "." + NatToString(v.minor) + "." + NatToString(v.patch)
  {
    var parts := [NatToString(v.major), NatToString(v.minor), NatToString(v.patch)];
    assert parts[1..][1..] == [parts[2]];
    assert Join(parts[1..], '.') == parts[1] + "." + parts[2];
    assert Join(parts, '.') == parts[0] + "." + (parts[1] + "." + parts[2]);
  }

  /** The canonical text of a tagged pre-release, piece by piece. */
  lemma FormatTagged(v: Version)
    requires v.pre.Some? && v.pre.value.Tagged?
    ensures Format(v) == NatToString(v.major) + "." + NatToString(v.minor) + "." + NatToString(v.patch)
                         + "-" + v.pre.value.tag + "." + NatToString(v.pre.value.counter)
  {
    var parts := [NatToString(v.major), NatToString(v.minor), NatToString(v.patch)];
    assert parts[1..][1..] == [parts[2]];
    assert Join(parts[1..], '.') == parts[1] + "." + parts[2];
    assert Join(parts, '.') == parts[0] + "." + (parts[1] + "." + parts[2]);
  }

  /** node-semver reads back the canonical text of every version inside its bounds. */
  lemma ParseInputFormat(v: Version)
    requires Valid(v) && InRange(v) && |Format(v)| <= MaxLength
    ensures ParseInput(Format(v)) == Some(v)
  {
    TrimFormat(v);
    ParseFormat(v);
  }

  /** Text whose trimmed form is the canonical text of a version inside the bounds is read as that version. */
  lemma ParseInputOfTrimmed(s: string, v: Version)
    requires Valid(v) && InRange(v) && |s| <= MaxLength && Trim(s) == Format(v)
    ensures ParseInput(s) == Some(v)
  {
    ParseFormat(v);
  }

  /** White space around the canonical text is trimmed away. */
  lemma ParseInputPadded(g: string, v: Version, h: string)
    requires forall i :: 0 <= i < |g| ==> IsSpace(g[i])
    requires forall i :: 0 <= i < |h| ==> IsSpace(h[i])
    requires Valid(v) && InRange(v) && |g + Format(v) + h| <= MaxLength
    ensures ParseInput(g + Format(v) + h) == Some(v)
  {
    FormatEnds(v);
    TrimOfPadded(g, Format(v), h);
    ParseInputOfTrimmed(g + Format(v) + h, v);
  }

  /** `semver.parse(" 1.2.3")` is version 1.2.3. */
  lemma ParseInputTrims()
    ensures ParseInput(" 1.2.3") == Some(Version(1, 2, 3, None))
  {
    var v := Version(1, 2, 3, None);
    assert NatToString(1) == "1" && NatToString(2) == "2" && NatToString(3) == "3";
    assert Format(v) == "1.2.3" by {
      var parts := [NatToString(1), NatToString(2), NatToString(3)];
      assert parts[1..][1..] == [parts[2]];
    }
    assert " 1.2.3" == " " + Format(v) + "";
    ParseInputPadded(" ", v, "");
  }

  /** A major, minor or patch number above MaxSafeInteger is refused, although its text is well formed. */
  lemma ParseInputRefusesUnsafe(v: Version)
    requires Valid(v) && !InRange(v)
    ensures Parse(Format(v)) == Some(v)
    ensures ParseInput(Format(v)).None?
  {
    TrimFormat(v);
    ParseFormat(v);
  }

  // ---------------------------------------------------------------------------
  // Precedence (section 11)

  /** ASCII order of identifiers that are not numeric. */
  predicate StrLess(a: string, b: string)
  {
    if a == [] then b != []
    else if b == [] then false
    else if a[0] != b[0] then a[0] < b[0]
    else StrLess(a[1..], b[1..])
  }

  /** Precedence of pre-releases: numeric identifiers sort below alphanumeric ones, then field by field. */
  predicate PreLess(p: Prerelease, q: Prerelease)
  {
    match (p, q)
    case (Numbered(m), Numbered(n)) => m < n
    case (Numbered(_), Tagged(_, _)) => true
    case (Tagged(_, _), Numbered(_)) => false
    case (Tagged(s, m), Tagged(t, n)) => if s != t then StrLess(s, t) else m < n
  }

  /** `a` has lower precedence than `b`: compare X, Y and Z numerically; a pre-release sorts below its normal version. */
  predicate Less(a: Version, b: Version)
  {
    if a.major != b.major then a.major < b.major
    else if a.minor != b.minor then a.minor < b.minor
    else if a.patch != b.patch then a.patch < b.patch
    else
      match (a.pre, b.pre)
      case (None, _) => false
      case (Some(_), None) => true
      case (Some(p), Some(q)) => PreLess(p, q)
  }

  // ---------------------------------------------------------------------------
  // node-semver's `inc`

  datatype ReleaseType = Major | Minor | Patch | PreMajor | PreMinor | Prerelease

  predicate IsPre(release: ReleaseType) { release == PreMajor || release == PreMinor || release == Prerelease }

  /**
   * node-semver's `pre` step: bump the last numeric identifier (or start at 0),
   * then, given an identifier, move to `identifier.0` unless the first
   * identifier is already that one. The empty identifier is JavaScript-falsy
   * and counts as none.
   */
  function PreStep(v: Version, identifier: string): Version
  {
    var bumped := match v.pre
      case None => Numbered(0)
      case Some(Tagged(t, n)) => Tagged(t, n + 1)
      case Some(Numbered(n)) => Numbered(n + 1);
    if identifier == "" || (bumped.Tagged? && bumped.tag == identifier) then v.(pre := Some(bumped))
    else v.(pre := Some(Tagged(identifier, 0)))
  }

  /**
   * `semver.inc(version, release, identifier)`. `major`, `minor` and `patch`
   * always drop the pre-release; on a pre-release they bump their own number
   * only when some lower field is not zero (so X.Y.0-pre under `minor` gives
   * X.Y.0). The `pre` kinds need a well-formed identifier (None stands for
   * node-semver's `null`, and for identifiers whose result lies outside this
   * subset).
   */
  function Inc(v: Version, release: ReleaseType, identifier: string): (r: Option<Version>)
    ensures r.None? <==> IsPre(release) && identifier != "" && !IsTag(identifier)
    ensures r.Some? && Valid(v) ==> Valid(r.value)
  {
    if IsPre(release) && identifier != "" && !IsTag(identifier) then None
    else
      match release
      case Major =>
        Some(Version(if v.minor != 0 || v.patch != 0 || v.pre.None? then v.major + 1 else v.major, 0, 0, None))
      case Minor =>
        Some(Version(v.major, if v.patch != 0 || v.pre.None? then v.minor + 1 else v.minor, 0, None))
      case Patch =>
        Some(Version(v.major, v.minor, if v.pre.None? then v.patch + 1 else v.patch, None))
      case PreMajor => Some(PreStep(Version(v.major + 1, 0, 0, None), identifier))
      case PreMinor => Some(PreStep(Version(v.major, v.minor + 1, 0, None), identifier))
      case Prerelease => Some(PreStep(if v.pre.None? then v.(patch := v.patch + 1) else v, identifier))
  }

  /**
   * node-semver's rules on pre-releases whose lower fields are zero: `minor`
   * on X.Y.0-pre gives X.Y.0, `major` on X.0.0-pre gives X.0.0, `patch` on
   * X.Y.Z-pre gives X.Y.Z; a non-zero lower field still bumps.
   */
  lemma IncOnPrerelease()
    ensures Inc(Version(1, 2, 0, Some(Tagged("beta", 1))), Minor, "") == Some(Version(1, 2, 0, None))
    ensures Inc(Version(2, 0, 0, Some(Tagged("rc", 0))), Major, "") == Some(Version(2, 0, 0, None))
    ensures Inc(Version(1, 2, 3, Some(Tagged("rc", 0))), Patch, "") == Some(Version(1, 2, 3, None))
    ensures Inc(Version(2, 0, 1, Some(Tagged("rc", 0))), Major, "") == Some(Version(3, 0, 0, None))
  {
  }

  /**
   * Every increment raises precedence, except a `prerelease` increment whose
   * identifier sorts below the current tag: node-semver then moves to
   * `identifier.0` at the same X.Y.Z.
   */
  lemma IncRaisesPrecedence(v: Version, release: ReleaseType, identifier: string)
    requires Valid(v)
    requires release == Prerelease && identifier != "" && v.pre.Some? && v.pre.value.Tagged?
             ==> v.pre.value.tag == identifier || StrLess(v.pre.value.tag, identifier)
    requires Inc(v, release, identifier).Some?
    ensures Less(v, Inc(v, release, identifier).value)
  {
  }

  /** The exception: `1.0.0-beta.2` incremented as `prerelease` with identifier `alpha` gives the lower `1.0.0-alpha.0`. */
  lemma IncPrereleaseCanLower()
    ensures Inc(Version(1, 0, 0, Some(Tagged("beta", 2))), Prerelease, "alpha")
            == Some(Version(1, 0, 0, Some(Tagged("alpha", 0))))
    ensures Less(Version(1, 0, 0, Some(Tagged("alpha", 0))), Version(1, 0, 0, Some(Tagged("beta", 2))))
  {
    assert IsTag("alpha") by { assert !IsDigit("alpha"[0]); }
  }
}
