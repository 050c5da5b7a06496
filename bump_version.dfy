/**
 * `bumpVersion` of scripts/bump-version.js: read `major.minor.patch`
 * and an optional `-prerelease` out of a version string, apply one bump
 * (`major`, `minor`, `patch` or `prerelease`) and write the version back.
 *
 * The version is split on every `.` before the `-` is looked for, so only
 * the text between the `-` and the next `.` is kept as the prerelease.
 * `ParseVersion` models that; `ParseVersionCorrected` takes everything
 * after the first `-`, as the dot-separated prerelease identifiers of
 * item 9 of Semantic Versioning 2.0.0 call for.
 */
module BumpVersion {
  import opened Wrappers
  import opened Text

  /** A JavaScript number as `parseInt` and `++` produce it: NaN or an integer. */
  datatype JsNumber = NaN | Int(i: int)

  /** The longest prefix of `s` made of digits. */
  function DigitPrefix(s: string): (r: string)
    ensures AllDigits(r) && |r| <= |s| && r == s[..|r|]
    ensures |r| < |s| ==> !IsDigit(s[|r|])
    decreases |s|
  {
    if s != [] && IsDigit(s[0]) then [s[0]] + DigitPrefix(s[1..]) else []
  }

  /** `parseInt(s)`: an optional sign, then the leading decimal digits; NaN without any. */
  function ParseInt(s: string): JsNumber
  {
    var start := if |s| > 0 && (s[0] == '-' || s[0] == '+') then 1 else 0;
    var digits := DigitPrefix(s[start..]);
    if digits == [] then NaN
    else
      var magnitude: int := DecimalValue(digits);
      Int(if start == 1 && s[0] == '-' then -magnitude else magnitude)
  }

  /** `x++`. */
  function Inc(x: JsNumber): JsNumber
  {
    match x
    case NaN => NaN
    case Int(i) => Int(i + 1)
  }

  /** The number in a template literal. */
  function NumberText(x: JsNumber): string
  {
    match x
    case NaN => "NaN"
    case Int(i) => IntToString(i)
  }

  /** The fields `bumpVersion` keeps in its locals. */
  datatype Version = Version(major: JsNumber, minor: JsNumber, patch: JsNumber, prerelease: Option<string>)

  /** What reading `parts[2]` of a version with fewer than three parts throws. */
  const MissingPatchMessage := "TypeError: Cannot read properties of undefined (reading 'split')"

  /** What an unknown bump type throws. */
  const UnsupportedTypeMessage := "不支持的版本类型: "

  /** The first lines of `bumpVersion`: `split('.')`, then `parseInt` of the parts. */
  function ParseVersion(version: string): Result<Version>
  {
    var parts := Split(version, '.');
    if |parts| < 3 then Err(MissingPatchMessage)
    else
      var dash := Split(parts[2], '-');
      var prerelease := if |dash| > 1 && dash[1] != "" then Some(dash[1]) else None;
      Ok(Version(ParseInt(parts[0]), ParseInt(parts[1]), ParseInt(dash[0]), prerelease))
  }

  /** The `prerelease` case: count up under the same identifier, else start at 0. */
  function NextPrerelease(prerelease: Option<string>, id: string): string
  {
    if prerelease.Some? then
      var pieces := Split(prerelease.value, '.');
      if pieces[0] == id then
        var counter := if |pieces| > 1 && pieces[1] != "" then pieces[1] else "0";
        id + "." + NumberText(Inc(ParseInt(counter)))
      else id + ".0"
    else id + ".0"
  }

  /** The `switch (type)`. */
  function Bump(v: Version, kind: string, id: string): Result<Version>
  {
    if kind == "major" then Ok(Version(Inc(v.major), Int(0), Int(0), None))
    else if kind == "minor" then Ok(Version(v.major, Inc(v.minor), Int(0), None))
    else if kind == "patch" then Ok(Version(v.major, v.minor, Inc(v.patch), None))
    else if kind == "prerelease" then Ok(v.(prerelease := Some(NextPrerelease(v.prerelease, id))))
    else Err(UnsupportedTypeMessage + kind)
  }

  /** `major.minor.patch`, then `-prerelease` when there is a non-empty one. */
  function FormatVersion(v: Version): (r: string)
    ensures v.prerelease.Some? && v.prerelease.value != "" ==>
              r == NumberText(v.major) + "." + NumberText(v.minor) + "." + NumberText(v.patch) + "-" + v.prerelease.value
    ensures !(v.prerelease.Some? && v.prerelease.value != "") ==>
              r == NumberText(v.major) + "." + NumberText(v.minor) + "." + NumberText(v.patch)
  {
    var core := NumberText(v.major) + "." + NumberText(v.minor) + "." + NumberText(v.patch);
    if v.prerelease.Some? && v.prerelease.value != "" then core + "-" + v.prerelease.value else core
  }

  /** `bumpVersion(version, type, prereleaseId)` with its parse. */
  function BumpWith(parsed: Result<Version>, kind: string, id: string): Result<string>
  {
    match parsed
    case Err(e) => Err(e)
    case Ok(v) =>
      match Bump(v, kind, id)
      case Err(e) => Err(e)
      case Ok(w) => Ok(FormatVersion(w))
  }

  /** `bumpVersion` as written. */
  function BumpResult(version: string, kind: string, id: string): Result<string>
  {
    BumpWith(ParseVersion(version), kind, id)
  }

  /** The body of `bumpVersion`, on its locals. */
  method BumpVersion(version: string, kind: string, prereleaseId: string) returns (r: Result<string>)
    ensures r == BumpResult(version, kind, prereleaseId)
  {
    var parts := Split(version, '.');
    if |parts| < 3 {
      return Err(MissingPatchMessage);
    }
    var major := ParseInt(parts[0]);
    var minor := ParseInt(parts[1]);
    var dash := Split(parts[2], '-');
    var patch := ParseInt(dash[0]);
    var prerelease: Option<string> := if |dash| > 1 && dash[1] != "" then Some(dash[1]) else None;
    ghost var parsed := Version(major, minor, patch, prerelease);
    if kind == "major" {
      major := Inc(major);
      minor := Int(0);
      patch := Int(0);
      prerelease := None;
    } else if kind == "minor" {
      minor := Inc(minor);
      patch := Int(0);
      prerelease := None;
    } else if kind == "patch" {
      patch := Inc(patch);
      prerelease := None;
    } else if kind == "prerelease" {
      if prerelease.Some? {
        var pieces := Split(prerelease.value, '.');
        if pieces[0] == prereleaseId {
          var counter := if |pieces| > 1 && pieces[1] != "" then pieces[1] else "0";
          prerelease := Some(prereleaseId + "." + NumberText(Inc(ParseInt(counter))));
        } else {
          prerelease := Some(prereleaseId + ".0");
        }
      } else {
        prerelease := Some(prereleaseId + ".0");
      }
    } else {
      return Err(UnsupportedTypeMessage + kind);
    }
    assert Bump(parsed, kind, prereleaseId) == Ok(Version(major, minor, patch, prerelease));
    var newVersion := NumberText(major) + "." + NumberText(minor) + "." + NumberText(patch);
    if prerelease.Some? && prerelease.value != "" {
      newVersion := newVersion + "-" + prerelease.value;
    }
    r := Ok(newVersion);
  }

  // ---------------------------------------------------------------------
  // Reading a version back
  // ---------------------------------------------------------------------

  /** `parseInt` reads back what `toString` wrote. */
  lemma ParseIntRoundTrip(n: nat)
    ensures ParseInt(NatToString(n)) == Int(n)
  {
    var s := NatToString(n);
    assert s[0..] == s;
    AllDigitsPrefix(s);
    DecimalRoundTrip(n);
  }

  lemma {:induction false} AllDigitsPrefix(s: string)
    requires AllDigits(s)
    ensures DigitPrefix(s) == s
    decreases |s|
  {
    if s != [] {
      AllDigitsPrefix(s[1..]);
    }
  }

  /** Digits hold neither a `.` nor a `-`. */
  lemma DigitsHaveNoSeparators(s: string)
    requires AllDigits(s)
    ensures '.' !in s && '-' !in s
  {
  }

  /** `major.minor.patch` for three naturals. */
  function VersionText(major: nat, minor: nat, patch: nat): string
  {
    NatToString(major) + "." + NatToString(minor) + "." + NatToString(patch)
  }

  /** `M.m.p`, followed by `-pre` when there is a prerelease. */
  function VersionString(major: nat, minor: nat, patch: nat, pre: Option<string>): string
  {
    if pre.Some? then VersionText(major, minor, patch) + "-" + pre.value else VersionText(major, minor, patch)
  }

  /** Text free of `.` and `-`, as a prerelease identifier of one piece. */
  predicate Identifier(id: string)
  {
    id != "" && '.' !in id && '-' !in id
  }

  /** Splitting `a<c>rest` where `a` holds no `c`. */
  lemma SplitCons(a: string, c: char, rest: string)
    requires c !in a
    ensures Split(a + [c] + rest, c) == [a] + Split(rest, c)
  {
    var s := a + [c] + rest;
    assert s == a + ([c] + rest);
    BeforeCharPrefix(a, c, [c] + rest);
    assert s[|a| + 1..] == rest;
  }

  /** Text without `c` splits into itself. */
  lemma SplitOne(a: string, c: char)
    requires c !in a
    ensures Split(a, c) == [a]
  {
    assert a == a + [];
    BeforeCharPrefix(a, c, []);
  }

  /** Splitting `a<c>b` on `c` where neither part holds `c`. */
  lemma SplitTwo(a: string, c: char, b: string)
    requires c !in a && c !in b
    ensures Split(a + [c] + b, c) == [a, b]
  {
    SplitCons(a, c, b);
    SplitOne(b, c);
  }

  /** Splitting `a.b.c` where no part holds a `.`. */
  lemma SplitThree(a: string, b: string, c: string)
    requires '.' !in a && '.' !in b && '.' !in c
    ensures Split(a + "." + b + "." + c, '.') == [a, b, c]
  {
    assert a + "." + b + "." + c == a + ['.'] + (b + ['.'] + c);
    SplitCons(a, '.', b + ['.'] + c);
    SplitTwo(b, '.', c);
  }

  /** `a.b.c` reads as its three fields with no prerelease. */
  lemma ParseShapePlain(a: string, b: string, c: string)
    requires '.' !in a && '.' !in b && '.' !in c && '-' !in c
    ensures ParseVersion(a + "." + b + "." + c) == Ok(Version(ParseInt(a), ParseInt(b), ParseInt(c), None))
  {
    SplitThree(a, b, c);
    SplitOne(c, '-');
  }

  /** A version whose first three dot-separated parts are `a`, `b` and `c-pre` reads as those fields. */
  lemma ParseFromParts(version: string, a: string, b: string, c: string, pre: string)
    requires var parts := Split(version, '.');
             |parts| >= 3 && parts[0] == a && parts[1] == b && Split(parts[2], '-') == [c, pre]
    ensures ParseVersion(version) == Ok(Version(ParseInt(a), ParseInt(b), ParseInt(c), if pre != "" then Some(pre) else None))
  {
  }

  /**
   * `a.b.c-pre` followed by nothing or by more dot-separated text: the
   * fields are the first three parts and the prerelease is only `pre`.
   */
  lemma ParseShape(version: string, a: string, b: string, c: string, pre: string, rest: string)
    requires '.' !in a && '.' !in b && '.' !in c && '-' !in c && '.' !in pre && '-' !in pre
    requires rest == [] || rest[0] == '.'
    requires version == a + "." + b + "." + c + "-" + pre + rest
    ensures ParseVersion(version) ==
            Ok(Version(ParseInt(a), ParseInt(b), ParseInt(c), if pre != "" then Some(pre) else None))
  {
    var e := c + "-" + pre;
    assert '.' !in e;
    var tail := e + rest;
    assert version == a + ['.'] + (b + ['.'] + tail);
    SplitCons(a, '.', b + ['.'] + tail);
    SplitCons(b, '.', tail);
    BeforeCharPrefix(e, '.', rest);
    SplitTwo(c, '-', pre);
    ParseFromParts(version, a, b, c, pre);
  }

  /** The parts of `M.m.p` hold no `.` and no `-`, and read back as the numbers. */
  lemma VersionTextParts(major: nat, minor: nat, patch: nat)
    ensures var a, b, c := NatToString(major), NatToString(minor), NatToString(patch);
            VersionText(major, minor, patch) == a + "." + b + "." + c &&
            '.' !in a && '.' !in b && '.' !in c && '-' !in a && '-' !in b && '-' !in c &&
            ParseInt(a) == Int(major) && ParseInt(b) == Int(minor) && ParseInt(c) == Int(patch)
  {
    DigitsHaveNoSeparators(NatToString(major));
    DigitsHaveNoSeparators(NatToString(minor));
    DigitsHaveNoSeparators(NatToString(patch));
    ParseIntRoundTrip(major);
    ParseIntRoundTrip(minor);
    ParseIntRoundTrip(patch);
  }

  /** `M.m.p` reads as itself with no prerelease. */
  lemma ParsePlain(major: nat, minor: nat, patch: nat)
    ensures ParseVersion(VersionText(major, minor, patch)) == Ok(Version(Int(major), Int(minor), Int(patch), None))
  {
    VersionTextParts(major, minor, patch);
    ParseShapePlain(NatToString(major), NatToString(minor), NatToString(patch));
  }

  /** `M.m.p-id` reads as itself. */
  lemma ParseWithIdentifier(major: nat, minor: nat, patch: nat, id: string)
    requires Identifier(id)
    ensures ParseVersion(VersionText(major, minor, patch) + "-" + id) ==
            Ok(Version(Int(major), Int(minor), Int(patch), Some(id)))
  {
    VersionTextParts(major, minor, patch);
    var a, b, c := NatToString(major), NatToString(minor), NatToString(patch);
    ParseShape(VersionText(major, minor, patch) + "-" + id, a, b, c, id, []);
  }

  /** Regrouping `M.m.p` followed by `-id.N`. */
  lemma CounterText(core: string, a: string, b: string, c: string, id: string, d: string)
    requires core == a + "." + b + "." + c
    ensures core + "-" + (id + "." + d) == a + "." + b + "." + c + "-" + id + ("." + d)
  {
  }

  /** `M.m.p-id.N` loses `.N`: the split on `.` cuts the prerelease at its first dot. */
  lemma ParseDropsCounter(major: nat, minor: nat, patch: nat, id: string, counter: nat)
    requires Identifier(id)
    ensures ParseVersion(VersionString(major, minor, patch, Some(id + "." + NatToString(counter)))) ==
            Ok(Version(Int(major), Int(minor), Int(patch), Some(id)))
  {
    VersionTextParts(major, minor, patch);
    var a, b, c, d := NatToString(major), NatToString(minor), NatToString(patch), NatToString(counter);
    var version := VersionString(major, minor, patch, Some(id + "." + d));
    CounterText(VersionText(major, minor, patch), a, b, c, id, d);
    ParseShape(version, a, b, c, id, "." + d);
  }

  // ---------------------------------------------------------------------
  // The bump rules
  // ---------------------------------------------------------------------

  /** A version string reads back as its fields. */
  lemma ParseVersionString(major: nat, minor: nat, patch: nat, pre: Option<string>)
    requires pre.Some? ==> Identifier(pre.value)
    ensures ParseVersion(VersionString(major, minor, patch, pre)) == Ok(Version(Int(major), Int(minor), Int(patch), pre))
  {
    if pre.Some? {
      ParseWithIdentifier(major, minor, patch, pre.value);
    } else {
      ParsePlain(major, minor, patch);
    }
  }

  /** Fields that are naturals are written as a version string. */
  lemma FormatNaturals(major: nat, minor: nat, patch: nat, pre: Option<string>)
    requires pre.Some? ==> pre.value != ""
    ensures FormatVersion(Version(Int(major), Int(minor), Int(patch), pre)) == VersionString(major, minor, patch, pre)
  {
  }

  /** What `bumpVersion` writes for natural fields and a one-piece prerelease parses back to those fields. */
  lemma FormatVersionReadsBack(major: nat, minor: nat, patch: nat, pre: Option<string>)
    requires pre.Some? ==> Identifier(pre.value)
    ensures ParseVersion(FormatVersion(Version(Int(major), Int(minor), Int(patch), pre))) ==
            Ok(Version(Int(major), Int(minor), Int(patch), pre))
  {
    FormatNaturals(major, minor, patch, pre);
    ParseVersionString(major, minor, patch, pre);
  }

  /** `major` increments major, resets minor and patch, and drops the prerelease, whatever else was read. */
  lemma MajorBump(version: string, major: nat, minor: JsNumber, patch: JsNumber, pre: Option<string>, id: string)
    requires ParseVersion(version) == Ok(Version(Int(major), minor, patch, pre))
    ensures BumpResult(version, "major", id) == Ok(VersionText(major + 1, 0, 0))
  {
    FormatNaturals(major + 1, 0, 0, None);
  }

  /** `minor` increments minor, resets patch, and drops the prerelease. */
  lemma MinorBump(version: string, major: nat, minor: nat, patch: JsNumber, pre: Option<string>, id: string)
    requires ParseVersion(version) == Ok(Version(Int(major), Int(minor), patch, pre))
    ensures BumpResult(version, "minor", id) == Ok(VersionText(major, minor + 1, 0))
  {
    FormatNaturals(major, minor + 1, 0, None);
  }

  /** `patch` increments patch and drops the prerelease. */
  lemma PatchBump(version: string, major: nat, minor: nat, patch: nat, pre: Option<string>, id: string)
    requires ParseVersion(version) == Ok(Version(Int(major), Int(minor), Int(patch), pre))
    ensures BumpResult(version, "patch", id) == Ok(VersionText(major, minor, patch + 1))
  {
    FormatNaturals(major, minor, patch + 1, None);
  }

  /** A first prerelease, or one under another identifier, starts at `id.0`. */
  lemma PrereleaseStarts(version: string, major: nat, minor: nat, patch: nat, pre: Option<string>, id: string)
    requires ParseVersion(version) == Ok(Version(Int(major), Int(minor), Int(patch), pre))
    requires pre.Some? ==> Split(pre.value, '.')[0] != id
    ensures BumpResult(version, "prerelease", id) == Ok(VersionString(major, minor, patch, Some(id + ".0")))
  {
    FormatNaturals(major, minor, patch, Some(id + ".0"));
  }

  /** On `M.m.p` and `M.m.p-id` the release bumps give the next release. */
  lemma ReleaseBumpsCanonical(major: nat, minor: nat, patch: nat, pre: Option<string>, id: string)
    requires pre.Some? ==> Identifier(pre.value)
    ensures BumpResult(VersionString(major, minor, patch, pre), "major", id) == Ok(VersionText(major + 1, 0, 0))
    ensures BumpResult(VersionString(major, minor, patch, pre), "minor", id) == Ok(VersionText(major, minor + 1, 0))
    ensures BumpResult(VersionString(major, minor, patch, pre), "patch", id) == Ok(VersionText(major, minor, patch + 1))
  {
    var version := VersionString(major, minor, patch, pre);
    ParseVersionString(major, minor, patch, pre);
    MajorBump(version, major, Int(minor), Int(patch), pre, id);
    MinorBump(version, major, minor, Int(patch), pre, id);
    PatchBump(version, major, minor, patch, pre, id);
  }

  /** On `M.m.p-id.N`, the form a `prerelease` bump writes, the release bumps give the next release. */
  lemma ReleaseBumpsAfterCounter(major: nat, minor: nat, patch: nat, id: string, counter: nat, id': string)
    requires Identifier(id)
    ensures var version := VersionString(major, minor, patch, Some(id + "." + NatToString(counter)));
            BumpResult(version, "major", id') == Ok(VersionText(major + 1, 0, 0)) &&
            BumpResult(version, "minor", id') == Ok(VersionText(major, minor + 1, 0)) &&
            BumpResult(version, "patch", id') == Ok(VersionText(major, minor, patch + 1))
  {
    var version := VersionString(major, minor, patch, Some(id + "." + NatToString(counter)));
    ParseDropsCounter(major, minor, patch, id, counter);
    MajorBump(version, major, Int(minor), Int(patch), Some(id), id');
    MinorBump(version, major, minor, Int(patch), Some(id), id');
    PatchBump(version, major, minor, patch, Some(id), id');
  }

  /** On `M.m.p` and `M.m.p-other`, a `prerelease` bump starts at `id.0`. */
  lemma PrereleaseStartsCanonical(major: nat, minor: nat, patch: nat, pre: Option<string>, id: string)
    requires pre.Some? ==> Identifier(pre.value) && pre.value != id
    ensures BumpResult(VersionString(major, minor, patch, pre), "prerelease", id) ==
            Ok(VersionString(major, minor, patch, Some(id + ".0")))
  {
    ParseVersionString(major, minor, patch, pre);
    if pre.Some? {
      SplitOne(pre.value, '.');
    }
    PrereleaseStarts(VersionString(major, minor, patch, pre), major, minor, patch, pre, id);
  }

  /** An unknown bump type throws. */
  lemma UnknownTypeThrows(version: string, kind: string, id: string)
    requires ParseVersion(version).Ok?
    requires kind !in {"major", "minor", "patch", "prerelease"}
    ensures BumpResult(version, kind, id) == Err(UnsupportedTypeMessage + kind)
  {
  }

  /** A version with fewer than three dot-separated parts throws before the type is looked at. */
  lemma ShortVersionThrows(version: string, kind: string, id: string)
    requires '.' !in version || exists a, b :: version == a + "." + b && '.' !in a && '.' !in b
    ensures BumpResult(version, kind, id) == Err(MissingPatchMessage)
  {
    if '.' in version {
      var a, b :| version == a + "." + b && '.' !in a && '.' !in b;
      SplitTwo(a, '.', b);
    } else {
      SplitOne(version, '.');
    }
  }

  /** The `prerelease` bump on parsed fields: the counter logic decides the new prerelease. */
  lemma PrereleaseFields(major: nat, minor: nat, patch: nat, pre: Option<string>, id: string)
    ensures BumpWith(Ok(Version(Int(major), Int(minor), Int(patch), pre)), "prerelease", id) ==
            Ok(VersionString(major, minor, patch, Some(NextPrerelease(pre, id))))
  {
    var next := NextPrerelease(pre, id);
    assert next != "" by {
      if pre.Some? {
        var pieces := Split(pre.value, '.');
        if pieces[0] == id {
          var counter := if |pieces| > 1 && pieces[1] != "" then pieces[1] else "0";
          assert next == id + "." + NumberText(Inc(ParseInt(counter)));
        }
      }
    }
    FormatNaturals(major, minor, patch, Some(next));
  }

  /** A prerelease that is only the identifier counts from 0 to 1. */
  lemma NextWithoutCounter(id: string)
    requires Identifier(id)
    ensures NextPrerelease(Some(id), id) == id + ".1"
  {
    SplitOne(id, '.');
    var zero := "0";
    assert zero == NatToString(0);
    ParseIntRoundTrip(0);
    assert NatToString(1) == "1";
  }

  /** As written: `M.m.p-id.N` bumps to `M.m.p-id.1`, whatever `N` is. */
  lemma PrereleaseCounterStuck(major: nat, minor: nat, patch: nat, id: string, counter: nat)
    requires Identifier(id)
    ensures BumpResult(VersionString(major, minor, patch, Some(id + "." + NatToString(counter))), "prerelease", id) ==
            Ok(VersionString(major, minor, patch, Some(id + ".1")))
  {
    ParseDropsCounter(major, minor, patch, id, counter);
    PrereleaseFields(major, minor, patch, Some(id), id);
    NextWithoutCounter(id);
  }

  // ---------------------------------------------------------------------
  // The prerelease read as everything after the first dash
  // ---------------------------------------------------------------------

  /** The version read with the prerelease taken as all text after the first `-`. */
  function ParseVersionCorrected(version: string): Result<Version>
  {
    var core := BeforeChar(version, '-');
    var pre := if |core| < |version| then version[|core| + 1..] else "";
    var parts := Split(core, '.');
    if |parts| < 3 then Err(MissingPatchMessage)
    else Ok(Version(ParseInt(parts[0]), ParseInt(parts[1]), ParseInt(parts[2]), if pre != "" then Some(pre) else None))
  }

  function BumpResultCorrected(version: string, kind: string, id: string): Result<string>
  {
    BumpWith(ParseVersionCorrected(version), kind, id)
  }

  /** Read this way, a version is its fields before the first `-` and everything after it. */
  lemma CorrectedFromParts(version: string, core: string, pre: string, a: string, b: string, c: string)
    requires BeforeChar(version, '-') == core && |core| < |version| && version[|core| + 1..] == pre
    requires Split(core, '.') == [a, b, c]
    ensures ParseVersionCorrected(version) ==
            Ok(Version(ParseInt(a), ParseInt(b), ParseInt(c), if pre != "" then Some(pre) else None))
  {
  }

  /** `a.b.c-pre` keeps all of `pre`, dots included. */
  lemma CorrectedShape(version: string, a: string, b: string, c: string, pre: string)
    requires '.' !in a && '.' !in b && '.' !in c && '-' !in a && '-' !in b && '-' !in c
    requires version == a + "." + b + "." + c + "-" + pre
    ensures ParseVersionCorrected(version) ==
            Ok(Version(ParseInt(a), ParseInt(b), ParseInt(c), if pre != "" then Some(pre) else None))
  {
    var core := a + "." + b + "." + c;
    assert version == core + (['-'] + pre);
    assert '-' !in core;
    BeforeCharPrefix(core, '-', ['-'] + pre);
    assert version[|core| + 1..] == pre;
    SplitThree(a, b, c);
    CorrectedFromParts(version, core, pre, a, b, c);
  }

  /** Read this way, `M.m.p-id.N` keeps its whole prerelease. */
  lemma ParseCorrectedKeepsCounter(major: nat, minor: nat, patch: nat, id: string, counter: nat)
    requires Identifier(id)
    ensures ParseVersionCorrected(VersionString(major, minor, patch, Some(id + "." + NatToString(counter)))) ==
            Ok(Version(Int(major), Int(minor), Int(patch), Some(id + "." + NatToString(counter))))
  {
    VersionTextParts(major, minor, patch);
    var a, b, c := NatToString(major), NatToString(minor), NatToString(patch);
    var pre := id + "." + NatToString(counter);
    CorrectedShape(VersionString(major, minor, patch, Some(pre)), a, b, c, pre);
  }

  /** A prerelease `id.N` under the same identifier counts on to `N+1`. */
  lemma NextWithCounter(id: string, counter: nat)
    requires Identifier(id)
    ensures NextPrerelease(Some(id + "." + NatToString(counter)), id) == id + "." + NatToString(counter + 1)
  {
    var d := NatToString(counter);
    DigitsHaveNoSeparators(d);
    SplitTwo(id, '.', d);
    ParseIntRoundTrip(counter);
  }

  /** Corrected: `M.m.p-id.N` bumps to `M.m.p-id.(N+1)`. */
  lemma PrereleaseCounterAdvances(major: nat, minor: nat, patch: nat, id: string, counter: nat)
    requires Identifier(id)
    ensures BumpResultCorrected(VersionString(major, minor, patch, Some(id + "." + NatToString(counter))), "prerelease", id) ==
            Ok(VersionString(major, minor, patch, Some(id + "." + NatToString(counter + 1))))
  {
    ParseCorrectedKeepsCounter(major, minor, patch, id, counter);
    PrereleaseFields(major, minor, patch, Some(id + "." + NatToString(counter)), id);
    NextWithCounter(id, counter);
  }
}
