/**
 * The update check (`UpdateChecker`): dotted version strings compared component
 * by component, and the decision to record a newer GitHub release together with
 * the download asset for the machine's architecture.
 */
module Updates {
  import opened Wrappers
  import opened Strings
  import opened Requests

  // ---------------------------------------------------------------------------
  // Swift's `Int(_:)` on one dot-separated component

  /** Bounds of Swift's 64-bit `Int`. */
  const IntMin: int := -0x8000_0000_0000_0000
  const IntMax: int := 0x7FFF_FFFF_FFFF_FFFF

  predicate IsDigit(c: char) {
    '0' <= c <= '9'
  }

  predicate AllDigits(s: string) {
    forall i | 0 <= i < |s| :: IsDigit(s[i])
  }

  /** The value of a string of decimal digits, most significant digit first. */
  function DigitsValue(s: string): nat
    requires AllDigits(s)
  {
    if s == [] then 0
    else DigitsValue(s[..|s| - 1]) * 10 + (s[|s| - 1] as int - '0' as int)
  }

  /**
   * `Int(_:)`: an optional '+' or '-' followed by at least one decimal digit, with
   * a value that fits in 64 bits; anything else (letters, an empty string, a lone
   * sign, an overflowing number) gives `nil`.
   */
  function ParseInt(s: string): (r: Option<int>)
    ensures r.Some? ==> IntMin <= r.value <= IntMax
    ensures r.Some? ==> exists i | 0 <= i < |s| :: IsDigit(s[i])
  {
    var digits := if s != [] && (s[0] == '+' || s[0] == '-') then s[1..] else s;
    if digits == [] || !AllDigits(digits) then None
    else
      assert IsDigit(s[|s| - 1]);
      var magnitude: int := DigitsValue(digits);
      var n: int := if s[0] == '-' then -magnitude else magnitude;
      if IntMin <= n <= IntMax then Some(n) else None
  }

  function Digit(d: nat): (c: char)
    requires d < 10
    ensures IsDigit(c) && c as int - '0' as int == d
  {
    ('0' as int + d) as char
  }

  /** The decimal rendering of a natural number, without leading zeros. */
  function ShowNat(n: nat): (s: string)
    ensures s != [] && AllDigits(s)
    ensures n > 0 ==> s[0] != '0'
  {
    if n < 10 then [Digit(n)] else ShowNat(n / 10) + [Digit(n % 10)]
  }

  /** The decimal rendering of an integer, with a leading '-' when negative. */
  function Show(n: int): string {
    if n < 0 then "-" + ShowNat(-n) else ShowNat(n)
  }

  lemma {:induction false} DigitsValueShowNat(n: nat)
    ensures DigitsValue(ShowNat(n)) == n
  {
    if n >= 10 {
      var s := ShowNat(n);
      assert s[..|s| - 1] == ShowNat(n / 10);
      DigitsValueShowNat(n / 10);
    }
  }

  /** Every 64-bit integer written in decimal parses back to itself. */
  lemma ParseIntShow(n: int)
    requires IntMin <= n <= IntMax
    ensures ParseInt(Show(n)) == Some(n)
  {
    DigitsValueShowNat(if n < 0 then -n else n);
    if n < 0 {
      assert Show(n)[1..] == ShowNat(-n);
    } else {
      assert IsDigit(Show(n)[0]);
    }
  }

  /** Components that are not integers give `nil`, so `compactMap` drops them. */
  lemma ParseIntRejects(s: string, i: nat)
    requires i < |s| && !IsDigit(s[i]) && (i > 0 || (s[i] != '+' && s[i] != '-'))
    ensures ParseInt(s) == None
  {
    if s[0] == '+' || s[0] == '-' {
      assert s[1..][i - 1] == s[i];
    }
  }

  // ---------------------------------------------------------------------------
  // compareVersions

  /** `compactMap { Int($0) }`: the components that parse, in order. */
  function ParsedComponents(parts: seq<string>): (r: seq<int>)
    ensures |r| <= |parts|
  {
    if parts == [] then []
    else
      match ParseInt(parts[0])
      case Some(n) => [n] + ParsedComponents(parts[1..])
      case None => ParsedComponents(parts[1..])
  }

  lemma {:induction false} ParsedComponentsAppend(a: seq<string>, b: seq<string>)
    ensures ParsedComponents(a + b) == ParsedComponents(a) + ParsedComponents(b)
  {
    if a != [] {
      assert (a + b)[0] == a[0];
      assert (a + b)[1..] == a[1..] + b;
      ParsedComponentsAppend(a[1..], b);
    } else {
      assert a + b == b;
    }
  }

  /** The integer components of a version: split on '.', unparsable pieces dropped. */
  function Components(version: string): seq<int> {
    ParsedComponents(Split(version, '.'))
  }

  function Max(a: int, b: int): int {
    if a < b then b else a
  }

  /** A list of components extended with zeros to length `n`. */
  function Pad(xs: seq<int>, n: nat): (r: seq<int>)
    requires |xs| <= n
    ensures |r| == n
    ensures forall i | 0 <= i < n :: r[i] == (if i < |xs| then xs[i] else 0)
  {
    xs + seq(n - |xs|, _ => 0)
  }

  /** The loop of `compareVersions` from position `i`: the first unequal position decides. */
  function GreaterFrom(a: seq<int>, b: seq<int>, i: nat): bool
    requires |a| == |b| && i <= |a|
    decreases |a| - i
  {
    if i == |a| then false
    else if a[i] > b[i] then true
    else if a[i] < b[i] then false
    else GreaterFrom(a, b, i + 1)
  }

  /** `compareVersions` on parsed components: pad both to the longer length, then compare. */
  function ComponentsGreater(a: seq<int>, b: seq<int>): bool {
    var n := Max(|a|, |b|);
    GreaterFrom(Pad(a, n), Pad(b, n), 0)
  }

  /** `compareVersions(version1, isGreaterThan: version2)`. */
  function IsGreater(version1: string, version2: string): bool {
    ComponentsGreater(Components(version1), Components(version2))
  }

  /** Component `i` of a version; components beyond the end read as zero. */
  function At(a: seq<int>, i: nat): int {
    if i < |a| then a[i] else 0
  }

  /** Reference ordering: at the first position where the two differ, `a` is larger. */
  ghost predicate FirstDifferenceGreater(a: seq<int>, b: seq<int>) {
    exists k: nat :: At(a, k) > At(b, k) && forall i: nat | i < k :: At(a, i) == At(b, i)
  }

  /** Two component lists that agree everywhere once padded with zeros. */
  ghost predicate SameComponents(a: seq<int>, b: seq<int>) {
    forall i: nat :: At(a, i) == At(b, i)
  }

  lemma {:induction false} GreaterFromWitness(a: seq<int>, b: seq<int>, i: nat)
    requires |a| == |b| && i <= |a|
    requires forall j | 0 <= j < i :: a[j] == b[j]
    ensures GreaterFrom(a, b, i) <==>
      exists k | i <= k < |a| :: a[k] > b[k] && forall j | 0 <= j < k :: a[j] == b[j]
    decreases |a| - i
  {
    if i < |a| && a[i] == b[i] {
      GreaterFromWitness(a, b, i + 1);
    }
  }

  /** After padding, the result is decided by the first component where the versions differ. */
  lemma ComponentsGreaterIsFirstDifference(a: seq<int>, b: seq<int>)
    ensures ComponentsGreater(a, b) <==> FirstDifferenceGreater(a, b)
  {
    var n := Max(|a|, |b|);
    var pa, pb := Pad(a, n), Pad(b, n);
    GreaterFromWitness(pa, pb, 0);
    if ComponentsGreater(a, b) {
      var k :| 0 <= k < n && pa[k] > pb[k] && forall j | 0 <= j < k :: pa[j] == pb[j];
      assert At(a, k) > At(b, k);
      assert forall i: nat | i < k :: At(a, i) == At(b, i) by {
        forall i: nat | i < k ensures At(a, i) == At(b, i) {
          assert pa[i] == pb[i];
        }
      }
    }
    if FirstDifferenceGreater(a, b) {
      var k: nat :| At(a, k) > At(b, k) && forall i: nat | i < k :: At(a, i) == At(b, i);
      assert k < n;
      assert pa[k] > pb[k];
      assert forall j | 0 <= j < k :: pa[j] == pb[j] by {
        forall j | 0 <= j < k ensures pa[j] == pb[j] {
          assert At(a, j) == At(b, j);
        }
      }
    }
  }

  /** No version is greater than itself ("equal versions" give false). */
  lemma ComponentsGreaterIrreflexive(a: seq<int>)
    ensures !ComponentsGreater(a, a)
  {
    ComponentsGreaterIsFirstDifference(a, a);
  }

  lemma ComponentsGreaterAsymmetric(a: seq<int>, b: seq<int>)
    requires ComponentsGreater(a, b)
    ensures !ComponentsGreater(b, a)
  {
    ComponentsGreaterIsFirstDifference(a, b);
    ComponentsGreaterIsFirstDifference(b, a);
    var k: nat :| At(a, k) > At(b, k) && forall i: nat | i < k :: At(a, i) == At(b, i);
  }

  lemma ComponentsGreaterTransitive(a: seq<int>, b: seq<int>, c: seq<int>)
    requires ComponentsGreater(a, b) && ComponentsGreater(b, c)
    ensures ComponentsGreater(a, c)
  {
    ComponentsGreaterIsFirstDifference(a, b);
    ComponentsGreaterIsFirstDifference(b, c);
    ComponentsGreaterIsFirstDifference(a, c);
    FirstDifferenceTransitive(a, b, c);
  }

  lemma FirstDifferenceTransitive(a: seq<int>, b: seq<int>, c: seq<int>)
    requires FirstDifferenceGreater(a, b) && FirstDifferenceGreater(b, c)
    ensures FirstDifferenceGreater(a, c)
  {
    var k: nat :| At(a, k) > At(b, k) && forall i: nat | i < k :: At(a, i) == At(b, i);
    var m: nat :| At(b, m) > At(c, m) && forall i: nat | i < m :: At(b, i) == At(c, i);
    var d := if k < m then k else m;
    assert At(a, d) > At(c, d);
    assert forall i: nat | i < d :: At(a, i) == At(c, i) by {
      forall i: nat | i < d ensures At(a, i) == At(c, i) {
        assert At(a, i) == At(b, i) && At(b, i) == At(c, i);
      }
    }
  }

  lemma {:induction false} GreaterFromTotal(a: seq<int>, b: seq<int>, i: nat)
    requires |a| == |b| && i <= |a|
    ensures GreaterFrom(a, b, i) || GreaterFrom(b, a, i) || a[i..] == b[i..]
    decreases |a| - i
  {
    if i < |a| && a[i] == b[i] {
      GreaterFromTotal(a, b, i + 1);
      if a[i + 1..] == b[i + 1..] {
        assert a[i..] == [a[i]] + a[i + 1..] && b[i..] == [b[i]] + b[i + 1..];
      }
    }
  }

  /** Any two versions are ordered one way or the other, or agree once padded with zeros. */
  lemma ComponentsGreaterTotal(a: seq<int>, b: seq<int>)
    ensures ComponentsGreater(a, b) || ComponentsGreater(b, a) || SameComponents(a, b)
  {
    var n := Max(|a|, |b|);
    var pa, pb := Pad(a, n), Pad(b, n);
    GreaterFromTotal(pa, pb, 0);
    if pa == pb {
      forall i: nat ensures At(a, i) == At(b, i) {
        if i < n {
          assert pa[i] == pb[i];
        }
      }
    }
  }

  /** Versions that agree once padded compare alike against every other version. */
  lemma ComponentsGreaterRespectsPadding(a: seq<int>, a': seq<int>, b: seq<int>)
    requires SameComponents(a, a')
    ensures ComponentsGreater(a, b) == ComponentsGreater(a', b)
    ensures ComponentsGreater(b, a) == ComponentsGreater(b, a')
  {
    ComponentsGreaterIsFirstDifference(a, b);
    ComponentsGreaterIsFirstDifference(a', b);
    ComponentsGreaterIsFirstDifference(b, a);
    ComponentsGreaterIsFirstDifference(b, a');
    if FirstDifferenceGreater(a, b) {
      var k: nat :| At(a, k) > At(b, k) && forall i: nat | i < k :: At(a, i) == At(b, i);
      assert At(a', k) > At(b, k) && forall i: nat | i < k :: At(a', i) == At(b, i);
    }
    if FirstDifferenceGreater(a', b) {
      var k: nat :| At(a', k) > At(b, k) && forall i: nat | i < k :: At(a', i) == At(b, i);
      assert At(a, k) > At(b, k) && forall i: nat | i < k :: At(a, i) == At(b, i);
    }
    if FirstDifferenceGreater(b, a) {
      var k: nat :| At(b, k) > At(a, k) && forall i: nat | i < k :: At(b, i) == At(a, i);
      assert At(b, k) > At(a', k) && forall i: nat | i < k :: At(b, i) == At(a', i);
    }
    if FirstDifferenceGreater(b, a') {
      var k: nat :| At(b, k) > At(a', k) && forall i: nat | i < k :: At(b, i) == At(a', i);
      assert At(b, k) > At(a, k) && forall i: nat | i < k :: At(b, i) == At(a, i);
    }
  }

  /** `compareVersions` is a strict order on version strings. */
  lemma IsGreaterStrictOrder(v1: string, v2: string, v3: string)
    ensures !IsGreater(v1, v1)
    ensures IsGreater(v1, v2) ==> !IsGreater(v2, v1)
    ensures IsGreater(v1, v2) && IsGreater(v2, v3) ==> IsGreater(v1, v3)
  {
    ComponentsGreaterIrreflexive(Components(v1));
    if IsGreater(v1, v2) {
      ComponentsGreaterAsymmetric(Components(v1), Components(v2));
      if IsGreater(v2, v3) {
        ComponentsGreaterTransitive(Components(v1), Components(v2), Components(v3));
      }
    }
  }

  /** A trailing ".0" never changes the outcome of a comparison, on either side. */
  lemma IsGreaterIgnoresTrailingZero(v: string, w: string)
    ensures IsGreater(v + ".0", w) == IsGreater(v, w)
    ensures IsGreater(w, v + ".0") == IsGreater(w, v)
  {
    SplitFromAround(v, "0", '.', []);
    assert v + ".0" == v + ['.'] + "0";
    SplitJoin(["0"], '.');
    ParsedComponentsAppend(Split(v, '.'), ["0"]);
    assert ParseInt("0") == Some(0);
    var a := Components(v);
    assert Components(v + ".0") == a + [0];
    assert SameComponents(a + [0], a) by {
      forall i: nat ensures At(a + [0], i) == At(a, i) {
      }
    }
    ComponentsGreaterRespectsPadding(a + [0], a, Components(w));
  }

  /** "1.1" and "1.1.0" are not greater than each other. */
  lemma ZeroPaddingExample()
    ensures !IsGreater("1.1", "1.1.0") && !IsGreater("1.1.0", "1.1")
  {
    IsGreaterIgnoresTrailingZero("1.1", "1.1");
    assert "1.1" + ".0" == "1.1.0";
    IsGreaterStrictOrder("1.1", "1.1", "1.1");
  }

  lemma SplitLiteral(parts: seq<string>, version: string)
    requires Pieces(parts, '.') && Join(parts, '.') == version
    ensures Split(version, '.') == parts
  {
    SplitJoin(parts, '.');
  }

  lemma ParsedTwo(x: string, y: string, a: int, b: int)
    requires ParseInt(x) == Some(a) && ParseInt(y) == Some(b)
    ensures ParsedComponents([x, y]) == [a, b]
  {
    assert [x, y][1..] == [y];
  }

  lemma ParsedThree(x: string, y: string, z: string, a: int, b: int, c: int)
    requires ParseInt(x) == Some(a) && ParseInt(y) == Some(b) && ParseInt(z) == Some(c)
    ensures ParsedComponents([x, y, z]) == [a, b, c]
  {
    assert [x, y, z][1..] == [y, z];
    ParsedTwo(y, z, b, c);
  }

  /** Non-numeric components are dropped: "1.beta.2" compares as [1, 2]. */
  lemma NonNumericComponentDropped(v: string)
    requires v == "1.beta.2"
    ensures Components(v) == [1, 2]
  {
    SplitLiteral(["1", "beta", "2"], v);
    ParseIntRejects("beta", 0);
    assert ParseInt("1") == Some(1) && ParseInt("2") == Some(2);
    assert ParsedComponents(["1", "beta", "2"]) == [1, 2];
  }

  /** A higher major version is greater. */
  lemma MajorVersionGreater(v: string, w: string)
    requires v == "2.0.0" && w == "1.0.0"
    ensures IsGreater(v, w)
  {
    SplitLiteral(["2", "0", "0"], v);
    SplitLiteral(["1", "0", "0"], w);
    ParsedThree("2", "0", "0", 2, 0, 0);
    ParsedThree("1", "0", "0", 1, 0, 0);
    assert ComponentsGreater([2, 0, 0], [1, 0, 0]);
  }

  /** A higher patch version is greater when the rest agree. */
  lemma PatchVersionGreater(v: string, w: string)
    requires v == "1.0.1" && w == "1.0.0"
    ensures IsGreater(v, w)
  {
    SplitLiteral(["1", "0", "1"], v);
    SplitLiteral(["1", "0", "0"], w);
    ParsedThree("1", "0", "1", 1, 0, 1);
    ParsedThree("1", "0", "0", 1, 0, 0);
    assert Pad([1, 0, 1], 3) == [1, 0, 1] && Pad([1, 0, 0], 3) == [1, 0, 0];
    assert ComponentsGreater([1, 0, 1], [1, 0, 0]);
  }

  /** Components compare as integers, not as text: 10 is above 9. */
  lemma NumericNotTextual(v: string, w: string)
    requires v == "1.10" && w == "1.9"
    ensures IsGreater(v, w)
  {
    VersionOneTen(v);
    VersionOneNine(w);
    assert Pad([1, 10], 2) == [1, 10] && Pad([1, 9], 2) == [1, 9];
  }

  /** ...and so "1.9" is not greater than "1.10". */
  lemma NumericNotTextualConverse(v: string, w: string)
    requires v == "1.10" && w == "1.9"
    ensures !IsGreater(w, v)
  {
    VersionOneTen(v);
    VersionOneNine(w);
    assert Pad([1, 10], 2) == [1, 10] && Pad([1, 9], 2) == [1, 9];
  }

  lemma VersionOneTen(v: string)
    requires v == "1.10"
    ensures Components(v) == [1, 10]
  {
    SplitLiteral(["1", "10"], v);
    assert DigitsValue("10") == 10;
    ParsedTwo("1", "10", 1, 10);
  }

  lemma VersionOneNine(v: string)
    requires v == "1.9"
    ensures Components(v) == [1, 9]
  {
    SplitLiteral(["1", "9"], v);
    ParsedTwo("1", "9", 1, 9);
  }

  // ---------------------------------------------------------------------------
  // The release feed and checkForUpdates

  datatype GitHubAsset = GitHubAsset(name: string, browserDownloadURL: string)

  datatype GitHubRelease = GitHubRelease(tagName: string, name: string, body: string, assets: seq<GitHubAsset>)

  /** The architecture the app was built for (`#if arch(arm64)`). */
  datatype Architecture = Arm64 | Intel

  /** The disk image published for each architecture. */
  function AssetName(arch: Architecture): string {
    match arch
    case Arm64 => "MacAITextImprover-Apple-Silicon.dmg"
    case Intel => "MacAITextImprover-Intel.dmg"
  }

  /** `trimmingPrefix("v")`: at most one leading 'v' removed. */
  function StripV(tag: string): (r: string)
    ensures if StartsWith(tag, "v") then "v" + r == tag else r == tag
  {
    if StartsWith(tag, "v") then
      assert tag == "v" + tag[1..];
      tag[1..]
    else tag
  }

  /** `assets.first { $0.name == name }`. */
  function FirstAsset(assets: seq<GitHubAsset>, name: string): (r: Option<GitHubAsset>)
    ensures r.None? <==> forall i | 0 <= i < |assets| :: assets[i].name != name
    ensures r.Some? ==> exists i | 0 <= i < |assets| ::
      assets[i] == r.value && r.value.name == name && forall j | 0 <= j < i :: assets[j].name != name
  {
    if assets == [] then None
    else if assets[0].name == name then Some(assets[0])
    else
      var r := FirstAsset(assets[1..], name);
      if r.Some? then
        ghost var i :| 0 <= i < |assets[1..]| && assets[1..][i] == r.value && r.value.name == name
          && forall j | 0 <= j < i :: assets[1..][j].name != name;
        assert assets[i + 1] == r.value;
        r
      else r
  }

  /** The download URL recorded for a release: that of the first asset with the architecture's name. */
  function DownloadURL(release: GitHubRelease, arch: Architecture): Option<string> {
    match FirstAsset(release.assets, AssetName(arch))
    case Some(asset) => Some(asset.browserDownloadURL)
    case None => None
  }

  /** The version string used when the bundle has none. */
  const FallbackVersion: string := "1.0.0"

  /** The default `currentVersion`: the bundle's short version string, else "1.0.0". */
  function DefaultCurrentVersion(bundleVersion: Option<string>): string {
    bundleVersion.GetOr(FallbackVersion)
  }

  /**
   * Without a bundle version the app runs as "1.0.0", so a release tagged
   * "v1.0.0" or "1.0.0" is never newer; with one, its own tag is never newer.
   */
  lemma DefaultVersionNotAnnounced(bundleVersion: string)
    ensures !IsGreater(StripV("v1.0.0"), DefaultCurrentVersion(None))
    ensures !IsGreater(StripV("1.0.0"), DefaultCurrentVersion(None))
    ensures !IsGreater(StripV("v" + bundleVersion), DefaultCurrentVersion(Some(bundleVersion)))
  {
    SameVersionNotAnnounced(FallbackVersion);
    SameVersionNotAnnounced(bundleVersion);
    assert "v" + FallbackVersion == "v1.0.0";
  }

  class UpdateChecker {
    var isUpdateAvailable: bool
    var latestVersion: Option<string>
    var releaseNotes: Option<string>
    var downloadURL: Option<string>

    const currentVersion: string
    const githubRepo: string
    const githubOwner: string

    /**
     * What the checker promises about its published fields: an announced update
     * has a version and notes, and a recorded version is newer than the running one.
     */
    ghost predicate Valid()
      reads this
    {
      && (isUpdateAvailable ==> latestVersion.Some?)
      && (latestVersion.Some? <==> releaseNotes.Some?)
      && (downloadURL.Some? ==> latestVersion.Some?)
      && (latestVersion.Some? ==> IsGreater(latestVersion.value, currentVersion))
    }

    constructor(currentVersion: string, githubOwner: string, githubRepo: string)
      ensures this.currentVersion == currentVersion
      ensures this.githubOwner == githubOwner && this.githubRepo == githubRepo
      ensures !isUpdateAvailable
      ensures latestVersion.None? && releaseNotes.None? && downloadURL.None?
      ensures Valid()
    {
      this.currentVersion := currentVersion;
      this.githubOwner := githubOwner;
      this.githubRepo := githubRepo;
      isUpdateAvailable := false;
      latestVersion := None;
      releaseNotes := None;
      downloadURL := None;
    }

    /** The request `fetchLatestRelease` sends: a GET of the repository's latest release. */
    function LatestReleaseRequest(): (r: Request)
      ensures r.httpMethod == Get && r.body.None?
      ensures r.url == "https://api.github.com/repos/" + githubOwner + "/" + githubRepo + "/releases/latest"
      ensures HeaderValue(r.headers, "Accept") == Some("application/vnd.github.v3+json")
    {
      Request(Get, "https://api.github.com/repos/" + githubOwner + "/" + githubRepo + "/releases/latest",
              [Header("Accept", "application/vnd.github.v3+json")], None)
    }

    /**
     * `checkForUpdates`. `fetched` is the decoded release, or `None` when fetching or
     * decoding threw (the error is only logged). A release is recorded only when its
     * tag, less one leading 'v', is strictly newer than the running version;
     * otherwise nothing changes.
     */
    method CheckForUpdates(fetched: Option<GitHubRelease>, arch: Architecture)
      requires Valid()
      modifies this
      ensures Valid()
      ensures if fetched.Some? && IsGreater(StripV(fetched.value.tagName), currentVersion) then
          && isUpdateAvailable
          && latestVersion == Some(StripV(fetched.value.tagName))
          && releaseNotes == Some(fetched.value.body)
          && downloadURL == DownloadURL(fetched.value, arch)
        else
          && isUpdateAvailable == old(isUpdateAvailable)
          && latestVersion == old(latestVersion)
          && releaseNotes == old(releaseNotes)
          && downloadURL == old(downloadURL)
    {
      if fetched.Some? {
        var release := fetched.value;
        var version := StripV(release.tagName);
        if IsGreater(version, currentVersion) {
          isUpdateAvailable := true;
          latestVersion := Some(version);
          releaseNotes := Some(release.body);
          var asset := FirstAsset(release.assets, AssetName(arch));
          downloadURL := if asset.Some? then Some(asset.value.browserDownloadURL) else None;
        }
      }
    }
  }

  /** A release tagged with the running version, with or without a leading 'v', is never announced. */
  lemma SameVersionNotAnnounced(current: string)
    ensures !IsGreater(StripV("v" + current), current)
    ensures !StartsWith(current, "v") ==> !IsGreater(StripV(current), current)
  {
    IsGreaterStrictOrder(current, current, current);
    assert StartsWith("v" + current, "v");
    assert "v" + StripV("v" + current) == "v" + current;
  }
}
