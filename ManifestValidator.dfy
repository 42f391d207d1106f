/** The gallery's check on a manifest's metadata before a package is
    published (ManifestValidator.cs): the ID, the three URL properties and
    the version are checked, in that order, and each problem found becomes
    one finding. The dependency and framework checks of the original are
    disabled, so the groups are read and ignored. */
module ManifestValidator {
  import opened Wrappers
  import opened Metadata
  import opened PackageIdValidator

  /** The manifest validator's own copy of NuGet's internal limit. */
  const MaxPackageIdLength: nat := 100

  /** A validation result; the localised message text is left out. */
  datatype Finding =
    | MissingId
    | IdTooLong
    | InvalidId(id: string)
    | InvalidUrl
    | InvalidVersion

  /** Which check produces a finding: 0 the ID, 1 the URLs, 2 the version. */
  function Stage(f: Finding): nat {
    match f
    case MissingId => 0
    case IdTooLong => 0
    case InvalidId(_) => 0
    case InvalidUrl => 1
    case InvalidVersion => 2
  }

  /** Findings come stage by stage, and only the URL check can produce more
      than one finding. */
  predicate InStageOrder(r: seq<Finding>) {
    forall i, j | 0 <= i < j < |r| :: Stage(r[i]) <= Stage(r[j]) && (Stage(r[i]) == Stage(r[j]) ==> Stage(r[i]) == 1)
  }

  // ---------------------------------------------------------------------
  // The checks

  /** The ID check: missing, else too long, else not valid; at most one. */
  function IdFindings(id: string): (r: seq<Finding>)
    ensures |r| <= 1
    ensures forall f | f in r :: Stage(f) == 0
    ensures (MissingId in r) <==> id == ""
    ensures (IdTooLong in r) <==> Utf16Length(id) > MaxPackageIdLength
    ensures (InvalidId(id) in r) <==> id != "" && Utf16Length(id) <= MaxPackageIdLength && !IsValidPackageId(id)
    ensures forall f | f in r && f.InvalidId? :: f == InvalidId(id)
    ensures r == [] <==> id != "" && Utf16Length(id) <= MaxPackageIdLength && IsValidPackageId(id)
  {
    if id == "" then [MissingId]
    else if Utf16Length(id) > MaxPackageIdLength then [IdTooLong]
    else if !IsValidPackageId(id) then [InvalidId(id)]
    else []
  }

  /** A raw URL string that draws a finding: non-empty and not accepted by
      `Uri.TryCreate` as an absolute URI. Null and "" draw none. */
  predicate IsInvalidUrl(url: Option<string>, runtime: Runtime) {
    url.Some? && url.value != "" && !runtime.tryCreateAbsoluteUri(url.value)
  }

  /** `CheckUrls`: one `InvalidUrl` per invalid URL, in the order given. */
  function CheckUrls(urls: seq<Option<string>>, runtime: Runtime): (r: seq<Finding>)
    ensures |r| <= |urls|
    ensures forall i | 0 <= i < |r| :: r[i] == InvalidUrl
    ensures r == [] <==> forall i | 0 <= i < |urls| :: !IsInvalidUrl(urls[i], runtime)
    ensures |r| == |urls| <==> forall i | 0 <= i < |urls| :: IsInvalidUrl(urls[i], runtime)
  {
    if urls == [] then []
    else
      (if IsInvalidUrl(urls[0], runtime) then [InvalidUrl] else []) + CheckUrls(urls[1..], runtime)
  }

  /** What `CheckUrls` finds in a list is what it finds in each part, in
      order. */
  lemma {:induction false} CheckUrlsAppend(a: seq<Option<string>>, b: seq<Option<string>>, runtime: Runtime)
    ensures CheckUrls(a + b, runtime) == CheckUrls(a, runtime) + CheckUrls(b, runtime)
    decreases |a|
  {
    if a == [] {
      assert a + b == b;
    } else {
      assert (a + b)[1..] == a[1..] + b;
      CheckUrlsAppend(a[1..], b, runtime);
    }
  }

  /** The version check: a finding exactly when the version is null. */
  function VersionFindings(version: Option<NuGetVersion>): (r: seq<Finding>)
    ensures r == [InvalidVersion] <==> version.None?
    ensures r == [] <==> version.Some?
  {
    if version.None? then [InvalidVersion] else []
  }

  /** The raw URL strings the validator checks, in its order: the values
      under `IconUrl`, `ProjectUrl` and `LicenseUrl`, not the converted
      URIs. */
  function RawUrls(metadata: map<string, string>, runtime: Runtime): (urls: seq<Option<string>>)
    ensures |urls| == 3
    ensures urls[0] == GetValueFromMetadata(metadata, "IconUrl", runtime)
    ensures urls[1] == GetValueFromMetadata(metadata, "ProjectUrl", runtime)
    ensures urls[2] == GetValueFromMetadata(metadata, "LicenseUrl", runtime)
  {
    [GetValueFromMetadata(metadata, "IconUrl", runtime),
     GetValueFromMetadata(metadata, "ProjectUrl", runtime),
     GetValueFromMetadata(metadata, "LicenseUrl", runtime)]
  }

  /** `ValidateCore` on a constructed package: its typed properties `p` and
      its case-insensitive metadata copy. At most one ID finding, then the
      URL findings, then at most one version finding. */
  function ValidateCore(p: Properties, metadata: map<string, string>, runtime: Runtime): (r: seq<Finding>)
    ensures |r| <= 5
    ensures InStageOrder(r)
    ensures (MissingId in r) <==> p.id == ""
    ensures (IdTooLong in r) <==> Utf16Length(p.id) > MaxPackageIdLength
    ensures (InvalidId(p.id) in r) <==> p.id != "" && Utf16Length(p.id) <= MaxPackageIdLength && !IsValidPackageId(p.id)
    ensures forall f | f in r && f.InvalidId? :: f == InvalidId(p.id)
    ensures (InvalidVersion in r) <==> p.version.None?
  {
    var ids := IdFindings(p.id);
    var urls := CheckUrls(RawUrls(metadata, runtime), runtime);
    var versions := VersionFindings(p.version);
    StagesConcatenate(ids, urls, versions);
    ids + urls + versions
  }

  /** Each of the three URL strings draws its own finding, in field order,
      between the ID finding and the version finding. */
  lemma UrlFindingsPerField(p: Properties, metadata: map<string, string>, runtime: Runtime)
    ensures var icon := GetValueFromMetadata(metadata, "IconUrl", runtime);
      var project := GetValueFromMetadata(metadata, "ProjectUrl", runtime);
      var license := GetValueFromMetadata(metadata, "LicenseUrl", runtime);
      ValidateCore(p, metadata, runtime) ==
        IdFindings(p.id) + CheckUrls([icon], runtime) + CheckUrls([project], runtime) +
        CheckUrls([license], runtime) + (if p.version.None? then [InvalidVersion] else [])
    ensures (InvalidUrl in ValidateCore(p, metadata, runtime)) <==>
      || IsInvalidUrl(GetValueFromMetadata(metadata, "IconUrl", runtime), runtime)
      || IsInvalidUrl(GetValueFromMetadata(metadata, "ProjectUrl", runtime), runtime)
      || IsInvalidUrl(GetValueFromMetadata(metadata, "LicenseUrl", runtime), runtime)
  {
    var urls := RawUrls(metadata, runtime);
    assert urls == [urls[0], urls[1], urls[2]];
    ThreeUrls(urls[0], urls[1], urls[2], runtime);
    ConcatenationIsAssociative(IdFindings(p.id), CheckUrls([urls[0]], runtime), CheckUrls([urls[1]], runtime),
                               CheckUrls([urls[2]], runtime), VersionFindings(p.version));
  }

  lemma ConcatenationIsAssociative(s: seq<Finding>, a: seq<Finding>, b: seq<Finding>, c: seq<Finding>, v: seq<Finding>)
    ensures s + (a + b + c) + v == s + a + b + c + v
  {
  }

  /** `CheckUrls` on three strings is the check of each in turn. */
  lemma ThreeUrls(a: Option<string>, b: Option<string>, c: Option<string>, runtime: Runtime)
    ensures CheckUrls([a, b, c], runtime) == CheckUrls([a], runtime) + CheckUrls([b], runtime) + CheckUrls([c], runtime)
    ensures (InvalidUrl in CheckUrls([a, b, c], runtime)) <==>
      IsInvalidUrl(a, runtime) || IsInvalidUrl(b, runtime) || IsInvalidUrl(c, runtime)
  {
    assert [a, b, c] == [a] + [b] + [c];
    CheckUrlsAppend([a], [b], runtime);
    CheckUrlsAppend([a] + [b], [c], runtime);
  }

  /** An ID part, a URL part and a version part, one after the other, are
      in stage order, and a finding of the ID or version stage is one of its
      own part's. */
  lemma StagesConcatenate(ids: seq<Finding>, urls: seq<Finding>, versions: seq<Finding>)
    requires |ids| <= 1 && forall f | f in ids :: Stage(f) == 0
    requires forall i | 0 <= i < |urls| :: urls[i] == InvalidUrl
    requires versions == [] || versions == [InvalidVersion]
    ensures InStageOrder(ids + urls + versions)
    ensures forall f | f in ids + urls + versions && Stage(f) == 0 :: f in ids
    ensures forall f | f in ids :: f in ids + urls + versions
    ensures (InvalidVersion in ids + urls + versions) <==> versions != []
  {
    var r := ids + urls + versions;
    forall i, j | 0 <= i < j < |r|
      ensures Stage(r[i]) <= Stage(r[j]) && (Stage(r[i]) == Stage(r[j]) ==> Stage(r[i]) == 1)
    {
      if i < |ids| {
        assert r[i] in ids;
      } else if i < |ids| + |urls| {
        assert r[i] == urls[i - |ids|];
        if j < |ids| + |urls| { assert r[j] == urls[j - |ids|]; }
      } else {
        assert false;
      }
    }
    forall f | f in r && Stage(f) == 0
      ensures f in ids
    {
      assert f !in urls && f !in versions;
    }
    assert InvalidVersion !in ids && InvalidVersion !in urls;
  }

  /** `Validate`: an absent or empty metadata block has no findings;
      otherwise the package is constructed from the block and its groups,
      which may throw, and `ValidateCore` checks it. */
  function Validate(metadata: Option<map<string, string>>, dependencyGroups: seq<PackageDependencyGroup>,
                    frameworkGroups: seq<FrameworkSpecificGroup>, runtime: Runtime): (r: Result<seq<Finding>, ConstructionError>)
    ensures metadata.None? || metadata.value == map[] ==> r == Success([])
    ensures r.Success? <==> metadata.None? || metadata.value == map[] || Constructible(metadata.value, runtime)
    ensures metadata.Some? && metadata.value != map[] && Constructible(metadata.value, runtime) ==>
      var copy := CaseInsensitiveCopy(metadata.value, runtime).value;
      r.value == ValidateCore(PropertiesFrom(copy, runtime), copy, runtime)
    ensures metadata.Some? && !KeysDistinctIgnoringCase(metadata.value, runtime) ==>
      r == Failure(KeysDifferOnlyInCase)
    ensures metadata.Some? && KeysDistinctIgnoringCase(metadata.value, runtime) &&
            !ConversionsSucceed(CaseInsensitiveCopy(metadata.value, runtime).value, runtime) ==>
      r == Failure(ProjectProperties(CaseInsensitiveCopy(metadata.value, runtime).value, runtime).error)
    ensures r.Success? ==> |r.value| <= 5 && InStageOrder(r.value)
  {
    if metadata.None? || metadata.value == map[] then
      Success([])
    else
      var copy :- CaseInsensitiveCopy(metadata.value, runtime);
      var p :- ProjectProperties(copy, runtime);
      Success(ValidateCore(p, copy, runtime))
  }

  // ---------------------------------------------------------------------
  // Properties of the validator

  /** The dependency groups and framework reference groups never influence
      the outcome: their checks are disabled. */
  lemma GroupsNeverInfluenceFindings(metadata: Option<map<string, string>>, runtime: Runtime,
                                     g1: seq<PackageDependencyGroup>, f1: seq<FrameworkSpecificGroup>,
                                     g2: seq<PackageDependencyGroup>, f2: seq<FrameworkSpecificGroup>)
    ensures Validate(metadata, g1, f1, runtime) == Validate(metadata, g2, f2, runtime)
  {
  }

  /** The ID check agrees with NuGet's throwing `ValidatePackageId` on every
      non-empty ID: no finding exactly when it returns normally, too long
      exactly when it reports the length, invalid exactly when it reports the
      characters. */
  lemma IdFindingsAgreeWithValidatePackageId(id: string)
    requires id != ""
    ensures IdFindings(id) == [] <==> ValidatePackageId(id).None?
    ensures IdFindings(id) == [IdTooLong] <==> ValidatePackageId(id) == Some(IdMaxLengthExceeded)
    ensures IdFindings(id) == [InvalidId(id)] <==> ValidatePackageId(id) == Some(InvalidCharacters(id))
  {
    ValidPackageIdCharacterization(id);
  }

  /** At the limit and one past it: an ID of letters and digits is accepted
      up to 100 characters and is too long from 101 on, although it is well
      formed. */
  lemma IdLengthLimit(s: string)
    requires |s| >= 1
    requires forall k | 0 <= k < |s| :: IsLetterOrDigit(s[k])
    ensures |s| <= MaxPackageIdLength ==> IdFindings(s) == []
    ensures |s| > MaxPackageIdLength ==> IdFindings(s) == [IdTooLong]
  {
    LettersAndDigitsAreValid(s);
  }

  /** The limit counts UTF-16 code units: 51 emoji make an ID of length
      102, which is too long although it has only 51 characters. */
  lemma SupplementaryCharactersCountTwice()
    ensures IdFindings(Repeat('\U{1F600}', 51)) == [IdTooLong]
  {
    Utf16LengthOfRepeat('\U{1F600}', 51);
  }

  /** Following from the modelling choice, not from the original: when
      `new Uri` and `Uri.TryCreate(_, UriKind.Absolute, _)` accept the same
      non-empty strings and the comparer equates the keys the constructor and
      the validator spell differently, a package that was constructed never
      draws an `InvalidUrl` finding. */
  lemma ConstructedPackageHasValidUrls(block: map<string, string>, runtime: Runtime,
                                       dependencyGroups: seq<PackageDependencyGroup>, frameworkGroups: seq<FrameworkSpecificGroup>)
    requires forall s | s != "" :: runtime.newUri(s).Some? <==> runtime.tryCreateAbsoluteUri(s)
    requires SameKeyIgnoringCase(runtime, "iconUrl", "IconUrl")
    requires SameKeyIgnoringCase(runtime, "projectUrl", "ProjectUrl")
    requires SameKeyIgnoringCase(runtime, "licenseUrl", "LicenseUrl")
    requires Validate(Some(block), dependencyGroups, frameworkGroups, runtime).Success?
    ensures InvalidUrl !in Validate(Some(block), dependencyGroups, frameworkGroups, runtime).value
  {
    if block != map[] {
      var copy := CaseInsensitiveCopy(block, runtime).value;
      var p := PropertiesFrom(copy, runtime);
      var urls := RawUrls(copy, runtime);
      assert Validate(Some(block), dependencyGroups, frameworkGroups, runtime).value == ValidateCore(p, copy, runtime);
      assert urls[0] == GetValueFromMetadata(copy, "iconUrl", runtime);
      assert urls[1] == GetValueFromMetadata(copy, "projectUrl", runtime);
      assert urls[2] == GetValueFromMetadata(copy, "licenseUrl", runtime);
      UrlFindingsPerField(p, copy, runtime);
    }
  }
}
