/** The gallery's typed view of a manifest's metadata block
    (PackageMetadata.cs). The block is a string-to-string dictionary; it is
    copied into a dictionary that compares keys without regard to case, and
    the typed properties are read from that copy, each with a default for an
    absent key. */
module Metadata {
  import opened Wrappers

  /** A version as the NuGet versioning library parses it; only whether
      parsing succeeded matters here. */
  datatype NuGetVersion = NuGetVersion(text: string)

  /** An absolute URI as `System.Uri` builds it. */
  datatype Uri = Uri(text: string)

  /** A dependency of a package, passed through unread. */
  datatype PackageDependency = PackageDependency(id: string, versionRange: string)

  /** The dependencies of a package for one target framework. */
  datatype PackageDependencyGroup = PackageDependencyGroup(targetFramework: string, packages: seq<PackageDependency>)

  /** The framework references of a package for one target framework. */
  datatype FrameworkSpecificGroup = FrameworkSpecificGroup(targetFramework: string, items: seq<string>)

  /** The library calls this code makes but does not define, as parameters:
      the key by which `StringComparer.OrdinalIgnoreCase` compares strings
      (two strings are equal under it exactly when their keys are),
      `NuGetVersion.TryParse`, the `Uri(string)` constructor (`None` when it
      throws `UriFormatException`) and `Uri.TryCreate(_, UriKind.Absolute, _)`. */
  datatype Runtime = Runtime(
    ignoreCaseKey: string -> string,
    tryParseVersion: string -> Option<NuGetVersion>,
    newUri: string -> Option<Uri>,
    tryCreateAbsoluteUri: string -> bool)

  /** The exceptions that abort construction. The string in `UriFormat` and
      `BoolFormat` is the model's own record of which value failed; the
      .NET exceptions do not carry it. */
  datatype ConstructionError =
    | KeysDifferOnlyInCase    // ArgumentException from the dictionary copy
    | UriFormat(value: string) // UriFormatException from `new Uri`
    | BoolFormat(value: string) // FormatException from `bool.Parse`

  // ---------------------------------------------------------------------
  // Case-insensitive keys

  predicate SameKeyIgnoringCase(runtime: Runtime, a: string, b: string) {
    runtime.ignoreCaseKey(a) == runtime.ignoreCaseKey(b)
  }

  /** No two keys of `block` are the same apart from case. */
  predicate KeysDistinctIgnoringCase(block: map<string, string>, runtime: Runtime) {
    forall k1, k2 | k1 in block && k2 in block && SameKeyIgnoringCase(runtime, k1, k2) :: k1 == k2
  }

  /** `new Dictionary<string, string>(metadata, StringComparer.OrdinalIgnoreCase)`:
      the copy is keyed by the comparer's key, and adding a second key equal
      to an earlier one under the comparer throws. */
  function CaseInsensitiveCopy(block: map<string, string>, runtime: Runtime): (r: Result<map<string, string>, ConstructionError>)
    ensures r.Success? <==> KeysDistinctIgnoringCase(block, runtime)
    ensures r.Failure? ==> r.error == KeysDifferOnlyInCase
  {
    if KeysDistinctIgnoringCase(block, runtime) then
      Success(map k | k in block :: runtime.ignoreCaseKey(k) := block[k])
    else
      Failure(KeysDifferOnlyInCase)
  }

  /** The copy holds every entry of the block under the entry's key, and
      nothing else. */
  lemma CaseInsensitiveCopyContents(block: map<string, string>, runtime: Runtime)
    requires KeysDistinctIgnoringCase(block, runtime)
    ensures var copy := CaseInsensitiveCopy(block, runtime).value;
      && (forall key | key in copy :: exists k | k in block :: runtime.ignoreCaseKey(k) == key)
      && (forall k | k in block :: runtime.ignoreCaseKey(k) in copy && copy[runtime.ignoreCaseKey(k)] == block[k])
  {
    var copy := CaseInsensitiveCopy(block, runtime).value;
    forall k | k in block
      ensures runtime.ignoreCaseKey(k) in copy && copy[runtime.ignoreCaseKey(k)] == block[k]
    {
    }
  }

  // ---------------------------------------------------------------------
  // Lookups and conversions

  /** `GetValueOr`: the value stored under `key` in the copy, whatever its
      case, or `alternate`. */
  function GetValueOr(metadata: map<string, string>, key: string, alternate: Option<string>, runtime: Runtime): (r: Option<string>)
    ensures alternate.Some? ==> r.Some?
  {
    var k := runtime.ignoreCaseKey(key);
    if k in metadata then Some(metadata[k]) else alternate
  }

  /** `GetValueFromMetadata`: the value under `key`, or null. */
  function GetValueFromMetadata(metadata: map<string, string>, key: string, runtime: Runtime): Option<string> {
    GetValueOr(metadata, key, None, runtime)
  }

  /** Upper-cases an ASCII letter. */
  function ToUpper(c: char): char {
    if 'a' <= c <= 'z' then (c as int - 32) as char else c
  }

  function FoldCase(s: string): (r: string)
    ensures |r| == |s|
    ensures forall i | 0 <= i < |s| :: r[i] == ToUpper(s[i])
  {
    seq(|s|, i requires 0 <= i < |s| => ToUpper(s[i]))
  }

  /** Equality apart from the case of ASCII letters, as `bool.Parse`
      compares its trimmed input with "True" and "False". */
  predicate EqualsIgnoringAsciiCase(a: string, b: string) {
    FoldCase(a) == FoldCase(b)
  }

  /** A comparer that ignores exactly the case of ASCII letters:
      `OrdinalIgnoreCase` on ASCII text. */
  ghost predicate IgnoresAsciiCase(runtime: Runtime) {
    forall s :: runtime.ignoreCaseKey(s) == FoldCase(s)
  }

  /** Characters `bool.Parse` ignores around the word (ASCII white space and NUL). */
  predicate IsTrimmed(c: char) {
    c == ' ' || c == '\t' || c == '\n' || c == '\r' || c == '\U{000B}' || c == '\U{000C}' || c == '\0'
  }

  function TrimStart(s: string): (r: string)
    ensures |r| <= |s| && r == s[|s| - |r|..]
    ensures forall i | 0 <= i < |s| - |r| :: IsTrimmed(s[i])
    ensures |r| > 0 ==> !IsTrimmed(r[0])
    decreases |s|
  {
    if |s| > 0 && IsTrimmed(s[0]) then
      var r := TrimStart(s[1..]);
      assert forall i | 1 <= i < |s| - |r| :: s[i] == s[1..][i - 1];
      r
    else s
  }

  function TrimEnd(s: string): (r: string)
    ensures |r| <= |s| && r == s[..|r|]
    ensures forall i | |r| <= i < |s| :: IsTrimmed(s[i])
    ensures |r| > 0 ==> !IsTrimmed(r[|r| - 1])
    decreases |s|
  {
    if |s| > 0 && IsTrimmed(s[|s| - 1]) then
      var r := TrimEnd(s[..|s| - 1]);
      assert forall i | |r| <= i < |s| - 1 :: s[i] == s[..|s| - 1][i];
      r
    else s
  }

  /** A string that neither begins nor ends with white space is its own
      trimmed form. */
  lemma TrimKeepsUnpadded(s: string)
    requires |s| > 0 && !IsTrimmed(s[0]) && !IsTrimmed(s[|s| - 1])
    ensures TrimEnd(TrimStart(s)) == s
  {
    assert TrimStart(s) == s;
  }

  /** `bool.ToString()`. */
  function BoolToString(b: bool): string {
    if b then "True" else "False"
  }

  /** `bool.Parse`: "true" or "false" in any case, with surrounding white
      space; anything else is a format error (`None`). */
  function ParseBool(s: string): Option<bool> {
    var word := TrimEnd(TrimStart(s));
    if EqualsIgnoringAsciiCase(word, "True") then Some(true)
    else if EqualsIgnoringAsciiCase(word, "False") then Some(false)
    else None
  }

  /** Parsing undoes printing, so a default written out by `GetBoolOr` comes
      back unchanged. */
  lemma ParseBoolToString(b: bool)
    ensures ParseBool(BoolToString(b)) == Some(b)
  {
    TrimKeepsUnpadded(BoolToString(b));
    assert !EqualsIgnoringAsciiCase("False", "True") by {
      assert FoldCase("False")[0] != FoldCase("True")[0];
    }
  }

  lemma {:induction false} TrimStartPadding(pad: string, s: string)
    requires forall i | 0 <= i < |pad| :: IsTrimmed(pad[i])
    requires |s| > 0 && !IsTrimmed(s[0])
    ensures TrimStart(pad + s) == s
    decreases |pad|
  {
    if pad != [] {
      assert (pad + s)[0] == pad[0] && (pad + s)[1..] == pad[1..] + s;
      TrimStartPadding(pad[1..], s);
    }
  }

  lemma {:induction false} TrimEndPadding(s: string, pad: string)
    requires forall i | 0 <= i < |pad| :: IsTrimmed(pad[i])
    requires |s| > 0 && !IsTrimmed(s[|s| - 1])
    ensures TrimEnd(s + pad) == s
    decreases |pad|
  {
    if pad != [] {
      var t := s + pad;
      assert t[|t| - 1] == pad[|pad| - 1] && t[..|t| - 1] == s + pad[..|pad| - 1];
      TrimEndPadding(s, pad[..|pad| - 1]);
    }
  }

  /** `bool.Parse` ignores white space around the word: padding a word that
      neither begins nor ends with white space does not change its parse. */
  lemma ParseBoolIgnoresPadding(before: string, word: string, after: string)
    requires forall i | 0 <= i < |before| :: IsTrimmed(before[i])
    requires forall i | 0 <= i < |after| :: IsTrimmed(after[i])
    requires |word| > 0 && !IsTrimmed(word[0]) && !IsTrimmed(word[|word| - 1])
    ensures ParseBool(before + word + after) == ParseBool(word)
  {
    var padded := before + word + after;
    assert padded == before + (word + after);
    assert (word + after)[0] == word[0];
    TrimStartPadding(before, word + after);
    TrimEndPadding(word, after);
    TrimKeepsUnpadded(word);
    SameWordSameParse(padded, word);
  }

  /** `bool.Parse` looks only at the trimmed word. */
  lemma SameWordSameParse(s: string, t: string)
    requires TrimEnd(TrimStart(s)) == TrimEnd(TrimStart(t))
    ensures ParseBool(s) == ParseBool(t)
  {
  }

  /** Hence a padded `True` or `False` parses as its value. */
  lemma PaddedBoolParses(b: bool, before: string, after: string)
    requires forall i | 0 <= i < |before| :: IsTrimmed(before[i])
    requires forall i | 0 <= i < |after| :: IsTrimmed(after[i])
    ensures ParseBool(before + BoolToString(b) + after) == Some(b)
  {
    ParseBoolIgnoresPadding(before, BoolToString(b), after);
    ParseBoolToString(b);
  }

  /** `bool.Parse` ignores case as well: any spelling of `True` or `False`,
      with any white space around it, parses as its value. */
  lemma ParseBoolIgnoresCase(b: bool, before: string, word: string, after: string)
    requires forall i | 0 <= i < |before| :: IsTrimmed(before[i])
    requires forall i | 0 <= i < |after| :: IsTrimmed(after[i])
    requires EqualsIgnoringAsciiCase(word, BoolToString(b))
    ensures ParseBool(before + word + after) == Some(b)
  {
    var name := BoolToString(b);
    assert |word| == |name| && |word| > 0 by {
      assert |FoldCase(word)| == |FoldCase(name)|;
    }
    assert !IsTrimmed(word[0]) by {
      assert ToUpper(word[0]) == FoldCase(name)[0];
    }
    assert !IsTrimmed(word[|word| - 1]) by {
      assert ToUpper(word[|word| - 1]) == FoldCase(name)[|name| - 1];
    }
    ParseBoolIgnoresPadding(before, word, after);
    TrimKeepsUnpadded(word);
    if !b {
      assert !EqualsIgnoringAsciiCase(word, "True") by {
        assert |FoldCase(word)| != |FoldCase("True")|;
      }
    }
  }

  /** Conversely, `bool.Parse` accepts nothing else: a string it parses is a
      spelling of `True` or `False` with only white space around it. */
  lemma ParseBoolAcceptsOnlyPaddedWords(s: string, b: bool)
    requires ParseBool(s) == Some(b)
    ensures exists i, j | 0 <= i <= j <= |s| ::
      && (forall k | 0 <= k < i :: IsTrimmed(s[k]))
      && (forall k | j <= k < |s| :: IsTrimmed(s[k]))
      && EqualsIgnoringAsciiCase(s[i..j], BoolToString(b))
  {
    var t := TrimStart(s);
    var word := TrimEnd(t);
    var i := |s| - |t|;
    var j := i + |word|;
    assert s[i..j] == word;
    forall k | j <= k < |s|
      ensures IsTrimmed(s[k])
    {
      assert s[k] == t[k - i];
    }
    if !b {
      assert !EqualsIgnoringAsciiCase(word, "True");
    }
    assert EqualsIgnoringAsciiCase(s[i..j], BoolToString(b));
  }

  /** The lower-case spelling manifests use. */
  lemma LowerCaseFalseParses()
    ensures ParseBool("false") == Some(false)
  {
    assert EqualsIgnoringAsciiCase("false", "False") by {
      assert FoldCase("false") == FoldCase("False");
    }
    ParseBoolIgnoresCase(false, "", "false", "");
    assert "" + "false" + "" == "false";
  }

  /** `GetBoolOr`: the boolean parse of the value under `key`, or of
      `alternate` written out as text when the key is absent. */
  function GetBoolOr(metadata: map<string, string>, key: string, alternate: bool, runtime: Runtime): (r: Result<bool, ConstructionError>)
    ensures GetValueFromMetadata(metadata, key, runtime).None? ==> r == Success(alternate)
    ensures GetValueFromMetadata(metadata, key, runtime).Some? ==>
      var value := GetValueFromMetadata(metadata, key, runtime).value;
      match ParseBool(value)
      case Some(b) => r == Success(b)
      case None => r == Failure(BoolFormat(value))
  {
    ParseBoolToString(alternate);
    var value := GetValueOr(metadata, key, Some(BoolToString(alternate)), runtime).value;
    match ParseBool(value)
    case Some(b) => Success(b)
    case None => Failure(BoolFormat(value))
  }

  /** A raw URL string `new Uri` accepts or is never given: absent, empty or
      well-formed. */
  predicate UriConverts(raw: Option<string>, runtime: Runtime) {
    raw.None? || raw.value == "" || runtime.newUri(raw.value).Some?
  }

  /** `GetUriOr`: `alternate` for an absent or empty value, otherwise the
      value converted with `new Uri`, whose failure aborts construction. */
  function GetUriOr(metadata: map<string, string>, key: string, alternate: Option<Uri>, runtime: Runtime): (r: Result<Option<Uri>, ConstructionError>)
    ensures r.Success? <==> UriConverts(GetValueFromMetadata(metadata, key, runtime), runtime)
    ensures r.Failure? ==> r.error == UriFormat(GetValueFromMetadata(metadata, key, runtime).value)
    ensures GetValueFromMetadata(metadata, key, runtime) in {None, Some("")} ==> r == Success(alternate)
    ensures GetValueFromMetadata(metadata, key, runtime) !in {None, Some("")} && r.Success? ==>
      r.value.Some? && runtime.newUri(GetValueFromMetadata(metadata, key, runtime).value) == r.value
  {
    var value := GetValueOr(metadata, key, None, runtime);
    if value.Some? && value.value != "" then
      match runtime.newUri(value.value)
      case Some(uri) => Success(Some(uri))
      case None => Failure(UriFormat(value.value))
    else
      Success(alternate)
  }

  // ---------------------------------------------------------------------
  // Authors

  /** `string.Split(',')`: the pieces between commas, empty ones included. */
  function Split(s: string): (parts: seq<string>)
    ensures |parts| >= 1
    ensures forall i | 0 <= i < |parts| :: ',' !in parts[i]
    decreases |s|
  {
    if s == [] then [""]
    else if s[0] == ',' then [""] + Split(s[1..])
    else
      var rest := Split(s[1..]);
      [[s[0]] + rest[0]] + rest[1..]
  }

  /** `string.Join(",", parts)`. */
  function Join(parts: seq<string>): string
    decreases |parts|
  {
    if |parts| == 0 then ""
    else if |parts| == 1 then parts[0]
    else parts[0] + "," + Join(parts[1..])
  }

  /** Joining the pieces with commas gives back the string that was split. */
  lemma {:induction false} JoinSplit(s: string)
    ensures Join(Split(s)) == s
    decreases |s|
  {
    if s != [] {
      JoinSplit(s[1..]);
      var rest := Split(s[1..]);
      if s[0] == ',' {
        assert Split(s) == [""] + rest;
        assert ([""] + rest)[1..] == rest;
      } else {
        var parts := Split(s);
        assert parts == [[s[0]] + rest[0]] + rest[1..];
        if |rest| > 1 {
          assert parts[1..] == rest[1..];
        }
      }
    }
  }

  /** Splitting comma-free pieces joined with commas gives back the pieces. */
  lemma {:induction false} SplitJoin(parts: seq<string>)
    requires |parts| >= 1
    requires forall i | 0 <= i < |parts| :: ',' !in parts[i]
    ensures Split(Join(parts)) == parts
    decreases |parts|, |parts[0]|
  {
    if |parts| == 1 {
      SplitPiece(parts[0]);
    } else {
      var tail := parts[1..];
      SplitJoin(tail);
      SplitPieceThenComma(parts[0], Join(tail));
      assert Join(parts) == parts[0] + "," + Join(tail);
      assert [parts[0]] + tail == parts;
    }
  }

  lemma {:induction false} SplitPiece(p: string)
    requires ',' !in p
    ensures Split(p) == [p]
    decreases |p|
  {
    if p != [] {
      SplitPiece(p[1..]);
      assert [p[0]] + p[1..] == p;
    }
  }

  /** A comma-free piece, a comma and a rest split into the piece followed
      by the split of the rest. */
  lemma {:induction false} SplitPieceThenComma(p: string, rest: string)
    requires ',' !in p
    ensures Split(p + "," + rest) == [p] + Split(rest)
    decreases |p|
  {
    var s := p + "," + rest;
    if p == [] {
      assert s[0] == ',' && s[1..] == rest;
    } else {
      assert s[0] == p[0] && s[1..] == p[1..] + "," + rest;
      SplitPieceThenComma(p[1..], rest);
      assert [p[0]] + p[1..] == p;
    }
  }

  // ---------------------------------------------------------------------
  // Properties

  /** The typed properties of a package, null references as `None`. */
  datatype Properties = Properties(
    id: string,
    version: Option<NuGetVersion>,
    minClientVersion: Option<NuGetVersion>,
    iconUrl: Option<Uri>,
    projectUrl: Option<Uri>,
    licenseUrl: Option<Uri>,
    copyright: Option<string>,
    description: Option<string>,
    releaseNotes: Option<string>,
    requireLicenseAcceptance: bool,
    summary: Option<string>,
    title: Option<string>,
    tags: Option<string>,
    authors: seq<string>,
    owners: Option<string>,
    language: Option<string>)

  /** The text `Authors` is split from: `authors`, else `owners`, else "". */
  function AuthorsText(metadata: map<string, string>, runtime: Runtime): string {
    GetValueFromMetadata(metadata, "authors", runtime).GetOr(GetValueFromMetadata(metadata, "owners", runtime).GetOr(""))
  }

  /** `bool.Parse` accepts the value under `requireLicenseAcceptance`, or
      there is none. */
  predicate BoolConverts(metadata: map<string, string>, runtime: Runtime) {
    GetValueFromMetadata(metadata, "requireLicenseAcceptance", runtime).None? ||
    ParseBool(GetValueFromMetadata(metadata, "requireLicenseAcceptance", runtime).value).Some?
  }

  /** None of the conversions of `SetPropertiesFromMetadata` throws. */
  predicate ConversionsSucceed(metadata: map<string, string>, runtime: Runtime) {
    && UriConverts(GetValueFromMetadata(metadata, "iconUrl", runtime), runtime)
    && UriConverts(GetValueFromMetadata(metadata, "projectUrl", runtime), runtime)
    && UriConverts(GetValueFromMetadata(metadata, "licenseUrl", runtime), runtime)
    && BoolConverts(metadata, runtime)
  }

  /** The properties `SetPropertiesFromMetadata` assigns from the copy when
      none of its conversions throws. */
  function PropertiesFrom(metadata: map<string, string>, runtime: Runtime): (p: Properties)
    requires ConversionsSucceed(metadata, runtime)
    ensures p.id == GetValueFromMetadata(metadata, "id", runtime).GetOr("")
    ensures p.version == runtime.tryParseVersion(GetValueFromMetadata(metadata, "version", runtime).GetOr(""))
    ensures p.minClientVersion == runtime.tryParseVersion(GetValueFromMetadata(metadata, "minClientVersion", runtime).GetOr(""))
    ensures p.iconUrl.None? <==> GetValueFromMetadata(metadata, "iconUrl", runtime) in {None, Some("")}
    ensures p.iconUrl.Some? ==> runtime.newUri(GetValueFromMetadata(metadata, "iconUrl", runtime).value) == p.iconUrl
    ensures p.projectUrl.None? <==> GetValueFromMetadata(metadata, "projectUrl", runtime) in {None, Some("")}
    ensures p.projectUrl.Some? ==> runtime.newUri(GetValueFromMetadata(metadata, "projectUrl", runtime).value) == p.projectUrl
    ensures p.licenseUrl.None? <==> GetValueFromMetadata(metadata, "licenseUrl", runtime) in {None, Some("")}
    ensures p.licenseUrl.Some? ==> runtime.newUri(GetValueFromMetadata(metadata, "licenseUrl", runtime).value) == p.licenseUrl
    ensures p.copyright == GetValueFromMetadata(metadata, "copyright", runtime)
    ensures p.description == GetValueFromMetadata(metadata, "description", runtime)
    ensures p.releaseNotes == GetValueFromMetadata(metadata, "releaseNotes", runtime)
    ensures p.summary == GetValueFromMetadata(metadata, "summary", runtime)
    ensures p.title == GetValueFromMetadata(metadata, "title", runtime)
    ensures p.tags == GetValueFromMetadata(metadata, "tags", runtime)
    ensures p.language == GetValueFromMetadata(metadata, "language", runtime)
    ensures p.requireLicenseAcceptance <==>
      GetValueFromMetadata(metadata, "requireLicenseAcceptance", runtime).Some? &&
      ParseBool(GetValueFromMetadata(metadata, "requireLicenseAcceptance", runtime).value) == Some(true)
    ensures p.owners == GetValueFromMetadata(metadata, "owners", runtime)
    ensures p.authors == Split(AuthorsText(metadata, runtime))
  {
    var owners := GetValueOr(metadata, "owners", None, runtime);
    Properties(
      id := GetValueOr(metadata, "id", Some(""), runtime).value,
      version := runtime.tryParseVersion(GetValueOr(metadata, "version", Some(""), runtime).value),
      minClientVersion := runtime.tryParseVersion(GetValueOr(metadata, "minClientVersion", Some(""), runtime).value),
      iconUrl := GetUriOr(metadata, "iconUrl", None, runtime).value,
      projectUrl := GetUriOr(metadata, "projectUrl", None, runtime).value,
      licenseUrl := GetUriOr(metadata, "licenseUrl", None, runtime).value,
      copyright := GetValueOr(metadata, "copyright", None, runtime),
      description := GetValueOr(metadata, "description", None, runtime),
      releaseNotes := GetValueOr(metadata, "releaseNotes", None, runtime),
      requireLicenseAcceptance := GetBoolOr(metadata, "requireLicenseAcceptance", false, runtime).value,
      summary := GetValueOr(metadata, "summary", None, runtime),
      title := GetValueOr(metadata, "title", None, runtime),
      tags := GetValueOr(metadata, "tags", None, runtime),
      authors := Split(GetValueOr(metadata, "authors", Some(owners.GetOr("")), runtime).value),
      owners := owners,
      language := GetValueOr(metadata, "language", None, runtime))
  }

  /** A record whose every field is the one `PropertiesFrom` computes is
      `PropertiesFrom` itself. */
  lemma FieldsDetermineProperties(metadata: map<string, string>, runtime: Runtime, p: Properties)
    requires ConversionsSucceed(metadata, runtime)
    requires p.id == GetValueOr(metadata, "id", Some(""), runtime).value
    requires p.version == runtime.tryParseVersion(GetValueOr(metadata, "version", Some(""), runtime).value)
    requires p.minClientVersion == runtime.tryParseVersion(GetValueOr(metadata, "minClientVersion", Some(""), runtime).value)
    requires p.iconUrl == GetUriOr(metadata, "iconUrl", None, runtime).value
    requires p.projectUrl == GetUriOr(metadata, "projectUrl", None, runtime).value
    requires p.licenseUrl == GetUriOr(metadata, "licenseUrl", None, runtime).value
    requires p.copyright == GetValueOr(metadata, "copyright", None, runtime)
    requires p.description == GetValueOr(metadata, "description", None, runtime)
    requires p.releaseNotes == GetValueOr(metadata, "releaseNotes", None, runtime)
    requires p.requireLicenseAcceptance == GetBoolOr(metadata, "requireLicenseAcceptance", false, runtime).value
    requires p.summary == GetValueOr(metadata, "summary", None, runtime)
    requires p.title == GetValueOr(metadata, "title", None, runtime)
    requires p.tags == GetValueOr(metadata, "tags", None, runtime)
    requires p.owners == GetValueOr(metadata, "owners", None, runtime)
    requires p.authors == Split(GetValueOr(metadata, "authors", Some(p.owners.GetOr("")), runtime).value)
    requires p.language == GetValueOr(metadata, "language", None, runtime)
    ensures p == PropertiesFrom(metadata, runtime)
  {
  }

  /** What `SetPropertiesFromMetadata` leaves behind: the properties, or the
      exception of the first conversion that throws (the icon, project and
      license URLs, then the license-acceptance flag). */
  function ProjectProperties(metadata: map<string, string>, runtime: Runtime): (r: Result<Properties, ConstructionError>)
    ensures r.Success? <==> ConversionsSucceed(metadata, runtime)
    ensures r.Success? ==> r.value == PropertiesFrom(metadata, runtime)
    ensures !UriConverts(GetValueFromMetadata(metadata, "iconUrl", runtime), runtime) ==>
      r == Failure(UriFormat(GetValueFromMetadata(metadata, "iconUrl", runtime).value))
    ensures UriConverts(GetValueFromMetadata(metadata, "iconUrl", runtime), runtime) &&
            !UriConverts(GetValueFromMetadata(metadata, "projectUrl", runtime), runtime) ==>
      r == Failure(UriFormat(GetValueFromMetadata(metadata, "projectUrl", runtime).value))
    ensures UriConverts(GetValueFromMetadata(metadata, "iconUrl", runtime), runtime) &&
            UriConverts(GetValueFromMetadata(metadata, "projectUrl", runtime), runtime) &&
            !UriConverts(GetValueFromMetadata(metadata, "licenseUrl", runtime), runtime) ==>
      r == Failure(UriFormat(GetValueFromMetadata(metadata, "licenseUrl", runtime).value))
    ensures UriConverts(GetValueFromMetadata(metadata, "iconUrl", runtime), runtime) &&
            UriConverts(GetValueFromMetadata(metadata, "projectUrl", runtime), runtime) &&
            UriConverts(GetValueFromMetadata(metadata, "licenseUrl", runtime), runtime) &&
            !BoolConverts(metadata, runtime) ==>
      r == Failure(BoolFormat(GetValueFromMetadata(metadata, "requireLicenseAcceptance", runtime).value))
  {
    var _ :- GetUriOr(metadata, "iconUrl", None, runtime);
    var _ :- GetUriOr(metadata, "projectUrl", None, runtime);
    var _ :- GetUriOr(metadata, "licenseUrl", None, runtime);
    var _ :- GetBoolOr(metadata, "requireLicenseAcceptance", false, runtime);
    Success(PropertiesFrom(metadata, runtime))
  }

  /** The constructor returns normally on `block`. */
  predicate Constructible(block: map<string, string>, runtime: Runtime) {
    CaseInsensitiveCopy(block, runtime).Success? &&
    ConversionsSucceed(CaseInsensitiveCopy(block, runtime).value, runtime)
  }

  // ---------------------------------------------------------------------
  // Properties of the projection

  /** Lookup in the copy ignores case: a key equal under the comparer to a
      key of the block finds the value stored under the block's own
      spelling. */
  lemma LookupIgnoresCase(block: map<string, string>, runtime: Runtime, k: string, key: string)
    requires KeysDistinctIgnoringCase(block, runtime)
    requires k in block && SameKeyIgnoringCase(runtime, k, key)
    ensures GetValueFromMetadata(CaseInsensitiveCopy(block, runtime).value, key, runtime) == Some(block[k])
  {
    CaseInsensitiveCopyContents(block, runtime);
  }

  /** A key equal under the comparer to no key of the block finds nothing. */
  lemma LookupOfAbsentKey(block: map<string, string>, runtime: Runtime, key: string)
    requires KeysDistinctIgnoringCase(block, runtime)
    requires forall k | k in block :: !SameKeyIgnoringCase(runtime, k, key)
    ensures GetValueFromMetadata(CaseInsensitiveCopy(block, runtime).value, key, runtime) == None
  {
    CaseInsensitiveCopyContents(block, runtime);
  }

  /** `Authors` is never empty, no author contains a comma, and joining the
      authors with commas gives back `authors` (else `owners`, else ""). */
  lemma AuthorsSplitFromText(metadata: map<string, string>, runtime: Runtime)
    requires ConversionsSucceed(metadata, runtime)
    ensures var authors := PropertiesFrom(metadata, runtime).authors;
      && |authors| >= 1
      && (forall i | 0 <= i < |authors| :: ',' !in authors[i])
      && Join(authors) == AuthorsText(metadata, runtime)
  {
    JoinSplit(AuthorsText(metadata, runtime));
  }

  /** With no `authors` key, the authors are split from `owners`. */
  lemma AuthorsFallBackToOwners(block: map<string, string>, runtime: Runtime, owners: string)
    requires Constructible(block, runtime)
    requires owners in block && SameKeyIgnoringCase(runtime, owners, "owners")
    requires forall k | k in block :: !SameKeyIgnoringCase(runtime, k, "authors")
    ensures PropertiesFrom(CaseInsensitiveCopy(block, runtime).value, runtime).authors == Split(block[owners])
  {
    LookupIgnoresCase(block, runtime, owners, "owners");
    LookupOfAbsentKey(block, runtime, "authors");
  }

  /** With neither `authors` nor `owners`, the authors are one empty name,
      the split of the empty string. */
  lemma AuthorsDefaultToOneEmptyName(block: map<string, string>, runtime: Runtime)
    requires Constructible(block, runtime)
    requires forall k | k in block :: !SameKeyIgnoringCase(runtime, k, "authors")
    requires forall k | k in block :: !SameKeyIgnoringCase(runtime, k, "owners")
    ensures PropertiesFrom(CaseInsensitiveCopy(block, runtime).value, runtime).authors == [""]
  {
    LookupOfAbsentKey(block, runtime, "authors");
    LookupOfAbsentKey(block, runtime, "owners");
  }

  /** The comma split of "Alice,Bob" is two names. */
  lemma AliceAndBobAreTwoAuthors()
    ensures Split("Alice,Bob") == ["Alice", "Bob"]
  {
    SplitPieceThenComma("Alice", "Bob");
    SplitPiece("Bob");
    assert "Alice" + "," + "Bob" == "Alice,Bob";
  }

  // Examples, for the comparer on ASCII keys.

  /** The validator asks for "IconUrl" and finds what the manifest stored
      under "iconUrl". */
  lemma IconUrlFoundWhateverTheCase(value: string, runtime: Runtime)
    requires IgnoresAsciiCase(runtime)
    ensures var block := map["iconUrl" := value];
      GetValueFromMetadata(CaseInsensitiveCopy(block, runtime).value, "IconUrl", runtime) == Some(value)
  {
    var block := map["iconUrl" := value];
    assert KeysDistinctIgnoringCase(block, runtime);
    assert FoldCase("iconUrl") == FoldCase("IconUrl");
    LookupIgnoresCase(block, runtime, "iconUrl", "IconUrl");
  }

  /** A block of one key is copied under that key's key. */
  lemma SingleKeyCopy(k: string, v: string, runtime: Runtime)
    ensures CaseInsensitiveCopy(map[k := v], runtime) == Success(map[runtime.ignoreCaseKey(k) := v])
  {
    var block := map[k := v];
    assert KeysDistinctIgnoringCase(block, runtime);
    var copy := CaseInsensitiveCopy(block, runtime).value;
    CaseInsensitiveCopyContents(block, runtime);
    assert k in block;
    forall key | key in copy
      ensures key == runtime.ignoreCaseKey(k)
    {
      var k' :| k' in block && runtime.ignoreCaseKey(k') == key;
    }
    assert copy == map[runtime.ignoreCaseKey(k) := v];
  }

  /** In the copy of a one-key block, a key of another length finds nothing. */
  lemma SingleKeyLookupOfOtherLength(k: string, v: string, key: string, runtime: Runtime)
    requires IgnoresAsciiCase(runtime)
    requires |key| != |k|
    ensures GetValueFromMetadata(map[runtime.ignoreCaseKey(k) := v], key, runtime) == None
  {
    assert runtime.ignoreCaseKey(k) == FoldCase(k) && runtime.ignoreCaseKey(key) == FoldCase(key);
  }

  /** A `requireLicenseAcceptance` of "maybe" aborts construction. */
  lemma RequireLicenseAcceptanceMustBeBoolean(runtime: Runtime)
    requires IgnoresAsciiCase(runtime)
    ensures var block := map["requireLicenseAcceptance" := "maybe"];
      && CaseInsensitiveCopy(block, runtime).Success?
      && ProjectProperties(CaseInsensitiveCopy(block, runtime).value, runtime) == Failure(BoolFormat("maybe"))
  {
    var key := "requireLicenseAcceptance";
    SingleKeyCopy(key, "maybe", runtime);
    var copy := map[runtime.ignoreCaseKey(key) := "maybe"];
    SingleKeyLookupOfOtherLength(key, "maybe", "iconUrl", runtime);
    SingleKeyLookupOfOtherLength(key, "maybe", "projectUrl", runtime);
    SingleKeyLookupOfOtherLength(key, "maybe", "licenseUrl", runtime);
    assert GetValueFromMetadata(copy, key, runtime) == Some("maybe");
    MaybeIsNotABoolean();
    assert !BoolConverts(copy, runtime);
  }

  /** A block whose only key is `owners`, holding "Alice,Bob", constructs,
      and its package has the two authors Alice and Bob. */
  lemma OwnersAliceAndBobMakeTwoAuthors(runtime: Runtime)
    requires IgnoresAsciiCase(runtime)
    ensures var block := map["owners" := "Alice,Bob"];
      && Constructible(block, runtime)
      && PropertiesFrom(CaseInsensitiveCopy(block, runtime).value, runtime).authors == ["Alice", "Bob"]
  {
    var block := map["owners" := "Alice,Bob"];
    SingleKeyCopy("owners", "Alice,Bob", runtime);
    var copy := map[runtime.ignoreCaseKey("owners") := "Alice,Bob"];
    SingleKeyLookupOfOtherLength("owners", "Alice,Bob", "iconUrl", runtime);
    SingleKeyLookupOfOtherLength("owners", "Alice,Bob", "projectUrl", runtime);
    SingleKeyLookupOfOtherLength("owners", "Alice,Bob", "licenseUrl", runtime);
    SingleKeyLookupOfOtherLength("owners", "Alice,Bob", "requireLicenseAcceptance", runtime);
    assert ConversionsSucceed(copy, runtime);
    assert !SameKeyIgnoringCase(runtime, "owners", "authors") by {
      assert |FoldCase("owners")| != |FoldCase("authors")|;
    }
    AuthorsFallBackToOwners(block, runtime, "owners");
    AliceAndBobAreTwoAuthors();
  }

  lemma MaybeIsNotABoolean()
    ensures ParseBool("maybe") == None
  {
    TrimKeepsUnpadded("maybe");
    assert !EqualsIgnoringAsciiCase("maybe", "True") && !EqualsIgnoringAsciiCase("maybe", "False") by {
      assert |FoldCase("maybe")| != |FoldCase("True")|;
      assert FoldCase("maybe")[0] != FoldCase("False")[0];
    }
  }

  // ---------------------------------------------------------------------
  // The object

  /** `PackageMetadata`. The copy and the groups are read-only; the
      properties have private setters used only while constructing, except
      `MinClientVersion`, which is public. */
  class PackageMetadata {
    const metadata: map<string, string>
    const dependencyGroups: seq<PackageDependencyGroup>
    const frameworkReferenceGroups: seq<FrameworkSpecificGroup>
    const runtime: Runtime
    /** The properties as projected from the copy at construction. */
    ghost const projected: Properties

    var id: string
    var version: Option<NuGetVersion>
    var iconUrl: Option<Uri>
    var projectUrl: Option<Uri>
    var licenseUrl: Option<Uri>
    var copyright: Option<string>
    var description: Option<string>
    var releaseNotes: Option<string>
    var requireLicenseAcceptance: bool
    var summary: Option<string>
    var title: Option<string>
    var tags: Option<string>
    var authors: seq<string>
    var owners: Option<string>
    var language: Option<string>
    var minClientVersion: Option<NuGetVersion>

    /** The current values of the properties. */
    function Snapshot(): Properties
      reads this
    {
      Properties(id, version, minClientVersion, iconUrl, projectUrl, licenseUrl, copyright,
                 description, releaseNotes, requireLicenseAcceptance, summary, title, tags,
                 authors, owners, language)
    }

    /** Every property is the one projected from the copy, except
        `MinClientVersion`, which a caller may have set since. */
    ghost predicate Valid()
      reads this
    {
      Snapshot() == projected.(minClientVersion := minClientVersion)
    }

    /** `GetDependencyGroups`: the groups given to the constructor. */
    function GetDependencyGroups(): seq<PackageDependencyGroup> {
      dependencyGroups
    }

    /** `GetFrameworkReferenceGroups`: the groups given to the constructor. */
    function GetFrameworkReferenceGroups(): seq<FrameworkSpecificGroup> {
      frameworkReferenceGroups
    }

    constructor (metadata: map<string, string>, dependencyGroups: seq<PackageDependencyGroup>,
                 frameworkGroups: seq<FrameworkSpecificGroup>, runtime: Runtime)
      requires Constructible(metadata, runtime)
      ensures this.metadata == CaseInsensitiveCopy(metadata, runtime).value
      ensures GetDependencyGroups() == dependencyGroups
      ensures GetFrameworkReferenceGroups() == frameworkGroups
      ensures this.runtime == runtime
      ensures projected == PropertiesFrom(this.metadata, runtime)
      ensures Valid()
      ensures Snapshot() == projected
    {
      var copy := CaseInsensitiveCopy(metadata, runtime).value;
      this.metadata := copy;
      this.dependencyGroups := dependencyGroups;
      this.frameworkReferenceGroups := frameworkGroups;
      this.runtime := runtime;
      this.projected := PropertiesFrom(copy, runtime);
      new;
      SetPropertiesFromMetadata();
      assert Snapshot() == projected;
    }

    /** Reads the properties one after another from the copy and assigns them. */
    method SetPropertiesFromMetadata()
      requires ConversionsSucceed(metadata, runtime)
      modifies this
      ensures Snapshot() == PropertiesFrom(metadata, runtime)
    {
      var newId := GetValueOr(metadata, "id", Some(""), runtime).value;
      // A version that does not parse leaves the property null, as the
      // constructor left it.
      var newVersion := None;
      var parsed := runtime.tryParseVersion(GetValueOr(metadata, "version", Some(""), runtime).value);
      if parsed.Some? {
        newVersion := parsed;
      }
      var newMinClientVersion := None;
      parsed := runtime.tryParseVersion(GetValueOr(metadata, "minClientVersion", Some(""), runtime).value);
      if parsed.Some? {
        newMinClientVersion := parsed;
      }
      var newIconUrl := GetUriOr(metadata, "iconUrl", None, runtime).value;
      var newProjectUrl := GetUriOr(metadata, "projectUrl", None, runtime).value;
      var newLicenseUrl := GetUriOr(metadata, "licenseUrl", None, runtime).value;
      var newCopyright := GetValueOr(metadata, "copyright", None, runtime);
      var newDescription := GetValueOr(metadata, "description", None, runtime);
      var newReleaseNotes := GetValueOr(metadata, "releaseNotes", None, runtime);
      var newRequireLicenseAcceptance := GetBoolOr(metadata, "requireLicenseAcceptance", false, runtime).value;
      var newSummary := GetValueOr(metadata, "summary", None, runtime);
      var newTitle := GetValueOr(metadata, "title", None, runtime);
      var newTags := GetValueOr(metadata, "tags", None, runtime);
      var newLanguage := GetValueOr(metadata, "language", None, runtime);
      var newOwners := GetValueOr(metadata, "owners", None, runtime);
      var authorsString := GetValueOr(metadata, "authors", Some(newOwners.GetOr("")), runtime).value;
      var newAuthors := Split(authorsString);
      var p := Properties(newId, newVersion, newMinClientVersion, newIconUrl, newProjectUrl, newLicenseUrl,
                          newCopyright, newDescription, newReleaseNotes, newRequireLicenseAcceptance,
                          newSummary, newTitle, newTags, newAuthors, newOwners, newLanguage);
      FieldsDetermineProperties(metadata, runtime, p);

      SetProperties(p);
    }

    /** The private setters, applied to every property, in the order of
        `SetPropertiesFromMetadata`. */
    method SetProperties(p: Properties)
      modifies this
      ensures Snapshot() == p
    {
      SetIdentity(p);
      SetUrls(p);
      SetDescriptiveText(p);
      SetAuthorship(p);
      assert Snapshot() == Properties(p.id, p.version, p.minClientVersion, p.iconUrl, p.projectUrl, p.licenseUrl,
                                      p.copyright, p.description, p.releaseNotes, p.requireLicenseAcceptance,
                                      p.summary, p.title, p.tags, p.authors, p.owners, p.language);
    }

    method SetIdentity(p: Properties)
      modifies this`id, this`version, this`minClientVersion
      ensures id == p.id && version == p.version && minClientVersion == p.minClientVersion
    {
      id := p.id;
      version := p.version;
      minClientVersion := p.minClientVersion;
    }

    method SetUrls(p: Properties)
      modifies this`iconUrl, this`projectUrl, this`licenseUrl
      ensures iconUrl == p.iconUrl && projectUrl == p.projectUrl && licenseUrl == p.licenseUrl
    {
      iconUrl := p.iconUrl;
      projectUrl := p.projectUrl;
      licenseUrl := p.licenseUrl;
    }

    method SetDescriptiveText(p: Properties)
      modifies this`copyright, this`description, this`releaseNotes, this`requireLicenseAcceptance,
               this`summary, this`title, this`tags, this`language
      ensures copyright == p.copyright && description == p.description && releaseNotes == p.releaseNotes
      ensures requireLicenseAcceptance == p.requireLicenseAcceptance
      ensures summary == p.summary && title == p.title && tags == p.tags && language == p.language
    {
      copyright := p.copyright;
      description := p.description;
      releaseNotes := p.releaseNotes;
      requireLicenseAcceptance := p.requireLicenseAcceptance;
      summary := p.summary;
      title := p.title;
      tags := p.tags;
      language := p.language;
    }

    method SetAuthorship(p: Properties)
      modifies this`owners, this`authors
      ensures owners == p.owners && authors == p.authors
    {
      owners := p.owners;
      authors := p.authors;
    }

    /** The public `MinClientVersion` setter: that property changes and no
        other. */
    method SetMinClientVersion(v: Option<NuGetVersion>)
      requires Valid()
      modifies this`minClientVersion
      ensures Valid()
      ensures minClientVersion == v
      ensures Snapshot() == old(Snapshot()).(minClientVersion := v)
    {
      minClientVersion := v;
    }

    /** The constructor together with its two ways of throwing. */
    static method Create(metadata: map<string, string>, dependencyGroups: seq<PackageDependencyGroup>,
                         frameworkGroups: seq<FrameworkSpecificGroup>, runtime: Runtime)
      returns (r: Result<PackageMetadata, ConstructionError>)
      ensures r.Success? <==> Constructible(metadata, runtime)
      ensures CaseInsensitiveCopy(metadata, runtime).Failure? ==> r == Failure(KeysDifferOnlyInCase)
      ensures CaseInsensitiveCopy(metadata, runtime).Success? && r.Failure? ==>
        r == Failure(ProjectProperties(CaseInsensitiveCopy(metadata, runtime).value, runtime).error)
      ensures r.Success? ==>
        && fresh(r.value)
        && r.value.Valid()
        && r.value.metadata == CaseInsensitiveCopy(metadata, runtime).value
        && r.value.GetDependencyGroups() == dependencyGroups
        && r.value.GetFrameworkReferenceGroups() == frameworkGroups
        && r.value.projected == PropertiesFrom(r.value.metadata, runtime)
        && r.value.Snapshot() == r.value.projected
    {
      var copy := CaseInsensitiveCopy(metadata, runtime);
      if copy.Failure? {
        return Failure(copy.error);
      }
      var properties := ProjectProperties(copy.value, runtime);
      if properties.Failure? {
        return Failure(properties.error);
      }
      var created := new PackageMetadata(metadata, dependencyGroups, frameworkGroups, runtime);
      return Success(created);
    }
  }
}
