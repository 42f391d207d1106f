# NuGet Gallery manifest metadata check, modelled in Dafny

Before NuGet Gallery publishes a package, it checks the metadata block of the package's manifest (`.nuspec`). This project models that check and proves properties of it. The check has three parts.

- **`PackageMetadata`** (module `Metadata`, file `PackageMetadata.dfy`). This part builds the typed view of a metadata block.
  - The block is copied into a dictionary that compares keys without regard to case. Two keys that differ only in case make the copy throw.
  - Each property is read from that copy, with a default for an absent key.
    - A version string that does not parse leaves its version null.
    - A malformed URL string makes construction throw, and so does a malformed `requireLicenseAcceptance` string.
  - `Authors` is the comma split of `authors`. When `authors` is absent it falls back to `owners`, and then to `""`.
  - The object is a class.
    - Its constructor is tied to a pure projection, `PropertiesFrom`.
    - `Create` adds the constructor's two ways of throwing, as a `Result`.
    - `SetMinClientVersion` is the one public setter.
- **`ManifestValidator`** (file `ManifestValidator.dfy`). `Validate` returns no findings for an absent or empty block. Otherwise it builds the package and runs a fixed sequence of checks:
  - the ID: missing, then longer than 100 UTF-16 code units, then invalid syntax;
  - one URL check each for `IconUrl`, `ProjectUrl` and `LicenseUrl`, in that order;
  - the version: missing.

  Each problem found is one `Finding`. The dependency and framework checks are disabled in the original, so the groups are read and ignored.
- **The package-ID syntax** (module `PackageIdValidator`). NuGet's `PackageIdValidator` is not part of this model. `IsValidPackageId` is a predicate that agrees with every example of `PackageIdValidatorTest.cs`: ASCII letter-or-digit segments joined by single `.`, `_` or `-`. It is proved equal to a declarative statement of the tested rules. It is not claimed to be NuGet's exact rule.

The model does not define the library calls the original makes. They are fields of a `Runtime` value passed to every operation, so each proof holds whatever they do:
- the key under which `StringComparer.OrdinalIgnoreCase` compares strings;
- `NuGetVersion.TryParse`;
- the `Uri(string)` constructor;
- `Uri.TryCreate(_, UriKind.Absolute, _)`.

The examples fix the comparer to ASCII case folding (`IgnoresAsciiCase`).

Three behaviours of the source are easy to miss:
- Keys that differ only in case make construction fail: the copy at PackageMetadata.cs:23 throws.
- `bool.Parse` accepts white space around `true`/`false`.
- The ID limit of 100 counts UTF-16 code units (`string.Length`), so a character outside the Basic Multilingual Plane counts twice.

## Model

| member | source | states |
|---|---|---|
| `PackageIdValidator.MaxPackageIdLength` | src/NuGetGallery.Core/Packaging/ManifestValidator.cs:16 | The NuGet limit of 100 that the validator's constant copies. `PackageIdValidator.ValidatePackageId` reports the length exactly above it. |
| `PackageIdValidator.IsValidPackageId` | src/NuGetGallery.Core/Packaging/ManifestValidator.cs:43 | No contract of its own: `PackageIdValidator.ValidPackageIdCharacterization` states that it accepts exactly the IDs meeting the tested rules. |
| `PackageIdValidator.SegmentsFromCharacterization` | tests/NuGetGallery.Core.Facts/Packaging/PackageIdValidatorTest.cs:33-158 | The left-to-right recogniser accepts a suffix exactly when that suffix meets the tested rules: non-empty, only letters, digits and separators, no separator first or last, no two separators side by side. |
| `PackageIdValidator.ValidPackageIdCharacterization` | tests/NuGetGallery.Core.Facts/Packaging/PackageIdValidatorTest.cs:33-158 | `IsValidPackageId` holds exactly for IDs meeting those rules (both directions). |
| `PackageIdValidator.LettersAndDigitsAreValid` | tests/NuGetGallery.Core.Facts/Packaging/PackageIdValidatorTest.cs:57-67 | Every non-empty run of letters and digits is a valid ID. |
| `PackageIdValidator.JoinedBySeparatorIsValid` | tests/NuGetGallery.Core.Facts/Packaging/PackageIdValidatorTest.cs:70-106 | Two valid IDs joined by one `.`, `_` or `-` form a valid ID. |
| `PackageIdValidator.ValidatePackageId` | tests/NuGetGallery.Core.Facts/Packaging/PackageIdValidatorTest.cs:160-182 | It returns normally exactly for IDs of at most 100 UTF-16 code units that meet the rules. It reports the length exactly when the ID is over 100 code units. It reports invalid characters, carrying the ID, exactly for IDs within the limit that break the rules. |
| `PackageIdValidator.EmptyIsNotValid` | tests/NuGetGallery.Core.Facts/Packaging/PackageIdValidatorTest.cs:33-43 | `""` is not a valid ID. |
| `PackageIdValidator.AlphaNumericIsValid` | tests/NuGetGallery.Core.Facts/Packaging/PackageIdValidatorTest.cs:57-67 | `42This1Is4You` is valid. |
| `PackageIdValidator.MultipleDotSeparatorsAllowed` | tests/NuGetGallery.Core.Facts/Packaging/PackageIdValidatorTest.cs:70-80 | `I.Like.Writing.Unit.Tests` is valid. |
| `PackageIdValidator.NumbersAndWordsDotSeparatedAllowed` | tests/NuGetGallery.Core.Facts/Packaging/PackageIdValidatorTest.cs:83-93 | `1.2.3.4.Uno.Dos.Tres.Cuatro` is valid. |
| `PackageIdValidator.UnderscoreDotAndDashSeparatorsAreValid` | tests/NuGetGallery.Core.Facts/Packaging/PackageIdValidatorTest.cs:96-106 | `Nu_Get.Core-IsCool` is valid. |
| `PackageIdValidator.NonAlphaNumericUnderscoreDotDashIsInvalid` | tests/NuGetGallery.Core.Facts/Packaging/PackageIdValidatorTest.cs:109-119 | `ILike*Asterisks` is not valid. |
| `PackageIdValidator.ConsecutiveSeparatorsNotAllowed` | tests/NuGetGallery.Core.Facts/Packaging/PackageIdValidatorTest.cs:122-132 | `I_.Like.-Separators` is not valid. |
| `PackageIdValidator.StartingWithSeparatorsNotAllowed` | tests/NuGetGallery.Core.Facts/Packaging/PackageIdValidatorTest.cs:135-145 | `-StartWithSeparator` is not valid. |
| `PackageIdValidator.EndingWithSeparatorsNotAllowed` | tests/NuGetGallery.Core.Facts/Packaging/PackageIdValidatorTest.cs:148-158 | `StartWithSeparator.` is not valid. |
| `PackageIdValidator.Repeat` | tests/NuGetGallery.Core.Facts/Packaging/PackageIdValidatorTest.cs:167 | `new string(c, n)` has length `n` and every character is `c`. |
| `PackageIdValidator.Utf16Length` | src/NuGetGallery.Core/Packaging/ManifestValidator.cs:39 | `string.Length` lies between the number of characters and twice that, and equals the number of characters when all are in the Basic Multilingual Plane. |
| `PackageIdValidator.Utf16LengthAppend` | src/NuGetGallery.Core/Packaging/ManifestValidator.cs:39 | The length of a concatenation is the sum of the lengths of its parts. |
| `PackageIdValidator.Utf16LengthOfCharacter` | src/NuGetGallery.Core/Packaging/ManifestValidator.cs:39 | A single character is two code units exactly when it lies outside the Basic Multilingual Plane, and one otherwise. |
| `PackageIdValidator.Utf16LengthOfRepeat` | tests/NuGetGallery.Core.Facts/Packaging/PackageIdValidatorTest.cs:167 | `new string(c, n)` has length `n`, or `2n` when `c` lies outside the Basic Multilingual Plane. |
| `PackageIdValidator.IdExceedingMaxLengthThrows` | tests/NuGetGallery.Core.Facts/Packaging/PackageIdValidatorTest.cs:160-182 | For every length over 100, not only the tested 101, 102 and 200, a run of `d`s is rejected for its length. |
| `PackageIdValidator.ValidatePackageIdInvalidIdThrows` | tests/NuGetGallery.Core.Facts/Packaging/PackageIdValidatorTest.cs:11-30 | `"  Invalid  . Woo   ."` is rejected for invalid characters, and the rejection carries that ID. |
| `Metadata.CaseInsensitiveCopy` | src/NuGetGallery.Core/Packaging/PackageMetadata.cs:23 | The copy succeeds exactly when no two keys are equal under the comparer. Otherwise it fails with the duplicate-key error. |
| `Metadata.CaseInsensitiveCopyContents` | src/NuGetGallery.Core/Packaging/PackageMetadata.cs:23 | Every entry of the block is in the copy under its comparer key with its value, and every key of the copy comes from a key of the block. |
| `Metadata.GetValueFromMetadata` | src/NuGetGallery.Core/Packaging/PackageMetadata.cs:80-83 | No contract of its own: `Metadata.LookupIgnoresCase` and `Metadata.LookupOfAbsentKey` state what a lookup finds. |
| `Metadata.GetValueOr` | src/NuGetGallery.Core/Packaging/PackageMetadata.cs:95-104 | A non-null default gives a non-null result. |
| `Metadata.LookupIgnoresCase` | src/NuGetGallery.Core/Packaging/PackageMetadata.cs:80-83 | Looking up any spelling that the comparer equates with a key of the block finds that key's value. |
| `Metadata.LookupOfAbsentKey` | src/NuGetGallery.Core/Packaging/PackageMetadata.cs:95-104 | A key that the comparer equates with no key of the block finds null. |
| `Metadata.TrimStart` | src/NuGetGallery.Core/Packaging/PackageMetadata.cs:110 | The result is a suffix of the input and does not begin with white space. Everything removed is white space. |
| `Metadata.TrimEnd` | src/NuGetGallery.Core/Packaging/PackageMetadata.cs:110 | The result is a prefix of the input and does not end with white space. Everything removed is white space. |
| `Metadata.TrimKeepsUnpadded` | src/NuGetGallery.Core/Packaging/PackageMetadata.cs:110 | A non-empty string that neither begins nor ends with white space is left unchanged by trimming. |
| `Metadata.BoolToString` | src/NuGetGallery.Core/Packaging/PackageMetadata.cs:108 | No contract of its own: `Metadata.ParseBoolToString` states that `bool.Parse` gives back the value it writes out. |
| `Metadata.ParseBool` | src/NuGetGallery.Core/Packaging/PackageMetadata.cs:110 | No contract of its own. Its behaviour is stated by:<br>- `Metadata.ParseBoolIgnoresCase`: acceptance of every spelling of `True`/`False`, padded;<br>- `Metadata.ParseBoolAcceptsOnlyPaddedWords`: rejection of everything else;<br>- `Metadata.ParseBoolToString`, `Metadata.ParseBoolIgnoresPadding`, `Metadata.PaddedBoolParses`, `Metadata.LowerCaseFalseParses` and `Metadata.MaybeIsNotABoolean`. |
| `Metadata.ParseBoolToString` | src/NuGetGallery.Core/Packaging/PackageMetadata.cs:108-110 | `bool.Parse(b.ToString())` is `b`, so `GetBoolOr`'s written-out default never fails. |
| `Metadata.ParseBoolIgnoresPadding` | src/NuGetGallery.Core/Packaging/PackageMetadata.cs:110 | White space before and after a word that neither begins nor ends with white space leaves its `bool.Parse` unchanged. |
| `Metadata.PaddedBoolParses` | src/NuGetGallery.Core/Packaging/PackageMetadata.cs:110 | `True` or `False` surrounded by any white space parses as its value. |
| `Metadata.ParseBoolIgnoresCase` | src/NuGetGallery.Core/Packaging/PackageMetadata.cs:110 | `True` or `False` in any mix of case, with any white space around it, parses as its value. |
| `Metadata.ParseBoolAcceptsOnlyPaddedWords` | src/NuGetGallery.Core/Packaging/PackageMetadata.cs:110 | A string that parses as `b` is white space, then `b`'s name in some case, then white space. Every other string is a format error. |
| `Metadata.LowerCaseFalseParses` | src/NuGetGallery.Core/Packaging/PackageMetadata.cs:110 | `false`, as manifests write it, parses as false. |
| `Metadata.MaybeIsNotABoolean` | src/NuGetGallery.Core/Packaging/PackageMetadata.cs:110 | `bool.Parse("maybe")` is a format error. |
| `Metadata.GetBoolOr` | src/NuGetGallery.Core/Packaging/PackageMetadata.cs:106-111 | An absent key gives the default. A present value gives its boolean parse, or a format error. The error records the failing value for the model's own use; .NET's `FormatException` does not carry it. |
| `Metadata.GetUriOr` | src/NuGetGallery.Core/Packaging/PackageMetadata.cs:113-122 | Null or `""` gives the default. Any other value gives `new Uri(value)`. It fails exactly when `new Uri` rejects a non-empty value. The error records that value for the model's own use; `UriFormatException` does not carry it. |
| `Metadata.Split` | src/NuGetGallery.Core/Packaging/PackageMetadata.cs:59 | The split has at least one piece, and no piece contains a comma. |
| `Metadata.JoinSplit` | src/NuGetGallery.Core/Packaging/PackageMetadata.cs:59 | Joining the pieces with commas gives back the string that was split. |
| `Metadata.SplitJoin` | src/NuGetGallery.Core/Packaging/PackageMetadata.cs:59 | Splitting comma-free pieces joined with commas gives back the pieces. |
| `Metadata.SplitPiece` | src/NuGetGallery.Core/Packaging/PackageMetadata.cs:59 | A comma-free string splits into itself alone. |
| `Metadata.SplitPieceThenComma` | src/NuGetGallery.Core/Packaging/PackageMetadata.cs:59 | A comma-free piece, then a comma, then a rest, splits into the piece followed by the split of the rest. |
| `Metadata.PropertiesFrom` | src/NuGetGallery.Core/Packaging/PackageMetadata.cs:30-60 | Each of the sixteen properties relates to its raw value as the setter assigns it:<br>- `Id` is the raw `id` or `""`.<br>- Each version is `TryParse` of its raw string or of `""`.<br>- Each URL is null exactly when its raw value is null or `""`, and otherwise is `new Uri` of the raw value.<br>- `Copyright`, `Description`, `ReleaseNotes`, `Summary`, `Title`, `Tags`, `Language` and `Owners` are the raw values.<br>- `RequireLicenseAcceptance` holds exactly when a value is present and parses as true.<br>- `Authors` is the split of `authors`, else `owners`, else `""`. |
| `Metadata.ProjectProperties` | src/NuGetGallery.Core/Packaging/PackageMetadata.cs:44-50 | The projection succeeds exactly when none of the four conversions throws, and then gives the projected record. Otherwise the error is that of the first conversion to throw, in the order icon URL, project URL, licence URL, licence flag. The error records the offending value for the model's own use. |
| `Metadata.AuthorsSplitFromText` | src/NuGetGallery.Core/Packaging/PackageMetadata.cs:58-59 | `Authors` is never empty and no author contains a comma. Joining the authors with commas gives back `authors`, else `owners`, else `""`. |
| `Metadata.AuthorsFallBackToOwners` | src/NuGetGallery.Core/Packaging/PackageMetadata.cs:56-58 | With no key matching `authors`, the authors are the split of the value under `owners`, whatever its case. |
| `Metadata.AuthorsDefaultToOneEmptyName` | src/NuGetGallery.Core/Packaging/PackageMetadata.cs:58 | With neither `authors` nor `owners`, the authors are `[""]`. |
| `Metadata.AliceAndBobAreTwoAuthors` | src/NuGetGallery.Core/Packaging/PackageMetadata.cs:59 | `"Alice,Bob"` splits into `["Alice", "Bob"]`. |
| `Metadata.OwnersAliceAndBobMakeTwoAuthors` | src/NuGetGallery.Core/Packaging/PackageMetadata.cs:56-59 | Under ASCII case folding, a block whose only key is `owners`, holding `Alice,Bob`, constructs, and its package has the two authors `Alice` and `Bob`. |
| `Metadata.IconUrlFoundWhateverTheCase` | src/NuGetGallery.Core/Packaging/PackageMetadata.cs:80-83 | Under ASCII case folding, asking for `IconUrl` finds the value stored under `iconUrl`. |
| `Metadata.SingleKeyCopy` | src/NuGetGallery.Core/Packaging/PackageMetadata.cs:23 | A one-key block is copied as one entry under that key's comparer key. |
| `Metadata.SingleKeyLookupOfOtherLength` | src/NuGetGallery.Core/Packaging/PackageMetadata.cs:98 | Under ASCII case folding, a key of another length finds nothing in a one-key copy. |
| `Metadata.RequireLicenseAcceptanceMustBeBoolean` | src/NuGetGallery.Core/Packaging/PackageMetadata.cs:50 | A `requireLicenseAcceptance` of `maybe` copies fine but aborts construction with a format error, recorded with the value `maybe`. |
| `Metadata.PackageMetadata.constructor` | src/NuGetGallery.Core/Packaging/PackageMetadata.cs:18-28 | The object holds the case-insensitive copy and the groups unchanged and in order, as the group getters return them. Its properties are the projection of the copy. |
| `Metadata.PackageMetadata.GetDependencyGroups` | src/NuGetGallery.Core/Packaging/PackageMetadata.cs:85-88 | No contract of its own: the constructor's ensures and `Metadata.PackageMetadata.Create` state that it returns the dependency groups given at construction, unchanged and in order. |
| `Metadata.PackageMetadata.GetFrameworkReferenceGroups` | src/NuGetGallery.Core/Packaging/PackageMetadata.cs:90-93 | No contract of its own: the constructor's ensures and `Metadata.PackageMetadata.Create` state that it returns the framework groups given at construction, unchanged and in order. |
| `Metadata.PackageMetadata.SetPropertiesFromMetadata` | src/NuGetGallery.Core/Packaging/PackageMetadata.cs:30-60 | After the field-by-field assignments, the properties are the projection of the copy. |
| `Metadata.PackageMetadata.SetProperties` | src/NuGetGallery.Core/Packaging/PackageMetadata.cs:62-77 | The private setters, applied in turn, leave exactly the given record. |
| `Metadata.PackageMetadata.SetIdentity` | src/NuGetGallery.Core/Packaging/PackageMetadata.cs:32-42 | Sets `Id`, `Version` and `MinClientVersion`, and nothing else. |
| `Metadata.PackageMetadata.SetUrls` | src/NuGetGallery.Core/Packaging/PackageMetadata.cs:44-46 | Sets the three URLs, and nothing else. |
| `Metadata.PackageMetadata.SetDescriptiveText` | src/NuGetGallery.Core/Packaging/PackageMetadata.cs:47-54 | Sets the text properties and the licence flag, and nothing else. |
| `Metadata.PackageMetadata.SetAuthorship` | src/NuGetGallery.Core/Packaging/PackageMetadata.cs:56-59 | Sets `Owners` and `Authors`, and nothing else. |
| `Metadata.PackageMetadata.SetMinClientVersion` | src/NuGetGallery.Core/Packaging/PackageMetadata.cs:78 | The public setter changes `MinClientVersion` only, and every other property still equals the projection. |
| `Metadata.PackageMetadata.Create` | src/NuGetGallery.Core/Packaging/PackageMetadata.cs:18-28 | Construction returns normally exactly when the copy and all conversions succeed. Otherwise it throws the duplicate-key error, or the first conversion's error. A result is a fresh object with the copy, the groups and the projected properties. |
| `ManifestValidator.MaxPackageIdLength` | src/NuGetGallery.Core/Packaging/ManifestValidator.cs:17 | The validator's own limit, 100. `ManifestValidator.IdFindings` gives `IdTooLong` exactly above it. |
| `ManifestValidator.IdFindings` | src/NuGetGallery.Core/Packaging/ManifestValidator.cs:33-49 | At most one ID finding:<br>- `MissingId` exactly for `""`;<br>- `IdTooLong` exactly over 100 UTF-16 code units, whatever the syntax;<br>- `InvalidId(id)`, carrying the ID, exactly when the ID is non-empty, within the limit and not valid;<br>- none otherwise. |
| `ManifestValidator.CheckUrls` | src/NuGetGallery.Core/Packaging/ManifestValidator.cs:125-135 | Findings are only `InvalidUrl` and are no more than the URLs given. There are none exactly when no URL is non-empty and non-absolute. There is one per URL exactly when all are. |
| `ManifestValidator.CheckUrlsAppend` | src/NuGetGallery.Core/Packaging/ManifestValidator.cs:127-134 | Checking a list is checking each part in turn, so findings stay in URL order. |
| `ManifestValidator.ThreeUrls` | src/NuGetGallery.Core/Packaging/ManifestValidator.cs:125-135 | Checking three URLs is checking each alone, in order. There is an `InvalidUrl` exactly when one of them is non-empty and not absolute. |
| `ManifestValidator.ValidateCore` | src/NuGetGallery.Core/Packaging/ManifestValidator.cs:30-68 | At most five findings, in stage order: at most one ID finding, then URL findings, then at most one version finding.<br>- `MissingId` exactly for an empty ID.<br>- `IdTooLong` exactly over 100 UTF-16 code units.<br>- `InvalidId` only with the package's own ID, and exactly when a non-empty ID within the limit is not valid.<br>- `InvalidVersion` exactly when the version is null. |
| `ManifestValidator.StagesConcatenate` | src/NuGetGallery.Core/Packaging/ManifestValidator.cs:30-68 | An ID part, a URL part and a version part, in that order, are in stage order. Every ID-stage finding comes from the ID part, and there is a version finding exactly when that part has one. |
| `ManifestValidator.UrlFindingsPerField` | src/NuGetGallery.Core/Packaging/ManifestValidator.cs:53-59 | The findings are the ID findings, then the finding of each of the raw values under `IconUrl`, `ProjectUrl` and `LicenseUrl`, in that order, then `InvalidVersion` exactly when the version is null. There is an `InvalidUrl` exactly when one of those three raw values is non-empty and not an absolute URI. |
| `ManifestValidator.Validate` | src/NuGetGallery.Core/Packaging/ManifestValidator.cs:19-28 | An absent or empty block gives no findings. Otherwise:<br>- The result is a failure exactly when construction throws, with the duplicate-key error or with the conversion's error.<br>- On success, the findings are `ValidateCore` of the constructed package: at most five, in stage order. |
| `ManifestValidator.GroupsNeverInfluenceFindings` | src/NuGetGallery.Core/Packaging/ManifestValidator.cs:70-122 | Any dependency and framework groups give the same result. |
| `ManifestValidator.IdFindingsAgreeWithValidatePackageId` | src/NuGetGallery.Core/Packaging/ManifestValidator.cs:39-49 | For a non-empty ID, the validator's ID finding corresponds to NuGet's throwing `ValidatePackageId`:<br>- no finding exactly when it returns normally;<br>- too long exactly when it reports the length;<br>- invalid exactly when it reports the characters. |
| `ManifestValidator.IdLengthLimit` | src/NuGetGallery.Core/Packaging/ManifestValidator.cs:39-42 | A non-empty ID made only of ASCII letters and digits has no ID finding when it is at most 100 characters long, and is too long from 101 characters on. |
| `ManifestValidator.SupplementaryCharactersCountTwice` | src/NuGetGallery.Core/Packaging/ManifestValidator.cs:39-42 | 51 emoji make an ID of length 102: it is too long although it has only 51 characters. |
| `ManifestValidator.ConstructedPackageHasValidUrls` | src/NuGetGallery.Core/Packaging/ManifestValidator.cs:125-135 | Suppose `new Uri` and `Uri.TryCreate(Absolute)` accept the same non-empty strings, and the comparer equates `iconUrl`/`IconUrl` and the other two pairs. Then a block that constructs never draws `InvalidUrl`. This follows from that modelling assumption, not from the code. |

## Left out

- XML manifest reading (`NuspecReader`, `GetMetadata`, `PackageMetadata.FromNuspecReader`): `Validate` takes the metadata block (`None` for null) and the two group lists as inputs. Exact duplicate keys, which `ToDictionary` would reject, cannot occur in a `map`.
- Library behaviour: these four are `Runtime` parameters, not grammars:
  - `OrdinalIgnoreCase`; the examples assume it folds only ASCII letters;
  - `NuGetVersion.TryParse`;
  - `new Uri`;
  - `Uri.TryCreate`.
- src/NuGetGallery.Core/NuGetVersionExtensions.cs is not part of this model.
- NuGet's real `PackageIdValidator` is not part of this model. `IsValidPackageId` is one predicate consistent with the tested examples. Untested cases may differ from NuGet, for instance repeated underscores or non-ASCII letters.
- PackageIdValidator.ValidatePackageId: the length check is taken to come before the syntax check. No test pins the order for an ID that breaks both.
- A null ID passed to `IsValidPackageId` (the `ArgumentNullException` test): strings in the model are never null. For the same reason, metadata values are not null, and `ValidateCore`'s null-ID branch is the empty-string case.
- Localised message texts and `CultureInfo` formatting: findings are datatype constructors, and `InvalidId` carries the ID.
- The laziness of the `yield` iterators: findings are a finite sequence. Construction errors surface from `Validate` itself, as in the original, where `FromNuspecReader` runs before the iterator is returned.
- The disabled dependency and framework checks (ManifestValidator.cs:72-122): only their effect, that the groups are read and ignored, is modelled.
- `bool.Parse` is modelled on ASCII: white space outside ASCII, and case mappings such as the long s, are not.
- Metadata.GetValueOr: its own contract says only that a non-null default gives a non-null result. What a lookup finds is stated by `Metadata.LookupIgnoresCase` and `Metadata.LookupOfAbsentKey`.
- Metadata.PackageMetadata.SetPropertiesFromMetadata: it assumes a freshly constructed object, where a version that does not parse leaves the property null. The original only calls it from the constructor.
- `ValidateCore` works on the constructed package's properties and its copy, not on the object. The object's `Id` and `Version` are those properties (`Metadata.PackageMetadata.Create`), and `SetMinClientVersion` cannot change them.
- The group getters are functions returning the constructor's lists. `List.AsReadOnly` wrapping is not modelled.
