/** The package-ID rules the gallery delegates to NuGet's `PackageIdValidator`.
    That class's source is not part of this model: the predicate below is one
    that agrees with every example of PackageIdValidatorTest.cs, namely ASCII
    letter-or-digit segments joined by single '.', '_' or '-' separators. */
module PackageIdValidator {
  import opened Wrappers

  /** Longest package ID NuGet accepts; the manifest validator keeps its own
      copy of this internal constant. */
  const MaxPackageIdLength: nat := 100

  /** `string.Length`: the number of UTF-16 code units, so a character
      outside the Basic Multilingual Plane counts twice. */
  function Utf16Length(s: string): (n: nat)
    ensures |s| <= n <= 2 * |s|
    ensures (forall i | 0 <= i < |s| :: s[i] as int < 0x1_0000) ==> n == |s|
  {
    if s == [] then 0
    else (if s[0] as int < 0x1_0000 then 1 else 2) + Utf16Length(s[1..])
  }

  /** The length of a concatenation is the sum of the lengths. */
  lemma {:induction false} Utf16LengthAppend(a: string, b: string)
    ensures Utf16Length(a + b) == Utf16Length(a) + Utf16Length(b)
    decreases |a|
  {
    if a != [] {
      assert (a + b)[0] == a[0] && (a + b)[1..] == a[1..] + b;
      Utf16LengthAppend(a[1..], b);
    } else {
      assert a + b == b;
    }
  }

  /** One character is two code units exactly when it lies outside the Basic
      Multilingual Plane. */
  lemma Utf16LengthOfCharacter(c: char)
    ensures Utf16Length([c]) == if c as int < 0x1_0000 then 1 else 2
  {
    assert [c][1..] == [];
  }

  predicate IsLetterOrDigit(c: char) {
    'a' <= c <= 'z' || 'A' <= c <= 'Z' || '0' <= c <= '9'
  }

  predicate IsSeparator(c: char) {
    c == '.' || c == '_' || c == '-'
  }

  /** Recognises `[A-Za-z0-9]+([._-][A-Za-z0-9]+)*` in `id[i..]`, left to
      right: a letter or digit, then either the end, or more of the same
      segment, or a separator and a fresh segment. */
  predicate SegmentsFrom(id: string, i: nat)
    requires i <= |id|
    decreases |id| - i
  {
    i < |id| && IsLetterOrDigit(id[i]) &&
    (i + 1 == |id| ||
     (IsLetterOrDigit(id[i + 1]) && SegmentsFrom(id, i + 1)) ||
     (IsSeparator(id[i + 1]) && SegmentsFrom(id, i + 2)))
  }

  /** `PackageIdValidator.IsValidPackageId`. */
  predicate IsValidPackageId(id: string) {
    SegmentsFrom(id, 0)
  }

  /** The test suite's view of a valid `id[i..]`, one condition per test
      category: not empty, only letters, digits and separators, no separator
      first or last, no two separators side by side. */
  ghost predicate WellFormedFrom(id: string, i: nat) {
    && i < |id|
    && (forall k | i <= k < |id| :: IsLetterOrDigit(id[k]) || IsSeparator(id[k]))
    && !IsSeparator(id[i])
    && !IsSeparator(id[|id| - 1])
    && (forall k | i <= k < |id| - 1 :: IsSeparator(id[k]) ==> !IsSeparator(id[k + 1]))
  }

  ghost predicate WellFormedId(id: string) {
    WellFormedFrom(id, 0)
  }

  /** The recogniser accepts exactly the well-formed suffixes. */
  lemma {:induction false} SegmentsFromCharacterization(id: string, i: nat)
    requires i <= |id|
    ensures SegmentsFrom(id, i) <==> WellFormedFrom(id, i)
    decreases |id| - i
  {
    if i + 1 < |id| {
      SegmentsFromCharacterization(id, i + 1);
      SegmentsFromCharacterization(id, i + 2);
      if IsLetterOrDigit(id[i]) && IsSeparator(id[i + 1]) && i + 2 < |id| {
        assert WellFormedFrom(id, i) ==> !IsSeparator(id[i + 2]);
      }
    }
  }

  /** The recogniser accepts exactly the well-formed IDs. */
  lemma ValidPackageIdCharacterization(id: string)
    ensures IsValidPackageId(id) <==> WellFormedId(id)
  {
    SegmentsFromCharacterization(id, 0);
  }

  /** A non-empty run of letters and digits is a valid ID. */
  lemma LettersAndDigitsAreValid(s: string)
    requires |s| > 0
    requires forall k | 0 <= k < |s| :: IsLetterOrDigit(s[k])
    ensures IsValidPackageId(s)
  {
    ValidPackageIdCharacterization(s);
  }

  /** Two valid IDs joined by one separator form a valid ID. */
  lemma JoinedBySeparatorIsValid(a: string, sep: char, b: string)
    requires IsValidPackageId(a) && IsSeparator(sep) && IsValidPackageId(b)
    ensures IsValidPackageId(a + [sep] + b)
  {
    ValidPackageIdCharacterization(a);
    ValidPackageIdCharacterization(b);
    var id := a + [sep] + b;
    forall k | 0 <= k < |id|
      ensures IsLetterOrDigit(id[k]) || IsSeparator(id[k])
    {
      if k > |a| { assert id[k] == b[k - |a| - 1]; }
    }
    forall k | 0 <= k < |id| - 1
      ensures IsSeparator(id[k]) ==> !IsSeparator(id[k + 1])
    {
      if k > |a| { assert id[k] == b[k - |a| - 1] && id[k + 1] == b[k - |a|]; }
      if k == |a| { assert id[k + 1] == b[0]; }
    }
    assert id[|id| - 1] == b[|b| - 1];
    ValidPackageIdCharacterization(id);
  }

  /** Why `ValidatePackageId` rejects an ID. */
  datatype IdError = IdMaxLengthExceeded | InvalidCharacters(id: string)

  /** NuGet's throwing check: `None` means it returns normally. The length
      check is taken to come first; the tests only pin IDs that break one
      rule. */
  function ValidatePackageId(id: string): (r: Option<IdError>)
    ensures r.None? <==> Utf16Length(id) <= MaxPackageIdLength && WellFormedId(id)
    ensures r == Some(IdMaxLengthExceeded) <==> Utf16Length(id) > MaxPackageIdLength
    ensures r == Some(InvalidCharacters(id)) <==> Utf16Length(id) <= MaxPackageIdLength && !WellFormedId(id)
    ensures r.Some? && r.value.InvalidCharacters? ==> r.value.id == id
  {
    ValidPackageIdCharacterization(id);
    if Utf16Length(id) > MaxPackageIdLength then Some(IdMaxLengthExceeded)
    else if !IsValidPackageId(id) then Some(InvalidCharacters(id))
    else None
  }

  // The examples of PackageIdValidatorTest.cs.

  lemma EmptyIsNotValid()
    ensures !IsValidPackageId("")
  {
  }

  lemma AlphaNumericIsValid()
    ensures IsValidPackageId("42This1Is4You")
  {
  }

  lemma MultipleDotSeparatorsAllowed()
    ensures IsValidPackageId("I.Like.Writing.Unit.Tests")
  {
    var id := "I.Like.Writing.Unit.Tests";
    assert SegmentsFrom(id, 20);
    assert SegmentsFrom(id, 15);
    assert SegmentsFrom(id, 7);
    assert SegmentsFrom(id, 2);
  }

  lemma NumbersAndWordsDotSeparatedAllowed()
    ensures IsValidPackageId("1.2.3.4.Uno.Dos.Tres.Cuatro")
  {
    var id := "1.2.3.4.Uno.Dos.Tres.Cuatro";
    assert SegmentsFrom(id, 21);
    assert SegmentsFrom(id, 16);
    assert SegmentsFrom(id, 12);
    assert SegmentsFrom(id, 8);
    assert SegmentsFrom(id, 4);
  }

  lemma UnderscoreDotAndDashSeparatorsAreValid()
    ensures IsValidPackageId("Nu_Get.Core-IsCool")
  {
    var id := "Nu_Get.Core-IsCool";
    assert SegmentsFrom(id, 12);
    assert SegmentsFrom(id, 7);
    assert SegmentsFrom(id, 3);
  }

  lemma NonAlphaNumericUnderscoreDotDashIsInvalid()
    ensures !IsValidPackageId("ILike*Asterisks")
  {
  }

  lemma ConsecutiveSeparatorsNotAllowed()
    ensures !IsValidPackageId("I_.Like.-Separators")
  {
  }

  lemma StartingWithSeparatorsNotAllowed()
    ensures !IsValidPackageId("-StartWithSeparator")
  {
  }

  lemma EndingWithSeparatorsNotAllowed()
    ensures !IsValidPackageId("StartWithSeparator.")
  {
  }

  /** A string of `n` copies of `c`, as `new string(c, n)` builds it. */
  function Repeat(c: char, n: nat): (s: string)
    ensures |s| == n && forall i | 0 <= i < n :: s[i] == c
  {
    if n == 0 then [] else [c] + Repeat(c, n - 1)
  }

  /** `new string(c, n).Length` is `n`, or `2 * n` for a character outside
      the Basic Multilingual Plane. */
  lemma {:induction false} Utf16LengthOfRepeat(c: char, n: nat)
    ensures Utf16Length(Repeat(c, n)) == if c as int < 0x1_0000 then n else 2 * n
  {
    if n > 0 {
      Utf16LengthOfRepeat(c, n - 1);
      assert Repeat(c, n)[1..] == Repeat(c, n - 1);
    }
  }

  /** IdExceedingMaxLengthThrows, for every length the test's data rows (101,
      102, 200) stand for. */
  lemma IdExceedingMaxLengthThrows(n: nat)
    requires n > MaxPackageIdLength
    ensures ValidatePackageId(Repeat('d', n)) == Some(IdMaxLengthExceeded)
  {
  }

  lemma ValidatePackageIdInvalidIdThrows()
    ensures ValidatePackageId("  Invalid  . Woo   .") == Some(InvalidCharacters("  Invalid  . Woo   ."))
  {
    ValidPackageIdCharacterization("  Invalid  . Woo   .");
  }
}
