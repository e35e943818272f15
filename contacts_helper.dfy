/** Phone-number normalisation, the tiered matching rule, and the contact
    look-ups built on them (`ContactsHelper`). */
module ContactsHelper {
  import opened Android

  // ---------------------------------------------------------------------
  // Characters

  /** The ASCII digits `0`-`9`. The regex class `\d` matches these; on
      Android it also matches other Unicode decimal digits, which this
      model does not keep. */
  predicate IsDigit(c: char) {
    '0' <= c <= '9'
  }

  /** The characters the filter `[^+\d]` does not delete. */
  predicate IsKept(c: char) {
    c == '+' || IsDigit(c)
  }

  /** Kotlin's `Char.isWhitespace()`: Java whitespace or a Unicode space separator. */
  predicate IsWhitespace(c: char) {
    || c == ' ' || c == '\t' || c == '\n' || c == '\r' || c == '\U{B}' || c == '\U{C}'
    || ('\U{1C}' <= c <= '\U{1F}')
    || c == '\U{A0}' || c == '\U{1680}' || ('\U{2000}' <= c <= '\U{200A}')
    || c == '\U{2028}' || c == '\U{2029}' || c == '\U{202F}' || c == '\U{205F}' || c == '\U{3000}'
  }

  /** Kotlin's `isBlank()`: empty, or whitespace only. */
  predicate IsBlank(s: string) {
    forall i :: 0 <= i < |s| ==> IsWhitespace(s[i])
  }

  predicate AllKept(s: string) {
    forall i :: 0 <= i < |s| ==> IsKept(s[i])
  }

  predicate AllDigits(s: string) {
    forall i :: 0 <= i < |s| ==> IsDigit(s[i])
  }

  // ---------------------------------------------------------------------
  // normalizePhoneNumber

  /** `replace(Regex("[^+\\d]"), "")`: keeps every `+` and digit, in order,
      and drops every other character. */
  function KeepPlusAndDigits(s: string): (r: string)
    ensures |r| <= |s|
    ensures AllKept(r)
    ensures forall c {:trigger multiset(r)[c]} :: multiset(r)[c] == if IsKept(c) then multiset(s)[c] else 0
  {
    if s == [] then []
    else
      var rest := KeepPlusAndDigits(s[1..]);
      assert s == [s[0]] + s[1..];
      if IsKept(s[0]) then [s[0]] + rest else rest
  }

  /** On an already filtered string the filter changes nothing. */
  lemma {:induction false} KeepPlusAndDigitsFixesKept(s: string)
    requires AllKept(s)
    ensures KeepPlusAndDigits(s) == s
  {
    if s != [] {
      KeepPlusAndDigitsFixesKept(s[1..]);
    }
  }

  /** The filter works character by character and keeps their order: it
      distributes over concatenation. */
  lemma {:induction false} KeepPlusAndDigitsConcat(a: string, b: string)
    ensures KeepPlusAndDigits(a + b) == KeepPlusAndDigits(a) + KeepPlusAndDigits(b)
  {
    if a != [] {
      assert (a + b)[0] == a[0] && (a + b)[1..] == a[1..] + b;
      KeepPlusAndDigitsConcat(a[1..], b);
    } else {
      assert a + b == b;
    }
  }

  /** On one character the filter keeps it exactly when it is `+` or a digit. */
  lemma KeepPlusAndDigitsChar(c: char)
    ensures KeepPlusAndDigits([c]) == if IsKept(c) then [c] else []
  {
  }

  const BrazilCallingCode: string := "+55"

  /** The `when` of `normalizePhoneNumber`: strip a leading `+55`, else a
      bare leading `+`, else nothing. */
  function StripCountryPrefix(f: string): (r: string)
    ensures |r| <= |f| && r == f[|f| - |r|..]
    ensures |f| - |r| == if BrazilCallingCode <= f then 3 else if "+" <= f then 1 else 0
  {
    if BrazilCallingCode <= f then f[3..]
    else if "+" <= f then f[1..]
    else f
  }

  /** `trimStart('0')`. */
  function TrimLeadingZeros(s: string): (r: string)
    ensures |r| <= |s| && r == s[|s| - |r|..]
    ensures forall i :: 0 <= i < |s| - |r| ==> s[i] == '0'
    ensures r == [] || r[0] != '0'
  {
    if s != [] && s[0] == '0' then
      var r := TrimLeadingZeros(s[1..]);
      assert forall i :: 1 <= i < |s| - |r| ==> s[i] == s[1..][i - 1];
      r
    else s
  }

  /** A suffix of a string of kept characters is one too. */
  lemma SuffixAllKept(s: string, k: nat)
    requires k <= |s| && AllKept(s)
    ensures AllKept(s[k..])
  {
    assert forall i :: 0 <= i < |s| - k ==> s[k..][i] == s[k + i];
  }

  /** `normalizePhoneNumber`. (Its final `if` about the 9th digit has an
      empty body and so no effect.) */
  function NormalizePhoneNumber(phoneNumber: string): (r: string)
    ensures IsBlank(phoneNumber) ==> r == []
    ensures AllKept(r)
    ensures r == [] || r[0] != '0'
  {
    if IsBlank(phoneNumber) then []
    else
      var f := KeepPlusAndDigits(phoneNumber);
      var t := StripCountryPrefix(f);
      var r := TrimLeadingZeros(t);
      SuffixAllKept(f, |f| - |t|);
      SuffixAllKept(t, |t| - |r|);
      r
  }

  /** A digit string without a leading zero is already normal. */
  lemma NormalizeFixesCanonical(s: string)
    requires AllDigits(s)
    requires s == [] || s[0] != '0'
    ensures NormalizePhoneNumber(s) == s
  {
    if s != [] {
      assert !IsWhitespace(s[0]);
      KeepPlusAndDigitsFixesKept(s);
    }
  }

  /** A suffix of a digit string is one too. */
  lemma SuffixAllDigits(s: string, k: nat)
    requires k <= |s| && AllDigits(s)
    ensures AllDigits(s[k..])
  {
    assert forall i :: 0 <= i < |s| - k ==> s[k..][i] == s[k + i];
  }

  /** Once a filtered string has `+` at most in front, the prefix strip
      leaves digits only. */
  lemma StripLeavesDigits(f: string)
    requires AllKept(f)
    requires forall i :: 0 < i < |f| ==> f[i] != '+'
    ensures AllDigits(StripCountryPrefix(f))
  {
    var t := StripCountryPrefix(f);
    var k := |f| - |t|;
    forall i | 0 <= i < |t| ensures IsDigit(t[i]) {
      assert t[i] == f[k + i];
      if k + i == 0 {
        assert !("+" <= f);
      }
    }
  }

  /** Normalisation is idempotent on every input whose filtered form has a
      `+` at most in front. */
  lemma NormalizeIdempotent(s: string)
    requires forall i :: 0 < i < |KeepPlusAndDigits(s)| ==> KeepPlusAndDigits(s)[i] != '+'
    ensures NormalizePhoneNumber(NormalizePhoneNumber(s)) == NormalizePhoneNumber(s)
  {
    var n := NormalizePhoneNumber(s);
    if !IsBlank(s) {
      var f := KeepPlusAndDigits(s);
      var t := StripCountryPrefix(f);
      StripLeavesDigits(f);
      SuffixAllDigits(t, |t| - |TrimLeadingZeros(t)|);
    }
    NormalizeFixesCanonical(n);
  }

  /** On a non-empty filtered string normalisation is the prefix strip
      followed by the zero trim. */
  lemma NormalizeKept(s: string)
    requires s != [] && AllKept(s)
    ensures NormalizePhoneNumber(s) == TrimLeadingZeros(StripCountryPrefix(s))
  {
    assert !IsWhitespace(s[0]);
    KeepPlusAndDigitsFixesKept(s);
  }

  /** A blank string holds no `+` and no digit, so the filter empties it. */
  lemma BlankFiltersToEmpty(s: string)
    requires IsBlank(s)
    ensures KeepPlusAndDigits(s) == []
  {
  }

  /** Formatting does not matter: spaces, dashes, parentheses and every other
      character besides `+` and digits are dropped before anything else, so
      a number normalises exactly as its filtered form does. */
  lemma NormalizeIgnoresFormatting(s: string)
    ensures NormalizePhoneNumber(s) == NormalizePhoneNumber(KeepPlusAndDigits(s))
  {
    if IsBlank(s) {
      BlankFiltersToEmpty(s);
    } else if KeepPlusAndDigits(s) != [] {
      NormalizeKept(KeepPlusAndDigits(s));
    }
  }

  lemma ConcatAllKept(a: string, b: string)
    requires AllKept(a) && AllKept(b)
    ensures AllKept(a + b)
  {
    assert forall i :: |a| <= i < |a + b| ==> (a + b)[i] == b[i - |a|];
  }

  /** A `+55` in front of an already trimmed, filtered string is all that
      normalisation removes. */
  lemma NormalizeStripsBrazilCode(x: string)
    requires AllKept(x) && (x == [] || x[0] != '0')
    ensures NormalizePhoneNumber(BrazilCallingCode + x) == x
  {
    var t := BrazilCallingCode + x;
    ConcatAllKept(BrazilCallingCode, x);
    NormalizeKept(t);
    assert t[..3] == BrazilCallingCode && t[3..] == x;
  }

  /** Without that restriction normalisation is not idempotent: for every
      canonical digit string `d`, `"+55+55" + d` normalises to `"+55" + d`,
      which normalises to `d`. */
  lemma NormalizeNotIdempotentInGeneral(d: string)
    requires AllDigits(d) && (d == [] || d[0] != '0')
    ensures NormalizePhoneNumber(BrazilCallingCode + (BrazilCallingCode + d)) == BrazilCallingCode + d
    ensures NormalizePhoneNumber(BrazilCallingCode + d) == d != BrazilCallingCode + d
  {
    ConcatAllKept(BrazilCallingCode, d);
    NormalizeStripsBrazilCode(BrazilCallingCode + d);
    NormalizeStripsBrazilCode(d);
  }

  // ---------------------------------------------------------------------
  // comparePhoneNumbers

  /** Kotlin's `takeLast(n)`. */
  function TakeLast(s: string, n: nat): (r: string)
    ensures |r| == if |s| < n then |s| else n
    ensures r == s[|s| - |r|..]
  {
    if |s| <= n then s else s[|s| - n..]
  }

  /** `substring(0, 2) + substring(3)`: the 11-digit number without its
      third character, the mobile "9th digit". */
  function WithoutNinthDigit(s: string): (r: string)
    requires |s| >= 3
    ensures |r| == |s| - 1
    ensures forall i :: 0 <= i < |r| ==> r[i] == if i < 2 then s[i] else s[i + 1]
  {
    s[..2] + s[3..]
  }

  /** The 9th-digit rule of `comparePhoneNumbers`, one direction. */
  predicate NinthDigitVariant(longer: string, shorter: string) {
    |longer| == 11 && |shorter| == 10 && WithoutNinthDigit(longer) == shorter
  }

  /** The `takeLast(8)` suffix rule of `comparePhoneNumbers`, as written. */
  predicate SuffixRule(a: string, b: string) {
    var suffix1 := TakeLast(a, 8);
    var suffix2 := TakeLast(b, 8);
    |suffix1| == 8 && |suffix2| == 8 && suffix1 == suffix2
  }

  /** The country handed to `areSamePhoneNumber`: the network's ISO code in
      upper case, or the default locale's country. */
  function CountryIso(p: Platform): (iso: string)
    ensures p.networkCountryIso.Returns? && p.networkCountryIso.value.Some? ==>
              iso == AsciiUpper(p.networkCountryIso.value.value)
    ensures p.networkCountryIso.Throws? || p.networkCountryIso == Returns(None) ==> iso == p.localeCountry
  {
    match p.networkCountryIso
    case Returns(Some(iso)) => AsciiUpper(iso)
    case _ => p.localeCountry
  }

  /** Kotlin's `uppercase()`, on the ASCII letters ISO codes consist of. */
  function AsciiUpper(s: string): (r: string)
    ensures |r| == |s|
    ensures forall i :: 0 <= i < |s| ==> r[i] == if 'a' <= s[i] <= 'z' then (s[i] as int - 32) as char else s[i]
  {
    if s == [] then []
    else [if 'a' <= s[0] <= 'z' then (s[0] as int - 32) as char else s[0]] + AsciiUpper(s[1..])
  }

  /** The `PhoneNumberUtils` fallback of `comparePhoneNumbers`; an exception is false. */
  function PlatformSameNumber(p: Platform, a: string, b: string): (same: bool)
    ensures p.sdkInt >= SDK_Q ==>
              (same <==> p.phoneNumberUtils.areSamePhoneNumber(a, b, CountryIso(p)) == Returns(true))
    ensures p.sdkInt < SDK_Q ==> (same <==> p.phoneNumberUtils.compare(a, b) == Returns(true))
    ensures p.sdkInt >= SDK_Q && p.phoneNumberUtils.areSamePhoneNumber(a, b, CountryIso(p)).Throws? ==> !same
    ensures p.sdkInt < SDK_Q && p.phoneNumberUtils.compare(a, b).Throws? ==> !same
  {
    var outcome :=
      if p.sdkInt >= SDK_Q then p.phoneNumberUtils.areSamePhoneNumber(a, b, CountryIso(p))
      else p.phoneNumberUtils.compare(a, b);
    match outcome
    case Returns(same) => same
    case Throws => false
  }

  /** The platform oracle gives the same answer in both argument orders. */
  ghost predicate SymmetricOracle(p: Platform) {
    forall a, b :: PlatformSameNumber(p, a, b) == PlatformSameNumber(p, b, a)
  }

  /** `comparePhoneNumbers`: the short-circuit cascade of its rules. */
  function ComparePhoneNumbers(number1: string, number2: string, p: Platform): (same: bool)
    ensures number1 == [] || number2 == [] ==> !same
    ensures number1 != [] && number1 == number2 ==> same
    ensures number1 != [] && number2 != [] && PlatformSameNumber(p, number1, number2) ==> same
  {
    if number1 == [] || number2 == [] then false
    else if number1 == number2 then true
    else if |number1| == 11 && |number2| == 10 && WithoutNinthDigit(number1) == number2 then true
    else if |number2| == 11 && |number1| == 10 && WithoutNinthDigit(number2) == number1 then true
    else if SuffixRule(number1, number2) then true
    else PlatformSameNumber(p, number1, number2)
  }

  /** The suffix rule fires exactly when both numbers have at least 8
      characters and their last 8 agree. */
  lemma SuffixRuleMeaning(a: string, b: string)
    ensures SuffixRule(a, b) <==> |a| >= 8 && |b| >= 8 && a[|a| - 8..] == b[|b| - 8..]
  {
  }

  /** The 9th-digit rule matches in both argument orders. */
  lemma NinthDigitMatchesBothWays(longer: string, shorter: string, p: Platform)
    requires NinthDigitVariant(longer, shorter)
    ensures ComparePhoneNumbers(longer, shorter, p) && ComparePhoneNumbers(shorter, longer, p)
  {
  }

  /** Whenever the 9th-digit rule fires, the 8-character suffix rule would too. */
  lemma NinthDigitImpliesSuffix(longer: string, shorter: string)
    requires NinthDigitVariant(longer, shorter)
    ensures SuffixRule(longer, shorter) && SuffixRule(shorter, longer)
  {
    var w := WithoutNinthDigit(longer);
    assert TakeLast(longer, 8) == longer[3..];
    assert TakeLast(shorter, 8) == w[2..];
    assert w[2..] == longer[3..];
  }

  /** When the platform oracle says no (or throws), a match is exactly
      equality or a shared 8-character suffix: the 9th-digit rule adds nothing. */
  lemma CompareWithoutOracle(a: string, b: string, p: Platform)
    requires !PlatformSameNumber(p, a, b)
    ensures ComparePhoneNumbers(a, b, p) <==>
              a != [] && b != [] && (a == b || (|a| >= 8 && |b| >= 8 && a[|a| - 8..] == b[|b| - 8..]))
  {
    SuffixRuleMeaning(a, b);
    if NinthDigitVariant(a, b) {
      NinthDigitImpliesSuffix(a, b);
    }
    if NinthDigitVariant(b, a) {
      NinthDigitImpliesSuffix(b, a);
    }
  }

  /** With a symmetric oracle, matching is symmetric. */
  lemma CompareSymmetric(a: string, b: string, p: Platform)
    requires SymmetricOracle(p)
    ensures ComparePhoneNumbers(a, b, p) == ComparePhoneNumbers(b, a, p)
  {
    assert PlatformSameNumber(p, a, b) == PlatformSameNumber(p, b, a);
    assert SuffixRule(a, b) == SuffixRule(b, a);
  }

  // ---------------------------------------------------------------------
  // Contact look-ups

  /** `contactNumber ?: ""`. */
  function EntryText(e: Option<string>): string {
    match e
    case None => ""
    case Some(s) => s
  }

  /** Kotlin's `isNullOrBlank()`. */
  predicate IsNullOrBlank(e: Option<string>) {
    e.None? || IsBlank(e.value)
  }

  /** One contact row matches the already normalised input. */
  predicate EntryMatches(normalizedInput: string, e: Option<string>, p: Platform) {
    ComparePhoneNumbers(normalizedInput, NormalizePhoneNumber(EntryText(e)), p)
  }

  /** What `isNumberInContacts` decides: some row of the cursor matches. */
  predicate InContacts(phoneNumber: string, p: Platform) {
    match p.contacts
    case Unavailable => false
    case Rows(rows) =>
      exists j :: 0 <= j < |rows| && EntryMatches(NormalizePhoneNumber(phoneNumber), rows[j], p)
  }

  /** The same search, row by row from the front of the cursor. */
  predicate SomeRowMatches(normalizedInput: string, rows: seq<Option<string>>, p: Platform)
    decreases |rows|
  {
    rows != [] && (EntryMatches(normalizedInput, rows[0], p) || SomeRowMatches(normalizedInput, rows[1..], p))
  }

  /** When the row-by-row search fails, no row matches. */
  lemma {:induction false} NoRowMatches(normalizedInput: string, rows: seq<Option<string>>, p: Platform)
    requires !SomeRowMatches(normalizedInput, rows, p)
    ensures forall j :: 0 <= j < |rows| ==> !EntryMatches(normalizedInput, rows[j], p)
    decreases |rows|
  {
    if rows != [] {
      NoRowMatches(normalizedInput, rows[1..], p);
      assert forall j :: 1 <= j < |rows| ==> rows[j] == rows[1..][j - 1];
    }
  }

  /** `isNumberInContacts`: a linear scan of the cursor that stops at the
      first matching row; no cursor, or a failed query, is "not a contact". */
  method IsNumberInContacts(phoneNumber: string, p: Platform) returns (found: bool)
    ensures found <==> InContacts(phoneNumber, p)
  {
    var normalizedInput := NormalizePhoneNumber(phoneNumber);
    if p.contacts.Unavailable? {
      return false;
    }
    var rows := p.contacts.numbers;
    var i := 0;
    while i < |rows|
      invariant 0 <= i <= |rows|
      invariant SomeRowMatches(normalizedInput, rows, p) ==> SomeRowMatches(normalizedInput, rows[i..], p)
    {
      var contactNumber := rows[i];
      var normalizedContact := NormalizePhoneNumber(EntryText(contactNumber));
      if ComparePhoneNumbers(normalizedInput, normalizedContact, p) {
        assert EntryMatches(normalizedInput, rows[i], p);
        return true;
      }
      assert rows[i..][0] == rows[i] && rows[i..][1..] == rows[i + 1..];
      i := i + 1;
    }
    NoRowMatches(normalizedInput, rows, p);
    return false;
  }

  /** A null or blank row never matches anything. */
  lemma BlankEntryNeverMatches(normalizedInput: string, e: Option<string>, p: Platform)
    requires IsNullOrBlank(e)
    ensures !EntryMatches(normalizedInput, e, p)
  {
  }

  /** A number is only ever found through a non-blank row. */
  lemma FoundOnlyThroughNonBlankRow(phoneNumber: string, p: Platform)
    requires InContacts(phoneNumber, p)
    ensures p.contacts.Rows?
    ensures exists j :: 0 <= j < |p.contacts.numbers| && !IsNullOrBlank(p.contacts.numbers[j])
  {
    var j :| 0 <= j < |p.contacts.numbers| && EntryMatches(NormalizePhoneNumber(phoneNumber), p.contacts.numbers[j], p);
    if IsNullOrBlank(p.contacts.numbers[j]) {
      BlankEntryNeverMatches(NormalizePhoneNumber(phoneNumber), p.contacts.numbers[j], p);
    }
  }

  /** A row that normalises to the same non-empty number as the input is found. */
  lemma ContactWithSameNumberFound(phoneNumber: string, p: Platform, j: nat)
    requires p.contacts.Rows? && j < |p.contacts.numbers|
    requires p.contacts.numbers[j].Some?
    requires NormalizePhoneNumber(p.contacts.numbers[j].value) == NormalizePhoneNumber(phoneNumber) != []
    ensures InContacts(phoneNumber, p)
  {
    assert EntryMatches(NormalizePhoneNumber(phoneNumber), p.contacts.numbers[j], p);
  }

  /** No contact data, or no rows at all, means nobody is a contact. */
  lemma NoContactsNoMatch(phoneNumber: string, p: Platform)
    requires p.contacts == Unavailable || p.contacts == Rows([])
    ensures !InContacts(phoneNumber, p)
  {
  }

  /** `getContactsCount`: the number of rows, null rows included; 0 without a cursor. */
  function GetContactsCount(p: Platform): (count: nat)
    ensures p.contacts.Unavailable? ==> count == 0
    ensures p.contacts.Rows? ==> count == |p.contacts.numbers|
  {
    match p.contacts
    case Unavailable => 0
    case Rows(rows) => |rows|
  }

  /** The non-blank rows, in cursor order. */
  function NonBlankNumbers(rows: seq<Option<string>>): (r: seq<string>)
    ensures |r| <= |rows|
    ensures forall i :: 0 <= i < |r| ==> !IsBlank(r[i])
  {
    if rows == [] then []
    else
      var last := rows[|rows| - 1];
      NonBlankNumbers(rows[..|rows| - 1]) + (if IsNullOrBlank(last) then [] else [last.value])
  }

  /** A string is selected exactly when some row holds it and it is not blank. */
  lemma {:induction false} NonBlankNumbersMembers(rows: seq<Option<string>>)
    ensures forall x :: x in NonBlankNumbers(rows) <==> Some(x) in rows && !IsBlank(x)
  {
    if rows != [] {
      var init := rows[..|rows| - 1];
      NonBlankNumbersMembers(init);
      assert rows == init + [rows[|rows| - 1]];
    }
  }

  /** The filter of rows keeps every non-blank row, in order: it
      distributes over concatenation ... */
  lemma {:induction false} NonBlankNumbersConcat(a: seq<Option<string>>, b: seq<Option<string>>)
    ensures NonBlankNumbers(a + b) == NonBlankNumbers(a) + NonBlankNumbers(b)
    decreases |b|
  {
    if b == [] {
      assert a + b == a;
    } else {
      var c := a + b[..|b| - 1];
      assert (a + b)[..|a + b| - 1] == c && (a + b)[|a + b| - 1] == b[|b| - 1];
      NonBlankNumbersConcat(a, b[..|b| - 1]);
    }
  }

  /** ... and on one row keeps it exactly when it is not null or blank. */
  lemma NonBlankNumbersRow(e: Option<string>)
    ensures NonBlankNumbers([e]) == if IsNullOrBlank(e) then [] else [e.value]
  {
    assert [e][..0] == [];
  }

  /** The non-blank rows of a prefix of the cursor are a prefix of all of them. */
  lemma {:induction false} NonBlankNumbersPrefix(rows: seq<Option<string>>, i: nat)
    requires i <= |rows|
    ensures NonBlankNumbers(rows[..i]) <= NonBlankNumbers(rows)
    decreases |rows| - i
  {
    if i < |rows| {
      NonBlankNumbersPrefix(rows, i + 1);
      assert rows[..i + 1][..i] == rows[..i];
    } else {
      assert rows[..i] == rows;
    }
  }

  const DefaultSampleLimit := 5

  /** What `getContactSample(limit)` returns: the first `min(limit, k)` of
      the `k` non-blank rows (none at all for a limit of 0 or less). */
  function ContactSample(p: Platform, limit: int): seq<string> {
    match p.contacts
    case Unavailable => []
    case Rows(rows) =>
      var all := NonBlankNumbers(rows);
      all[..if limit <= 0 then 0 else if limit < |all| then limit else |all|]
  }

  /** `getContactSample`: collect non-blank rows until `limit` are collected. */
  method GetContactSample(p: Platform, limit: int := DefaultSampleLimit) returns (samples: seq<string>)
    ensures samples == ContactSample(p, limit)
    ensures |samples| <= if limit < 0 then 0 else limit
    ensures forall i :: 0 <= i < |samples| ==> !IsBlank(samples[i])
  {
    samples := [];
    match p.contacts {
      case Unavailable =>
      case Rows(rows) =>
        var i := 0;
        var count := 0;
        while i < |rows| && count < limit
          invariant 0 <= i <= |rows|
          invariant samples == NonBlankNumbers(rows[..i])
          invariant count == |samples|
          invariant count <= if limit < 0 then 0 else limit
        {
          var number := rows[i];
          assert rows[..i + 1][..i] == rows[..i];
          if !IsNullOrBlank(number) {
            samples := samples + [number.value];
            count := count + 1;
          }
          i := i + 1;
        }
        NonBlankNumbersPrefix(rows, i);
        if i == |rows| {
          assert rows[..i] == rows;
        }
    }
  }

  /** The sample never holds more numbers than the contact count. */
  lemma SampleWithinCount(p: Platform, limit: int)
    ensures |ContactSample(p, limit)| <= GetContactsCount(p)
  {
  }
}
