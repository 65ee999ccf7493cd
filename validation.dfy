/** The decision at the top of `handleContactForm` (script.js): which of four
    outcomes a submission gets, checked in a fixed order. */
module Validation {
  import opened JsValues
  import opened PhoneFormat

  datatype Outcome = Ok | MissingFields | InvalidPhone | InvalidEmail

  /** What `FormData.get` returns for each named control (`None` is `null`). */
  datatype Entry = Entry(
    name: Option<string>,
    phone: Option<string>,
    email: Option<string>,
    course: Option<string>,
    message: Option<string>)

  /** JavaScript truthiness of a FormData value: `null` and `""` are falsy. */
  predicate Filled(v: Option<string>) {
    v.Some? && v.value != []
  }

  predicate RequiredFilled(e: Entry) {
    Filled(e.name) && Filled(e.phone) && Filled(e.message)
  }

  // ----- phone: /^[0-9]{9,10}$/ after .replace(/[-\s]/g, '') -----

  /** The class `[-\s]`. */
  predicate IsSeparator(c: char) {
    c == '-' || IsJsWhitespace(c)
  }

  /** `s.replace(/[-\s]/g, '')`. */
  function StripSeparators(s: string): (r: string)
    ensures |r| <= |s|
    ensures forall k | 0 <= k < |r| :: !IsSeparator(r[k])
  {
    if s == [] then [] else (if IsSeparator(s[0]) then [] else [s[0]]) + StripSeparators(s[1..])
  }

  /** `/^[0-9]{9,10}$/.test(t)`: nine or ten characters, all kept by `\D` removal. */
  predicate PhonePattern(t: string): (r: bool)
    ensures r <==> (|t| == 9 || |t| == 10) && Digits(t) == t
  {
    DigitsFixedIff(t);
    (|t| == 9 || |t| == 10) && forall k | 0 <= k < |t| :: IsAsciiDigit(t[k])
  }

  /** The phone rule: a phone passes exactly when it is made of digits, hyphens
      and whitespace and holds nine or ten digits. */
  predicate PhoneAccepted(phone: string): (r: bool)
    ensures r <==> PhoneShape(phone)
  {
    PhoneShapeIff(phone);
    PhonePattern(StripSeparators(phone))
  }

  predicate PhoneShape(phone: string) {
    (forall k | 0 <= k < |phone| :: IsAsciiDigit(phone[k]) || IsSeparator(phone[k]))
    && (|Digits(phone)| == 9 || |Digits(phone)| == 10)
  }

  // ----- email: /^[^\s@]+@[^\s@]+\.[^\s@]+$/ -----

  /** The class `[^\s@]`. */
  predicate PlainChar(c: char) {
    !IsJsWhitespace(c) && c != '@'
  }

  predicate Plain(s: string) {
    forall k | 0 <= k < |s| :: PlainChar(s[k])
  }

  /** `s[i]` is the `@` and `s[j]` the `.` of a match: the three runs of
      `[^\s@]` around them are non-empty. */
  predicate SplitAt(s: string, i: int, j: int) {
    0 < i < |s| && i + 1 < j < |s| - 1 &&
    s[i] == '@' && s[j] == '.' && Plain(s[..i]) && Plain(s[i + 1..j]) && Plain(s[j + 1..])
  }

  /** `/^[^\s@]+@[^\s@]+\.[^\s@]+$/.test(s)`, read literally: some split of `s`
      fits the pattern. It holds exactly when `s` has no whitespace and one `@`,
      with something before the `@` and after it a `.` with a character on each side. */
  predicate EmailPattern(s: string): (r: bool)
    ensures r <==> EmailShape(s)
  {
    MatchHasShape(s);
    ShapeMatches(s);
    exists i, j | 0 < i < |s| && i + 1 < j < |s| - 1 :: SplitAt(s, i, j)
  }

  // ----- the whole decision -----

  /** Presence of name, phone and message first, then the phone, then the email
      when one was given; the first failing rule decides. */
  function Validate(e: Entry): (r: Outcome)
    ensures r == MissingFields <==> !RequiredFilled(e)
    ensures r == InvalidPhone <==> RequiredFilled(e) && !PhoneAccepted(e.phone.value)
    ensures r == InvalidEmail <==>
      RequiredFilled(e) && PhoneAccepted(e.phone.value) && Filled(e.email) && !EmailPattern(e.email.value)
    ensures r == Ok <==>
      RequiredFilled(e) && PhoneAccepted(e.phone.value) && (Filled(e.email) ==> EmailPattern(e.email.value))
  {
    if !Filled(e.name) || !Filled(e.phone) || !Filled(e.message) then MissingFields
    else if !PhoneAccepted(e.phone.value) then InvalidPhone
    else if Filled(e.email) && !EmailPattern(e.email.value) then InvalidEmail
    else Ok
  }

  // ----- what the phone rule accepts -----

  lemma {:induction false} StripKeepsOthers(s: string, k: nat)
    requires k < |s| && !IsSeparator(s[k])
    ensures s[k] in StripSeparators(s)
  {
    if k > 0 {
      StripKeepsOthers(s[1..], k - 1);
    }
  }

  lemma {:induction false} StripIsDigits(s: string)
    requires forall k | 0 <= k < |s| :: IsAsciiDigit(s[k]) || IsSeparator(s[k])
    ensures StripSeparators(s) == Digits(s)
  {
    if s != [] {
      StripIsDigits(s[1..]);
    }
  }

  lemma PhoneShapeIff(phone: string)
    ensures PhonePattern(StripSeparators(phone)) <==> PhoneShape(phone)
  {
    if forall k | 0 <= k < |phone| :: IsAsciiDigit(phone[k]) || IsSeparator(phone[k]) {
      StripIsDigits(phone);
    } else {
      var k :| 0 <= k < |phone| && !IsAsciiDigit(phone[k]) && !IsSeparator(phone[k]);
      StripKeepsOthers(phone, k);
    }
  }

  /** What the `tel` input listener writes is accepted by the phone rule
      exactly when the typed text held nine or ten digits. */
  lemma FormattedPhoneAccepted(raw: string)
    ensures PhoneAccepted(FormatPhone(raw)) <==> |Digits(raw)| == 9 || |Digits(raw)| == 10
  {
    FormatPreservesDigits(raw);
  }

  /** The formatted form of a ten-digit number. */
  lemma TenDigitExample()
    ensures FormatPhone("0812345678") == "081-234-5678"
  {
  }

  /** "0812345678" and "081-234-5678" pass; "0812345" (seven digits) does not. */
  lemma PlainTenDigitsAccepted()
    ensures PhoneAccepted("0812345678")
  {
    // Not needed for soundness: these steps keep the proof within the
    // verifier's resource limit; unaided it only succeeds with a larger one.
    var ten := "0812345678";
    assert AllDigits(ten);
    DigitsOfDigitString(ten);
    assert PhoneShape(ten);
  }

  lemma HyphenatedTenDigitsAccepted()
    ensures PhoneAccepted("081-234-5678")
  {
    var ten := "0812345678";
    assert AllDigits(ten);
    DigitsOfDigitString(ten);
    TenDigitExample();
    FormattedPhoneAccepted(ten);
  }

  lemma SevenDigitsRejected()
    ensures !PhoneAccepted("0812345")
  {
  }

  // ----- what the email rule accepts -----

  predicate NoWhitespace(s: string) {
    forall k | 0 <= k < |s| :: !IsJsWhitespace(s[k])
  }

  /** `s[i]` is an `@` and no other character of `s` is. */
  predicate OnlyAtSign(s: string, i: int) {
    0 <= i < |s| && s[i] == '@' && forall k | 0 <= k < |s| && k != i :: s[k] != '@'
  }

  /** The shape of an email that `EmailPattern` accepts. */
  predicate EmailShape(s: string) {
    NoWhitespace(s) &&
    exists i | 0 < i < |s| :: OnlyAtSign(s, i) && exists j | i + 1 < j < |s| - 1 :: s[j] == '.'
  }

  lemma MatchHasShape(s: string)
    ensures (exists i, j | 0 < i < |s| && i + 1 < j < |s| - 1 :: SplitAt(s, i, j)) ==> EmailShape(s)
  {
    if exists i, j | 0 < i < |s| && i + 1 < j < |s| - 1 :: SplitAt(s, i, j) {
      var i, j :| 0 < i < |s| && i + 1 < j < |s| - 1 && SplitAt(s, i, j);
      forall k | 0 <= k < |s|
        ensures !IsJsWhitespace(s[k]) && (k != i ==> s[k] != '@')
      {
        if k < i {
          assert s[k] == s[..i][k];
        } else if i < k < j {
          assert s[k] == s[i + 1..j][k - i - 1];
        } else if j < k {
          assert s[k] == s[j + 1..][k - j - 1];
        }
      }
      assert OnlyAtSign(s, i);
    }
  }

  lemma ShapeMatches(s: string)
    ensures EmailShape(s) ==> exists i, j | 0 < i < |s| && i + 1 < j < |s| - 1 :: SplitAt(s, i, j)
  {
    if EmailShape(s) {
      var i :| 0 < i < |s| && OnlyAtSign(s, i) && exists j | i + 1 < j < |s| - 1 :: s[j] == '.';
      var j :| i + 1 < j < |s| - 1 && s[j] == '.';
      assert Plain(s[..i]);
      assert Plain(s[i + 1..j]);
      assert Plain(s[j + 1..]);
      assert SplitAt(s, i, j);
    }
  }

  // ----- consequences of the fixed order -----

  /** A missing required field decides the outcome whatever phone or email say. */
  lemma MissingFieldsFirst(e: Entry, email: Option<string>)
    requires !RequiredFilled(e)
    ensures Validate(e.(email := email)) == MissingFields
  {
  }

  /** A rejected phone decides the outcome before the email is looked at. */
  lemma PhoneBeforeEmail(e: Entry, email: Option<string>)
    requires RequiredFilled(e) && !PhoneAccepted(e.phone.value)
    ensures Validate(e.(email := email)) == InvalidPhone
  {
  }

  /** Only the truthiness of the name counts, so a name of blanks passes like any other. */
  lemma NameOnlyNeedsTruthiness(e: Entry, name: string)
    requires name != []
    ensures Validate(e.(name := Some(name))) == Validate(e.(name := Some("x")))
  {
  }

  /** The course selection is never checked. */
  lemma CourseIgnored(e: Entry, course: Option<string>)
    ensures Validate(e.(course := course)) == Validate(e)
  {
  }

  /** With everything required given and valid, the outcome is `Ok` exactly
      when the email is empty or has the shape of the email rule. */
  lemma AcceptedEntry(e: Entry)
    requires RequiredFilled(e)
    requires PhoneShape(e.phone.value)
    ensures Validate(e) == Ok <==> !Filled(e.email) || EmailPattern(e.email.value)
  {
  }
}
