/**
 * The client-side validation chain run before a restaurant record is sent
 * to the server. The create form and the edit modal run the same ordered
 * sequence of checks and stop at the first one that fails; the only
 * difference is that the create form also demands an image file. Both are
 * one definition here, `Validate`, with a `requireImage` flag.
 */
module Validation {
  import opened Common

  /** A file picked in a file input: the MIME type the browser reports and the size in bytes. */
  datatype ImageFile = ImageFile(mimeType: string, size: nat)

  /** The values a form holds at the moment it is submitted. */
  datatype Draft = Draft(name: string, location: string, contact: string, image: Option<ImageFile>)

  /** One variant per error message the chain can raise. */
  datatype Error =
    | NameRequired
    | LocationRequired
    | ContactRequired
    | ContactFormat
    | ImageRequired
    | ImageType
    | ImageTooLarge

  datatype Verdict = Accepted | Rejected(error: Error)

  /** The text of the error notification raised for each failed check. */
  function Message(e: Error): (m: string)
    ensures m != ""
  {
    match e
    case NameRequired => "Restaurant name is required"
    case LocationRequired => "Location is required"
    case ContactRequired => "Contact number is required"
    case ContactFormat => "Contact number must be 10 digits"
    case ImageRequired => "Please select an image file"
    case ImageType => "Only JPG or PNG images are allowed"
    case ImageTooLarge => "Image size must not exceed 5MB"
  }

  /** Each check has its own text, so the notification tells the user which check failed. */
  lemma MessageIdentifiesError(e: Error, f: Error)
    requires Message(e) == Message(f)
    ensures e == f
  {
  }

  /** The largest accepted image, 5 * 1024 * 1024 bytes. */
  const MaxImageBytes: nat := 5 * 1024 * 1024

  /** The accepted MIME types, compared verbatim with the file's type. */
  const AllowedTypes: seq<string> := ["image/jpeg", "image/png"]

  // ---------------------------------------------------------------------
  // String.prototype.trim

  /**
   * The characters ECMAScript's `trim` strips: the WhiteSpace production
   * (tab, vertical tab, form feed, space, no-break space, the byte-order
   * mark and the Zs space separators) and the LineTerminator production
   * (line feed, carriage return, line and paragraph separators).
   */
  predicate IsWhitespace(c: char) {
    || ('\t' <= c <= '\r')           // tab, line feed, vertical tab, form feed, carriage return
    || c == ' ' || c == '\U{00A0}' || c == '\U{1680}'
    || ('\U{2000}' <= c <= '\U{200A}')
    || c == '\U{2028}' || c == '\U{2029}' || c == '\U{202F}' || c == '\U{205F}'
    || c == '\U{3000}' || c == '\U{FEFF}'
  }

  /** Every character of `s` is whitespace (the empty string included). */
  predicate Blank(s: string) {
    forall i :: 0 <= i < |s| ==> IsWhitespace(s[i])
  }

  /** Drops leading whitespace. */
  function TrimStart(s: string): (r: string)
    ensures |r| <= |s|
  {
    if |s| > 0 && IsWhitespace(s[0]) then TrimStart(s[1..]) else s
  }

  /** Drops trailing whitespace. */
  function TrimEnd(s: string): (r: string)
    ensures |r| <= |s|
  {
    if |s| > 0 && IsWhitespace(s[|s| - 1]) then TrimEnd(s[..|s| - 1]) else s
  }

  /**
   * `String.prototype.trim`: drops whitespace at both ends, so what is left
   * is empty or starts and ends with a character that is not whitespace.
   */
  function Trim(s: string): (r: string)
    ensures |r| <= |s|
    ensures r != "" ==> !IsWhitespace(r[0]) && !IsWhitespace(r[|r| - 1])
  {
    TrimStartSpec(s);
    TrimEndSpec(TrimStart(s));
    TrimEnd(TrimStart(s))
  }

  /** `TrimStart` keeps the suffix that starts at the first character that is not whitespace. */
  lemma {:induction false} TrimStartSpec(s: string)
    ensures TrimStart(s) == s[|s| - |TrimStart(s)|..]
    ensures forall i :: 0 <= i < |s| - |TrimStart(s)| ==> IsWhitespace(s[i])
    ensures TrimStart(s) != [] ==> !IsWhitespace(TrimStart(s)[0])
  {
    if |s| > 0 && IsWhitespace(s[0]) {
      TrimStartSpec(s[1..]);
      forall i | 1 <= i < |s| - |TrimStart(s)| ensures IsWhitespace(s[i]) {
        assert s[i] == s[1..][i - 1];
      }
    }
  }

  /** `TrimEnd` keeps the prefix that ends at the last character that is not whitespace. */
  lemma {:induction false} TrimEndSpec(s: string)
    ensures TrimEnd(s) == s[..|TrimEnd(s)|]
    ensures forall i :: |TrimEnd(s)| <= i < |s| ==> IsWhitespace(s[i])
    ensures TrimEnd(s) != [] ==> !IsWhitespace(TrimEnd(s)[|TrimEnd(s)| - 1])
  {
    if |s| > 0 && IsWhitespace(s[|s| - 1]) {
      TrimEndSpec(s[..|s| - 1]);
      forall i | |TrimEnd(s)| <= i < |s| - 1 ensures IsWhitespace(s[i]) {
        assert s[i] == s[..|s| - 1][i];
      }
    }
  }

  /** `!s.trim()` holds exactly when every character of `s` is whitespace. */
  lemma TrimEmptyIffBlank(s: string)
    ensures Trim(s) == "" <==> Blank(s)
  {
    TrimStartSpec(s);
    TrimEndSpec(TrimStart(s));
  }

  // ---------------------------------------------------------------------
  // The regular expression /^[0-9]{10}$/

  predicate IsDigit(c: char) {
    '0' <= c <= '9'
  }

  /** The number of digits the contact pattern demands. */
  const ContactDigits: nat := 10

  /**
   * The pattern `[0-9]{n}$` read token by token from the start of `s`, as a
   * regular expression engine does after `^`: `n` digits, then the end of
   * the input (without the `m` flag, `$` matches only there).
   */
  predicate MatchesDigitRun(s: string, n: nat)
    decreases n
  {
    if n == 0 then s == [] else |s| > 0 && IsDigit(s[0]) && MatchesDigitRun(s[1..], n - 1)
  }

  /** A run of `n` digits to the end of the input is a string of length `n` made of digits. */
  lemma {:induction false} MatchesDigitRunIff(s: string, n: nat)
    ensures MatchesDigitRun(s, n) <==> |s| == n && forall i :: 0 <= i < |s| ==> IsDigit(s[i])
    decreases n
  {
    if n > 0 && |s| > 0 {
      MatchesDigitRunIff(s[1..], n - 1);
      if IsDigit(s[0]) && forall i :: 0 <= i < |s[1..]| ==> IsDigit(s[1..][i]) {
        forall i | 0 < i < |s| ensures IsDigit(s[i]) {
          assert s[i] == s[1..][i - 1];
        }
      }
    }
  }

  /**
   * The contact pattern `/^[0-9]{10}$/`: exactly ten ASCII digits and
   * nothing else (no surrounding spaces).
   */
  predicate IsTenDigits(s: string): (b: bool)
    ensures b <==> MatchesDigitRun(s, ContactDigits)
  {
    MatchesDigitRunIff(s, ContactDigits);
    |s| == 10 && forall i :: 0 <= i < |s| ==> IsDigit(s[i])
  }

  /** A string that matches the pattern is never blank, so the blank-contact check cannot fire on it. */
  lemma TenDigitsNotBlank(s: string)
    requires IsTenDigits(s)
    ensures !Blank(s)
  {
    assert IsDigit(s[0]);
  }

  // ---------------------------------------------------------------------
  // The rules, each stated on its own

  /** The position of each check in the chain. */
  function Rank(e: Error): nat {
    match e
    case NameRequired => 0
    case LocationRequired => 1
    case ContactRequired => 2
    case ContactFormat => 3
    case ImageRequired => 4
    case ImageType => 5
    case ImageTooLarge => 6
  }

  /**
   * Whether the draft breaks the rule behind error `e`, independently of
   * every other rule. The three required-field rules are the forms'
   * `!field.trim()` tests, and the format rule is a failed match of the
   * contact pattern.
   */
  predicate Violates(d: Draft, requireImage: bool, e: Error): (b: bool)
    ensures e == NameRequired ==> (b <==> Trim(d.name) == "")
    ensures e == LocationRequired ==> (b <==> Trim(d.location) == "")
    ensures e == ContactRequired ==> (b <==> Trim(d.contact) == "")
    ensures e == ContactFormat ==> (b <==> !MatchesDigitRun(d.contact, ContactDigits))
  {
    TrimEmptyIffBlank(d.name);
    TrimEmptyIffBlank(d.location);
    TrimEmptyIffBlank(d.contact);
    match e
    case NameRequired => Blank(d.name)
    case LocationRequired => Blank(d.location)
    case ContactRequired => Blank(d.contact)
    case ContactFormat => !IsTenDigits(d.contact)
    case ImageRequired => requireImage && d.image.None?
    case ImageType => d.image.Some? && d.image.value.mimeType !in AllowedTypes
    case ImageTooLarge => d.image.Some? && d.image.value.size > MaxImageBytes
  }

  /** `e` is the earliest rule in the chain that the draft breaks. */
  predicate FirstViolation(d: Draft, requireImage: bool, e: Error) {
    Violates(d, requireImage, e) && forall e' :: Rank(e') < Rank(e) ==> !Violates(d, requireImage, e')
  }

  // ---------------------------------------------------------------------
  // The chain

  /**
   * The checks on the selected file, run once the text fields have passed.
   * A missing file is an error only when `requireImage` is set; the type is
   * checked before the size.
   */
  function CheckImage(image: Option<ImageFile>, requireImage: bool): (r: Verdict)
    ensures r.Rejected? ==> Rank(r.error) >= Rank(ImageRequired)
  {
    match image
    case None => if requireImage then Rejected(ImageRequired) else Accepted
    case Some(f) =>
      if f.mimeType !in AllowedTypes then Rejected(ImageType)
      else if f.size > MaxImageBytes then Rejected(ImageTooLarge)
      else Accepted
  }

  /** The whole chain, in the order the forms run it, stopping at the first failed check. */
  function Validate(d: Draft, requireImage: bool): (r: Verdict)
    ensures r == Rejected(ImageRequired) ==> requireImage && d.image.None?
    ensures r.Accepted? ==> IsTenDigits(d.contact)
    ensures r.Accepted? && requireImage ==> d.image.Some?
    ensures r.Accepted? && d.image.Some? ==>
      d.image.value.mimeType in AllowedTypes && d.image.value.size <= MaxImageBytes
  {
    if Trim(d.name) == "" then Rejected(NameRequired)
    else if Trim(d.location) == "" then Rejected(LocationRequired)
    else if Trim(d.contact) == "" then Rejected(ContactRequired)
    else if !IsTenDigits(d.contact) then Rejected(ContactFormat)
    else CheckImage(d.image, requireImage)
  }

  // ---------------------------------------------------------------------
  // Properties of the chain

  /** The chain accepts a draft exactly when the draft breaks none of the rules. */
  lemma ValidateAcceptsIffNoViolation(d: Draft, requireImage: bool)
    ensures Validate(d, requireImage) == Accepted <==> forall e :: !Violates(d, requireImage, e)
  {
    TrimEmptyIffBlank(d.name);
    TrimEmptyIffBlank(d.location);
    TrimEmptyIffBlank(d.contact);
    if Validate(d, requireImage) == Accepted {
      forall e ensures !Violates(d, requireImage, e) {
        match e
        case NameRequired =>
        case LocationRequired =>
        case ContactRequired =>
        case ContactFormat =>
        case ImageRequired =>
        case ImageType =>
        case ImageTooLarge =>
      }
    } else {
      var e := Validate(d, requireImage).error;
      assert Violates(d, requireImage, e);
    }
  }

  /** A rejection names a broken rule, and every rule checked before it holds. */
  lemma ValidateRejectsFirstViolation(d: Draft, requireImage: bool)
    requires Validate(d, requireImage).Rejected?
    ensures FirstViolation(d, requireImage, Validate(d, requireImage).error)
  {
    TrimEmptyIffBlank(d.name);
    TrimEmptyIffBlank(d.location);
    TrimEmptyIffBlank(d.contact);
    var e := Validate(d, requireImage).error;
    forall e' | Rank(e') < Rank(e) ensures !Violates(d, requireImage, e') {
      match e'
      case NameRequired =>
      case LocationRequired =>
      case ContactRequired =>
      case ContactFormat =>
      case ImageRequired =>
      case ImageType =>
      case ImageTooLarge =>
    }
  }

  /** At most one rule is the first broken one. */
  lemma FirstViolationUnique(d: Draft, requireImage: bool, e: Error, f: Error)
    requires FirstViolation(d, requireImage, e) && FirstViolation(d, requireImage, f)
    ensures e == f
  {
  }

  /** The chain reports exactly the first broken rule: both directions. */
  lemma ValidateReportsFirstViolation(d: Draft, requireImage: bool, e: Error)
    ensures Validate(d, requireImage) == Rejected(e) <==> FirstViolation(d, requireImage, e)
  {
    var v := Validate(d, requireImage);
    if v.Rejected? {
      ValidateRejectsFirstViolation(d, requireImage);
      if FirstViolation(d, requireImage, e) {
        FirstViolationUnique(d, requireImage, e, v.error);
      }
    } else {
      ValidateAcceptsIffNoViolation(d, requireImage);
      assert !Violates(d, requireImage, e);
    }
  }

  /** A blank name is reported whatever else is wrong with the draft. */
  lemma BlankNameReportedFirst(d: Draft, requireImage: bool)
    requires Blank(d.name)
    ensures Validate(d, requireImage) == Rejected(NameRequired)
  {
    ValidateReportsFirstViolation(d, requireImage, NameRequired);
  }

  /**
   * A draft that breaks every rule that can fail at once (a missing file and
   * a bad file exclude each other) still raises only the name error.
   */
  lemma AllInvalidReportsName()
    ensures Validate(Draft("  ", "", " ", Some(ImageFile("image/gif", MaxImageBytes + 1))), true)
         == Rejected(NameRequired)
  {
    BlankNameReportedFirst(Draft("  ", "", " ", Some(ImageFile("image/gif", MaxImageBytes + 1))), true);
  }

  /** Once name and location pass, a blank contact gets its own message. */
  lemma BlankContactReported(d: Draft, requireImage: bool)
    requires !Blank(d.name) && !Blank(d.location)
    ensures Validate(d, requireImage) == Rejected(ContactRequired) <==> Blank(d.contact)
  {
    TrimEmptyIffBlank(d.name);
    TrimEmptyIffBlank(d.location);
    TrimEmptyIffBlank(d.contact);
  }

  /**
   * Once name and location pass, a contact that does not match the pattern
   * is rejected with one of the two contact messages, and after one that
   * matches only the file decides.
   */
  lemma ContactAcceptedIffTenDigits(d: Draft, requireImage: bool)
    requires !Blank(d.name) && !Blank(d.location)
    ensures !IsTenDigits(d.contact) ==>
      Validate(d, requireImage) == if Blank(d.contact) then Rejected(ContactRequired) else Rejected(ContactFormat)
    ensures IsTenDigits(d.contact) ==> Validate(d, requireImage) == CheckImage(d.image, requireImage)
  {
    TrimEmptyIffBlank(d.name);
    TrimEmptyIffBlank(d.location);
    TrimEmptyIffBlank(d.contact);
    if IsTenDigits(d.contact) {
      TenDigitsNotBlank(d.contact);
    }
  }

  /** The pattern is tested on the untrimmed contact: a leading space makes it fail. */
  lemma UntrimmedContactRejected()
    ensures Validate(Draft("Cafe", "Main St", " 1234567890", None), false) == Rejected(ContactFormat)
  {
    var d := Draft("Cafe", "Main St", " 1234567890", None);
    assert !IsWhitespace(d.name[0]) && !IsWhitespace(d.location[0]) && !IsWhitespace(d.contact[1]);
    assert |d.contact| == 11;
    ValidateReportsFirstViolation(d, false, ContactFormat);
  }

  /** The create form alone requires a file; after the contact checks pass, its absence is the error. */
  lemma ImageRequiredExactly(d: Draft)
    ensures Validate(d, true) == Rejected(ImageRequired)
        <==> !Blank(d.name) && !Blank(d.location) && !Blank(d.contact)
             && IsTenDigits(d.contact) && d.image.None?
  {
    TrimEmptyIffBlank(d.name);
    TrimEmptyIffBlank(d.location);
    TrimEmptyIffBlank(d.contact);
  }

  /** In the edit flow a missing file is never an error: only the text fields decide. */
  lemma EditAcceptsMissingImage(d: Draft)
    requires d.image.None?
    ensures Validate(d, false) == Validate(d.(image := Some(ImageFile("image/png", 0))), false)
  {
    TrimEmptyIffBlank(d.name);
    TrimEmptyIffBlank(d.location);
    TrimEmptyIffBlank(d.contact);
  }

  /** The size bound is inclusive: exactly 5242880 bytes passes, one byte more fails. */
  lemma ImageSizeBoundary(name: string, location: string, contact: string, mimeType: string)
    requires !Blank(name) && !Blank(location) && IsTenDigits(contact) && mimeType in AllowedTypes
    ensures Validate(Draft(name, location, contact, Some(ImageFile(mimeType, 5242880))), false) == Accepted
    ensures Validate(Draft(name, location, contact, Some(ImageFile(mimeType, 5242881))), false)
         == Rejected(ImageTooLarge)
  {
    TrimEmptyIffBlank(name);
    TrimEmptyIffBlank(location);
    TenDigitsNotBlank(contact);
    TrimEmptyIffBlank(contact);
  }

  /** A file with both a wrong type and too many bytes is reported for its type. */
  lemma TypeCheckedBeforeSize(d: Draft, requireImage: bool)
    requires !Blank(d.name) && !Blank(d.location) && IsTenDigits(d.contact)
    requires d.image.Some? && d.image.value.mimeType !in AllowedTypes
    ensures Validate(d, requireImage) == Rejected(ImageType)
  {
    TrimEmptyIffBlank(d.name);
    TrimEmptyIffBlank(d.location);
    TenDigitsNotBlank(d.contact);
    TrimEmptyIffBlank(d.contact);
  }

  /**
   * The create chain is the edit chain with one extra check: whenever the
   * edit chain fails both fail alike, and when it passes the create chain
   * fails only for a missing file.
   */
  lemma CreateIsEditPlusImageRequired(d: Draft)
    ensures Validate(d, true)
         == if Validate(d, false).Rejected? then Validate(d, false)
            else if d.image.None? then Rejected(ImageRequired)
            else Accepted
  {
    TrimEmptyIffBlank(d.name);
    TrimEmptyIffBlank(d.location);
    TrimEmptyIffBlank(d.contact);
  }

  /** Whatever the create form accepts, the edit modal accepts too. */
  lemma CreateAcceptedImpliesEditAccepted(d: Draft)
    requires Validate(d, true) == Accepted
    ensures Validate(d, false) == Accepted
  {
    CreateIsEditPlusImageRequired(d);
  }

  /** A complete draft without a file: the edit chain accepts it and the create chain asks for a file. */
  lemma CompleteDraftWithoutImage(d: Draft)
    requires !Blank(d.name) && !Blank(d.location) && IsTenDigits(d.contact) && d.image.None?
    ensures Validate(d, false) == Accepted && Validate(d, true) == Rejected(ImageRequired)
  {
    TrimEmptyIffBlank(d.name);
    TrimEmptyIffBlank(d.location);
    TenDigitsNotBlank(d.contact);
    TrimEmptyIffBlank(d.contact);
  }

  /** The converse fails: a complete draft without a file passes edit and is refused by create. */
  lemma EditAcceptedDoesNotImplyCreate()
    ensures exists d :: Validate(d, false) == Accepted && Validate(d, true) == Rejected(ImageRequired)
  {
    var d := Draft("Cafe", "Main St", "1234567890", None);
    assert !Blank(d.name) by { assert !IsWhitespace(d.name[0]); }
    assert !Blank(d.location) by { assert !IsWhitespace(d.location[0]); }
    assert IsTenDigits(d.contact) by {
      assert |d.contact| == 10 && forall i :: 0 <= i < 10 ==> IsDigit(d.contact[i]);
    }
    CompleteDraftWithoutImage(d);
  }
}
