/**
 * Lead-form validation of web/models.py: the phone normaliser, the strict
 * phone pattern, the upload validator, and the `clean` gate that the
 * Contact and ContactVacancy models run before they are saved.
 */
module Models {
  import opened Wrappers
  import opened PyText
  import opened PhoneNumbers

  /** The ValidationErrors the module raises, one constructor per `raise`. */
  datatype ValidationError =
    | InvalidPhonePattern     // validate_phone: not +996 followed by nine digits
    | FileTooLarge(size: nat) // validate_file: the upload exceeds 5 MiB (the message quotes its size)
    | DisallowedFileType      // validate_file: blacklisted extension
    | InvalidPhoneFormat      // normalize_kg_phone: no rewriting rule applies
    | NotKyrgyzNumber         // clean: not a valid number, or not country code 996
    | UnparsablePhone         // clean: phonenumbers.parse raised NumberParseException
  {
    /** Raised as `{'phone': ...}`, so Django files it under the phone field. */
    predicate OnPhoneField()
    {
      NotKyrgyzNumber? || UnparsablePhone?
    }
  }

  // ---------------------------------------------------------------------------
  // Digits

  /**
   * What is known of the regex class `\d` of a str pattern, i.e. the Unicode
   * decimal digits: among ASCII characters it is exactly '0'..'9'. Which
   * other characters are digits is left open.
   */
  ghost predicate DecimalDigitClass(isDigit: char -> bool)
  {
    forall c: char :: c < '\U{80}' ==> (isDigit(c) <==> '0' <= c <= '9')
  }

  /** A character kept by `re.sub(r'[^\d+]', '', phone)`. */
  predicate Kept(c: char, isDigit: char -> bool)
  {
    isDigit(c) || c == '+'
  }

  /** Every character of `s` is kept by the cleaning step. */
  predicate AllKept(s: string, isDigit: char -> bool)
  {
    forall i :: 0 <= i < |s| ==> Kept(s[i], isDigit)
  }

  /** Nine characters, each a digit. */
  predicate NineDigits(d: string, isDigit: char -> bool)
  {
    |d| == 9 && forall i :: 0 <= i < 9 ==> isDigit(d[i])
  }

  // ---------------------------------------------------------------------------
  // normalize_kg_phone

  /** `re.sub(r'[^\d+]', '', phone)`: delete every character other than a digit or '+'. */
  function Cleaned(phone: string, isDigit: char -> bool): (r: string)
    ensures |r| <= |phone|
    ensures AllKept(r, isDigit)
  {
    if phone == "" then ""
    else if Kept(phone[0], isDigit) then [phone[0]] + Cleaned(phone[1..], isDigit)
    else Cleaned(phone[1..], isDigit)
  }

  /** Cleaning keeps each kept character as often as it occurs, and no other character. */
  lemma {:induction false} CleanedCounts(phone: string, isDigit: char -> bool, c: char)
    ensures multiset(Cleaned(phone, isDigit))[c] == if Kept(c, isDigit) then multiset(phone)[c] else 0
  {
    if phone != "" {
      CleanedCounts(phone[1..], isDigit, c);
      assert phone == [phone[0]] + phone[1..];
    }
  }

  /** Cleaning works piece by piece, so it keeps the order of what it keeps. */
  lemma {:induction false} CleanedAppend(a: string, b: string, isDigit: char -> bool)
    ensures Cleaned(a + b, isDigit) == Cleaned(a, isDigit) + Cleaned(b, isDigit)
  {
    if a == "" {
      assert a + b == b;
    } else {
      assert (a + b)[0] == a[0];
      assert (a + b)[1..] == a[1..] + b;
      CleanedAppend(a[1..], b, isDigit);
    }
  }

  /** A string of digits and '+' is left as it is. */
  lemma {:induction false} CleanedOfKept(s: string, isDigit: char -> bool)
    requires AllKept(s, isDigit)
    ensures Cleaned(s, isDigit) == s
  {
    if s != "" {
      CleanedOfKept(s[1..], isDigit);
    }
  }

  /** Cleaning deletes a formatting character between two clean pieces. */
  lemma CleanedDrops(a: string, x: char, b: string, isDigit: char -> bool)
    requires AllKept(a, isDigit) && AllKept(b, isDigit) && !Kept(x, isDigit)
    ensures Cleaned(a + [x] + b, isDigit) == a + b
  {
    assert Cleaned([x], isDigit) == "" by {
      assert [x][1..] == "";
      assert Cleaned([x], isDigit) == Cleaned([x][1..], isDigit);
    }
    var ax := a + [x];
    assert Cleaned(ax, isDigit) == a by {
      CleanedAppend(a, [x], isDigit);
      CleanedOfKept(a, isDigit);
      assert a + "" == a;
    }
    assert Cleaned(ax + b, isDigit) == a + b by {
      CleanedAppend(ax, b, isDigit);
      CleanedOfKept(b, isDigit);
    }
  }

  /** Cleaning a cleaned string changes nothing. */
  lemma CleanedIdempotent(phone: string, isDigit: char -> bool)
    ensures Cleaned(Cleaned(phone, isDigit), isDigit) == Cleaned(phone, isDigit)
  {
    CleanedOfKept(Cleaned(phone, isDigit), isDigit);
  }

  /**
   * `normalize_kg_phone`: clean, then apply the first rule that matches:
   * "+996..." as is, "996..." with a '+' in front, "0..." of ten or more
   * characters with the 0 replaced by "+996", "7..." of exactly nine
   * characters with "+996" in front; otherwise raise.
   * Whatever it returns starts with "+996" and continues with the cleaned
   * input minus at most its first four characters: no digit is invented or
   * reordered.
   */
  function NormalizeKgPhone(phone: string, isDigit: char -> bool): (r: Result<string, ValidationError>)
    ensures r.Failure? ==> r.error == InvalidPhoneFormat
    ensures r.Success? ==> StartsWith(r.value, "+996")
    ensures r.Success? ==>
      (exists k :: 0 <= k <= 4 && k <= |Cleaned(phone, isDigit)| && r.value[4..] == Cleaned(phone, isDigit)[k..])
  {
    var cleaned := Cleaned(phone, isDigit);
    if StartsWith(cleaned, "+996") then
      assert |cleaned[4..]| + 4 == |cleaned|;
      Success(cleaned)
    else if StartsWith(cleaned, "996") then
      assert ("+" + cleaned)[4..] == cleaned[3..];
      Success("+" + cleaned)
    else if StartsWith(cleaned, "0") && |cleaned| >= 10 then
      assert ("+996" + cleaned[1..])[4..] == cleaned[1..];
      Success("+996" + cleaned[1..])
    else if StartsWith(cleaned, "7") && |cleaned| == 9 then
      assert ("+996" + cleaned)[4..] == cleaned[0..];
      Success("+996" + cleaned)
    else
      Failure(InvalidPhoneFormat)
  }

  /** Rule 1, with no length check: a cleaned "+996" prefix passes through whatever follows. */
  lemma PlusPrefixPassesThrough(t: string, isDigit: char -> bool)
    requires DecimalDigitClass(isDigit)
    requires AllKept(t, isDigit)
    ensures NormalizeKgPhone("+996" + t, isDigit) == Success("+996" + t)
  {
    assert isDigit('9') && isDigit('6');
    CleanedOfKept("+996" + t, isDigit);
    assert ("+996" + t)[..4] == "+996";
  }

  /** Rule 2, with no length check: "996..." gains a leading '+'. */
  lemma CountryPrefixGainsPlus(t: string, isDigit: char -> bool)
    requires DecimalDigitClass(isDigit)
    requires AllKept(t, isDigit)
    ensures NormalizeKgPhone("996" + t, isDigit) == Success("+996" + t)
  {
    assert isDigit('9') && isDigit('6');
    CleanedOfKept("996" + t, isDigit);
    assert ("996" + t)[..3] == "996";
    assert "+" + ("996" + t) == "+996" + t;
  }

  /** Rule 3: a trunk "0" followed by nine or more characters is replaced by "+996". */
  lemma TrunkZeroReplaced(t: string, isDigit: char -> bool)
    requires DecimalDigitClass(isDigit)
    requires AllKept(t, isDigit) && |t| >= 9
    ensures NormalizeKgPhone("0" + t, isDigit) == Success("+996" + t)
  {
    assert isDigit('0');
    CleanedOfKept("0" + t, isDigit);
    assert ("0" + t)[..1] == "0";
    assert ("0" + t)[1..] == t;
  }

  /** Rule 4: a local "7" number of exactly nine characters gains "+996". */
  lemma LocalSevenPrefixed(t: string, isDigit: char -> bool)
    requires DecimalDigitClass(isDigit)
    requires AllKept(t, isDigit) && |t| == 8
    ensures NormalizeKgPhone("7" + t, isDigit) == Success("+9967" + t)
  {
    assert isDigit('7');
    CleanedOfKept("7" + t, isDigit);
    assert ("7" + t)[..1] == "7";
    assert "+996" + ("7" + t) == "+9967" + t;
  }

  /**
   * The fallback: normalisation fails exactly when the cleaned string is
   * empty, starts with a character other than '+', '9', '0' or '7', starts
   * with '+' or '9' without being "+996..." or "996...", is a "0..." shorter
   * than ten, or a "7..." of any length but nine.
   */
  lemma NormalizeFailsExactly(phone: string, isDigit: char -> bool)
    ensures var c := Cleaned(phone, isDigit);
      NormalizeKgPhone(phone, isDigit) == Failure(InvalidPhoneFormat) <==>
        c == "" ||
        (c[0] !in "+907") ||
        (c[0] == '+' && !StartsWith(c, "+996")) ||
        (c[0] == '9' && !StartsWith(c, "996")) ||
        (c[0] == '0' && |c| < 10) ||
        (c[0] == '7' && |c| != 9)
  {
  }

  /** Every successful result consists of digits and '+' only. */
  lemma NormalizedIsClean(phone: string, isDigit: char -> bool)
    requires DecimalDigitClass(isDigit)
    requires NormalizeKgPhone(phone, isDigit).Success?
    ensures AllKept(NormalizeKgPhone(phone, isDigit).value, isDigit)
  {
  }

  /** Normalising is idempotent: a successful result normalises to itself. */
  lemma NormalizeIdempotent(phone: string, isDigit: char -> bool)
    requires DecimalDigitClass(isDigit)
    requires NormalizeKgPhone(phone, isDigit).Success?
    ensures NormalizeKgPhone(NormalizeKgPhone(phone, isDigit).value, isDigit) == NormalizeKgPhone(phone, isDigit)
  {
    var r := NormalizeKgPhone(phone, isDigit).value;
    NormalizedIsClean(phone, isDigit);
    CleanedOfKept(r, isDigit);
  }

  /** The normaliser promises less than the strict pattern: "+996" alone, or with a '+' inside, passes. */
  lemma NormalizeIsNotStrict(isDigit: char -> bool)
    requires DecimalDigitClass(isDigit)
    ensures NormalizeKgPhone("+996", isDigit) == Success("+996")
    ensures ValidatePhone("+996", isDigit) == Fail(InvalidPhonePattern)
    ensures NormalizeKgPhone("+996 70+0", isDigit) == Success("+99670+0")
  {
    PlusPrefixPassesThrough("", isDigit);
    assert "+996" + "" == "+996";
    assert isDigit('9') && isDigit('6') && isDigit('7') && isDigit('0') && !isDigit(' ');
    assert AllKept("+996", isDigit) && AllKept("70+0", isDigit);
    CleanedDrops("+996", ' ', "70+0", isDigit);
    assert "+996" + [' '] + "70+0" == "+996 70+0";
    assert "+996" + "70+0" == "+99670+0";
    PlusPrefixPassesThrough("70+0", isDigit);
  }

  // ---------------------------------------------------------------------------
  // validate_phone

  /** The regex `^\+996\d{9}$` under `re.fullmatch`. */
  predicate MatchesKgPattern(value: string, isDigit: char -> bool)
  {
    |value| == 13 && StartsWith(value, "+996") && forall i :: 4 <= i < 13 ==> isDigit(value[i])
  }

  /** `validate_phone`: accept a value matching `^\+996\d{9}$` in full, raise otherwise. */
  function ValidatePhone(value: string, isDigit: char -> bool): (r: Outcome<ValidationError>)
    ensures r.Fail? ==> r.error == InvalidPhonePattern
    ensures r.Pass? ==> |value| == 13 && value[..4] == "+996"
  {
    if MatchesKgPattern(value, isDigit) then Pass else Fail(InvalidPhonePattern)
  }

  /** validate_phone accepts exactly "+996" followed by nine digits and nothing else. */
  lemma ValidatePhoneExactly(value: string, isDigit: char -> bool)
    ensures ValidatePhone(value, isDigit).Pass? <==>
      exists d :: NineDigits(d, isDigit) && value == "+996" + d
  {
    if ValidatePhone(value, isDigit).Pass? {
      var d := value[4..];
      assert NineDigits(d, isDigit) by {
        forall i | 0 <= i < 9 ensures isDigit(d[i]) { assert d[i] == value[4 + i]; }
      }
      assert value == "+996" + d;
    }
    if exists d :: NineDigits(d, isDigit) && value == "+996" + d {
      var d :| NineDigits(d, isDigit) && value == "+996" + d;
      assert value[..4] == "+996";
      forall i | 4 <= i < 13 ensures isDigit(value[i]) { assert value[i] == d[i - 4]; }
    }
  }

  /** A value the strict pattern accepts is returned unchanged by the normaliser. */
  lemma StrictPhoneIsNormal(value: string, isDigit: char -> bool)
    requires DecimalDigitClass(isDigit)
    requires ValidatePhone(value, isDigit).Pass?
    ensures NormalizeKgPhone(value, isDigit) == Success(value)
  {
    ValidatePhoneExactly(value, isDigit);
    var d :| NineDigits(d, isDigit) && value == "+996" + d;
    assert AllKept(d, isDigit);
    PlusPrefixPassesThrough(d, isDigit);
  }

  /** Rules 2 to 4 applied to nine national digits produce a value the strict pattern accepts. */
  lemma NormalizedNationalIsStrict(d: string, isDigit: char -> bool)
    requires DecimalDigitClass(isDigit)
    requires NineDigits(d, isDigit)
    ensures NormalizeKgPhone("996" + d, isDigit) == Success("+996" + d)
    ensures NormalizeKgPhone("0" + d, isDigit) == Success("+996" + d)
    ensures d[0] == '7' ==> NormalizeKgPhone(d, isDigit) == Success("+996" + d)
    ensures ValidatePhone("+996" + d, isDigit).Pass?
  {
    assert AllKept(d, isDigit);
    CountryPrefixGainsPlus(d, isDigit);
    TrunkZeroReplaced(d, isDigit);
    if d[0] == '7' {
      LocalSevenPrefixed(d[1..], isDigit);
      assert "7" + d[1..] == d;
      assert "+9967" + d[1..] == "+996" + d;
    }
    ValidatePhoneExactly("+996" + d, isDigit);
  }

  /** A clean input whose first character begins no rule is rejected. */
  lemma NoRuleForFirst(s: string, isDigit: char -> bool)
    requires AllKept(s, isDigit) && s != "" && s[0] !in "+907"
    ensures NormalizeKgPhone(s, isDigit) == Failure(InvalidPhoneFormat)
  {
    CleanedOfKept(s, isDigit);
    NormalizeFailsExactly(s, isDigit);
  }

  /** "12345" matches no rule. */
  lemma ShortForeignRejected(isDigit: char -> bool)
    requires DecimalDigitClass(isDigit)
    ensures NormalizeKgPhone("12345", isDigit) == Failure(InvalidPhoneFormat)
  {
    assert isDigit('1') && isDigit('2') && isDigit('3') && isDigit('4') && isDigit('5');
    NoRuleForFirst("12345", isDigit);
  }

  /** A clean "+" number with another country code, such as "+1234567890", matches no rule. */
  lemma ForeignInternationalRejected(t: string, isDigit: char -> bool)
    requires AllKept(t, isDigit) && t != "" && t[0] != '9'
    ensures NormalizeKgPhone("+" + t, isDigit) == Failure(InvalidPhoneFormat)
  {
    var s := "+" + t;
    assert AllKept(s, isDigit);
    CleanedOfKept(s, isDigit);
    assert s[1] == t[0];
    assert !StartsWith(s, "+996") by { if |s| >= 4 { assert s[..4][1] == s[1]; } }
    NormalizeFailsExactly(s, isDigit);
  }

  /** A trunk "0" number one digit short is rejected. */
  lemma ShortTrunkRejected(isDigit: char -> bool)
    requires DecimalDigitClass(isDigit)
    ensures NormalizeKgPhone("070012345", isDigit) == Failure(InvalidPhoneFormat)
  {
    var short := "070012345";
    assert isDigit('0') && isDigit('7') && isDigit('1') && isDigit('2') && isDigit('3');
    assert isDigit('4') && isDigit('5');
    assert AllKept(short, isDigit);
    CleanedOfKept(short, isDigit);
    NormalizeFailsExactly(short, isDigit);
  }

  // ---------------------------------------------------------------------------
  // validate_file

  /** An uploaded file as the validator sees it: its name and its size in bytes. */
  datatype UploadedFile = UploadedFile(name: string, size: nat)

  /** 5 MiB. */
  const MaxUploadSize: nat := 5 * 1024 * 1024

  /** The blacklisted extensions, lower case with their dot. */
  const DisallowedExtensions: seq<string> := [".json", ".py", ".js", ".sh", ".bat", ".cmd"]

  /** `validate_file`: the size check first, then the extension of the lower-cased name against the blacklist. */
  function ValidateFile(f: UploadedFile): (r: Outcome<ValidationError>)
    ensures f.size > MaxUploadSize ==> r == Fail(FileTooLarge(f.size))
    ensures r == Fail(DisallowedFileType) ==> f.size <= MaxUploadSize
    ensures r.Fail? ==> r.error == FileTooLarge(f.size) || r.error == DisallowedFileType
  {
    if f.size > MaxUploadSize then Fail(FileTooLarge(f.size))
    else if Extension(Lower(f.name)) in DisallowedExtensions then Fail(DisallowedFileType)
    else Pass
  }

  /** A file is rejected on type grounds exactly when it is within the size bound and its extension, in any case, is blacklisted. */
  lemma ValidateFileTypeRejection(f: UploadedFile)
    ensures ValidateFile(f) == Fail(DisallowedFileType) <==>
      f.size <= MaxUploadSize && Lower(Extension(f.name)) in DisallowedExtensions
  {
    ExtensionLower(f.name);
  }

  /** A file within the size bound, whose extension is not blacklisted, is accepted; 5 MiB exactly is within the bound. */
  lemma ValidateFileAccepts(f: UploadedFile)
    requires f.size <= MaxUploadSize
    requires Lower(Extension(f.name)) !in DisallowedExtensions
    ensures ValidateFile(f) == Pass
  {
    ExtensionLower(f.name);
  }

  /** A name without a dot is never rejected on type grounds. */
  lemma NoExtensionNeverDisallowed(f: UploadedFile)
    requires forall j :: 0 <= j < |f.name| ==> f.name[j] != '.'
    ensures ValidateFile(f) != Fail(DisallowedFileType)
  {
    NoDotNoExtension(f.name);
    ValidateFileTypeRejection(f);
  }

  /** The extension check ignores case: "NAME.PY" is rejected. */
  lemma UpperCaseExtensionRejected()
    ensures ValidateFile(UploadedFile("NAME.PY", 10)) == Fail(DisallowedFileType)
  {
    assert "NAME"[0] != '.';
    ExtensionOfStem("", "NAME", "PY");
    assert "" + "NAME" + "." + "PY" == "NAME.PY";
    assert Lower(".PY") == ".py";
    ValidateFileTypeRejection(UploadedFile("NAME.PY", 10));
  }

  /** The size bound is inclusive: a permitted file of exactly 5 MiB is accepted. */
  lemma FileAtSizeBoundAccepted()
    ensures ValidateFile(UploadedFile("cv.pdf", MaxUploadSize)) == Pass
  {
  }

  /** A leading dot does not start an extension: "uploads/.py" is accepted. */
  lemma DotFileAccepted()
    ensures ValidateFile(UploadedFile("uploads/.py", 10)) == Pass
  {
    var p := "uploads/.py";
    assert Extension(p) == "" by {
      LeadingDotsNoExtension("uploads/", ".", "py");
      assert "uploads/" + "." + "py" == p;
    }
    ValidateFileAccepts(UploadedFile(p, 10));
  }

  /** A bare dot-file name, as an upload carries before it is stored, is accepted: ".py" has no extension. */
  lemma BareDotFileAccepted()
    ensures ValidateFile(UploadedFile(".py", 10)) == Pass
  {
    assert Extension(".py") == "" by {
      LeadingDotsNoExtension("", ".", "py");
      assert "" + "." + "py" == ".py";
    }
    ValidateFileAccepts(UploadedFile(".py", 10));
  }

  /** Only the final component counts: "contacts/run.SH" is rejected as a shell script. */
  lemma NestedScriptRejected()
    ensures ValidateFile(UploadedFile("contacts/run.SH", 10)) == Fail(DisallowedFileType)
  {
    var p := "contacts/run.SH";
    assert Extension(p) == ".SH" by {
      assert "run"[0] != '.';
      ExtensionOfStem("contacts/", "run", "SH");
      assert "contacts/" + "run" + "." + "SH" == p;
    }
    assert Lower(".SH") == ".sh";
    ValidateFileTypeRejection(UploadedFile(p, 10));
  }

  // ---------------------------------------------------------------------------
  // Contact.clean / ContactVacancy.clean

  /**
   * What `clean` makes of the phone field: an empty phone is skipped; any
   * other is normalised, parsed, checked for validity and country code 996,
   * and replaced by the library's international form. A failure from any
   * step is the error raised, and the field is then not reassigned.
   */
  function CleanPhone<N>(phone: string, lib: Library<N>, isDigit: char -> bool): (r: Result<string, ValidationError>)
    ensures phone == "" ==> r == Success(phone)
    ensures r.Failure? ==> r.error in {InvalidPhoneFormat, UnparsablePhone, NotKyrgyzNumber}
  {
    if phone == "" then Success(phone)
    else match NormalizeKgPhone(phone, isDigit)
      case Failure(e) => Failure(e)
      case Success(normalized) =>
        match lib.parse(normalized)
        case None => Failure(UnparsablePhone)
        case Some(parsed) =>
          if !lib.isValidNumber(parsed) || lib.countryCode(parsed) != KyrgyzCountryCode then Failure(NotKyrgyzNumber)
          else Success(lib.formatInternational(parsed))
  }

  /** The parsed number behind a successful normalisation meets every check of the gate. */
  ghost predicate AcceptedBy<N>(phone: string, lib: Library<N>, isDigit: char -> bool, p: N)
  {
    var n := NormalizeKgPhone(phone, isDigit);
    n.Success? && lib.parse(n.value) == Some(p) && lib.isValidNumber(p) && lib.countryCode(p) == 996
  }

  /**
   * A non-empty phone is rewritten exactly when normalisation and parsing
   * succeed and the parsed number is valid and Kyrgyz, and then it becomes
   * that number's international form.
   */
  lemma CleanPhoneAcceptsExactly<N>(phone: string, lib: Library<N>, isDigit: char -> bool)
    requires phone != ""
    ensures CleanPhone(phone, lib, isDigit).Success? <==> exists p :: AcceptedBy(phone, lib, isDigit, p)
    ensures forall p :: AcceptedBy(phone, lib, isDigit, p) ==>
      CleanPhone(phone, lib, isDigit) == Success(lib.formatInternational(p))
  {
    var n := NormalizeKgPhone(phone, isDigit);
    if CleanPhone(phone, lib, isDigit).Success? {
      var p := lib.parse(n.value).value;
      assert AcceptedBy(phone, lib, isDigit, p);
    }
  }

  /**
   * Which step failed decides the error: a normalisation failure is raised
   * as is (not tied to the phone field), a parse failure and a rejected
   * number are raised on the phone field.
   */
  lemma CleanPhoneErrors<N>(phone: string, lib: Library<N>, isDigit: char -> bool)
    requires phone != ""
    ensures var r := CleanPhone(phone, lib, isDigit);
      var n := NormalizeKgPhone(phone, isDigit);
      (r == Failure(InvalidPhoneFormat) <==> n.Failure?) &&
      (r == Failure(UnparsablePhone) <==> n.Success? && lib.parse(n.value).None?) &&
      (r == Failure(NotKyrgyzNumber) <==>
        (n.Success? && lib.parse(n.value).Some? &&
         (!lib.isValidNumber(lib.parse(n.value).value) || lib.countryCode(lib.parse(n.value).value) != 996))) &&
      (r.Failure? ==> (r.error.OnPhoneField() <==> n.Success?))
  {
  }

  /** Two raw phones that normalise alike are cleaned alike. */
  lemma CleanPhoneSeesOnlyNormalized<N>(a: string, b: string, lib: Library<N>, isDigit: char -> bool)
    requires a != "" && b != ""
    requires NormalizeKgPhone(a, isDigit) == NormalizeKgPhone(b, isDigit)
    ensures CleanPhone(a, lib, isDigit) == CleanPhone(b, lib, isDigit)
  {
  }

  /**
   * A trunk number and its international spelling get the same gate
   * result, whatever the library does: "0700123456" and "+996700123456",
   * for instance.
   */
  lemma TrunkAndInternationalAgree<N>(d: string, lib: Library<N>, isDigit: char -> bool)
    requires DecimalDigitClass(isDigit)
    requires AllKept(d, isDigit) && |d| >= 9
    ensures CleanPhone("0" + d, lib, isDigit) == CleanPhone("+996" + d, lib, isDigit)
  {
    TrunkZeroReplaced(d, isDigit);
    PlusPrefixPassesThrough(d, isDigit);
    CleanPhoneSeesOnlyNormalized("0" + d, "+996" + d, lib, isDigit);
  }

  /** The fields of a lead that `clean` reads or writes, and an attached file. */
  class Contact {
    var name: string
    var email: string
    var message: string
    var file: Option<UploadedFile>
    var phone: string

    constructor (name: string, email: string, message: string, file: Option<UploadedFile>, phone: string)
      ensures this.name == name && this.email == email && this.message == message
      ensures this.file == file && this.phone == phone
    {
      this.name := name;
      this.email := email;
      this.message := message;
      this.file := file;
      this.phone := phone;
    }

    /**
     * `Contact.clean`: on success the phone field holds what CleanPhone
     * computed (an empty phone is left alone); on any error the error is
     * returned and the field keeps its old value. Nothing else changes.
     */
    method Clean<N>(lib: Library<N>, isDigit: char -> bool) returns (outcome: Outcome<ValidationError>)
      modifies this`phone
      ensures var r := CleanPhone(old(phone), lib, isDigit);
        (outcome.Pass? <==> r.Success?) &&
        (r.Success? ==> phone == r.value) &&
        (r.Failure? ==> outcome == Fail(r.error) && phone == old(phone))
    {
      if phone != "" {
        var normalized := NormalizeKgPhone(phone, isDigit);
        if normalized.Failure? {
          return Fail(normalized.error);
        }
        var parsed := lib.parse(normalized.value);
        if parsed.None? {
          return Fail(UnparsablePhone);
        }
        if !lib.isValidNumber(parsed.value) || lib.countryCode(parsed.value) != KyrgyzCountryCode {
          return Fail(NotKyrgyzNumber);
        }
        phone := lib.formatInternational(parsed.value);
      }
      return Pass;
    }
  }

  /** A vacancy application: the same phone gate as Contact, with a link instead of a message. */
  class ContactVacancy {
    var name: string
    var email: string
    var phone: string
    var link: string
    var file: Option<UploadedFile>

    constructor (name: string, email: string, phone: string, link: string, file: Option<UploadedFile>)
      ensures this.name == name && this.email == email && this.phone == phone
      ensures this.link == link && this.file == file
    {
      this.name := name;
      this.email := email;
      this.phone := phone;
      this.link := link;
      this.file := file;
    }

    /** `ContactVacancy.clean`, the same gate as `Contact.clean`. */
    method Clean<N>(lib: Library<N>, isDigit: char -> bool) returns (outcome: Outcome<ValidationError>)
      modifies this`phone
      ensures var r := CleanPhone(old(phone), lib, isDigit);
        (outcome.Pass? <==> r.Success?) &&
        (r.Success? ==> phone == r.value) &&
        (r.Failure? ==> outcome == Fail(r.error) && phone == old(phone))
    {
      if phone != "" {
        var normalized := NormalizeKgPhone(phone, isDigit);
        if normalized.Failure? {
          return Fail(normalized.error);
        }
        var parsed := lib.parse(normalized.value);
        if parsed.None? {
          return Fail(UnparsablePhone);
        }
        if !lib.isValidNumber(parsed.value) || lib.countryCode(parsed.value) != KyrgyzCountryCode {
          return Fail(NotKyrgyzNumber);
        }
        phone := lib.formatInternational(parsed.value);
      }
      return Pass;
    }
  }
}
