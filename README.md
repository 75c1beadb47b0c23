# Lead-form phone and upload validation, verified in Dafny

This project models the validation logic of the marketing-site backend's
lead forms (`web/models.py`). It covers:

- `normalize_kg_phone`, which rewrites a user-typed phone number into a
  `+996…` candidate;
- `validate_phone`, the strict `+996` plus nine digits pattern;
- `validate_file`, the 5 MiB size bound and the extension blacklist;
- the `clean` gate that `Contact` and `ContactVacancy` run before they are
  saved. It normalises and parses the phone with the `phonenumbers`
  library, checks it, and overwrites the `phone` field with the library's
  international form.

Files:

- `wrappers.dfy`: Option, Result and Outcome. These stand in for Python's `raise`.
- `pytext.dfy` (module `PyText`): the parts of Python's library the validators
  rely on: `str.startswith`, `str.rfind`, `posixpath.splitext` and `str.lower`.
- `phonenumbers.dfy` (module `PhoneNumbers`): the `phonenumbers` calls as a
  record of uninterpreted function values, `Library<N>`.
- `models.dfy` (module `Models`): the validators, the pure gate
  `CleanPhone`, and the classes `Contact` and `ContactVacancy`. Their
  `Clean` methods update `phone` in place.

Python's `\d` on a str pattern matches any Unicode decimal digit, so every
phone function takes the digit class as a parameter `isDigit`. Lemmas that
need concrete digits require `DecimalDigitClass(isDigit)`. That predicate
says that, among ASCII characters, `isDigit` holds exactly for `'0'..'9'`.
Python's `\d` satisfies it. It says nothing about non-ASCII characters.

What the code guarantees, and what it does not:

- The normaliser does not guarantee "`+996` followed by digits". The
  `+996` and `996` rules do no length check, and a `+` inside the number
  survives cleaning. So `"+996"` alone and `"+996 70+0"` are accepted.
  `NormalizeIsNotStrict` proves this.
- `validate_phone` is not attached to any current field: `Contact.phone`
  has `validators=[]`. Only a migration still names it. It is modelled on
  its own, and its link to the normaliser is proved (`StrictPhoneIsNormal`).
- The normaliser's error is raised as a plain message, not keyed to the
  `phone` field, unlike the two errors the gate raises itself.
  `ValidationError.OnPhoneField` and `CleanPhoneErrors` record this. A
  parse failure is reported with the same text as a normalisation failure.
  The model keeps them apart as `UnparsablePhone` and `InvalidPhoneFormat`.

## Model

| member | source | states |
|---|---|---|
| `Models.Kept` | web/models.py:30 | the characters the class `[^\d+]` spares: a digit or `+` |
| `Models.Cleaned` | web/models.py:30 | the cleaned string is no longer than the input and holds only digits and `+` |
| `Models.CleanedCounts` | web/models.py:30 | each digit and `+` occurs in the cleaned string as often as in the input; every other character is gone |
| `Models.CleanedAppend` | web/models.py:30 | cleaning distributes over concatenation, so the kept characters keep their order |
| `Models.CleanedOfKept` | web/models.py:30 | a string of digits and `+` is left unchanged |
| `Models.CleanedDrops` | web/models.py:30 | a formatting character between two clean pieces is deleted |
| `Models.CleanedIdempotent` | web/models.py:30 | cleaning twice equals cleaning once |
| `Models.NormalizeKgPhone` | web/models.py:29-41 | the only error is `InvalidPhoneFormat`; a success starts with `+996`, followed by the cleaned input minus at most its first four characters |
| `Models.PlusPrefixPassesThrough` | web/models.py:32-33 | `+996` followed by any clean tail, of any length, is returned unchanged |
| `Models.CountryPrefixGainsPlus` | web/models.py:34-35 | `996` followed by any clean tail, of any length, gains a leading `+` |
| `Models.TrunkZeroReplaced` | web/models.py:36-37 | `0` followed by nine or more clean characters becomes `+996` followed by those characters |
| `Models.LocalSevenPrefixed` | web/models.py:38-39 | `7` followed by exactly eight clean characters gains `+996` in front |
| `Models.NormalizeFailsExactly` | web/models.py:32-41 | the normaliser fails iff the cleaned string is empty, starts with none of `+ 9 0 7`, starts with `+`/`9` without `+996`/`996`, is a `0…` shorter than 10, or is a `7…` of length other than 9 |
| `Models.NoRuleForFirst` | web/models.py:40-41 | a clean input whose first character begins no rule is rejected |
| `Models.NormalizedIsClean` | web/models.py:30-39 | every successful result consists only of digits and `+` |
| `Models.NormalizeIdempotent` | web/models.py:30-39 | normalising a successful result again returns the same result |
| `Models.NormalizeIsNotStrict` | web/models.py:30-33 | `"+996"` and `"+996 70+0"` pass the normaliser, and `"+996"` fails `validate_phone` |
| `Models.ShortForeignRejected` | web/models.py:36-41 | `"12345"` is rejected with `InvalidPhoneFormat` |
| `Models.ForeignInternationalRejected` | web/models.py:32-41 | a clean `+` number whose code does not start with `9`, such as `"+1234567890"`, is rejected with `InvalidPhoneFormat` |
| `Models.ShortTrunkRejected` | web/models.py:36-41 | one example: the nine-character trunk number `"070012345"` is rejected (the general case is `NormalizeFailsExactly`) |
| `Models.MatchesKgPattern` | web/models.py:12-13 | a full match of `^\+996\d{9}$`: length 13, the prefix `+996`, then nine digits |
| `Models.ValidatePhone` | web/models.py:11-14 | the only error is `InvalidPhonePattern`; an accepted value has length 13 and starts with `+996` |
| `Models.ValidatePhoneExactly` | web/models.py:12-14 | a value is accepted iff it equals `+996` followed by exactly nine digits |
| `Models.StrictPhoneIsNormal` | web/models.py:11-33 | a value that `validate_phone` accepts is returned unchanged by `normalize_kg_phone` |
| `Models.NormalizedNationalIsStrict` | web/models.py:11-39 | nine digits behind `996`, behind `0`, or starting with `7` normalise to `+996` followed by those digits, which `validate_phone` accepts |
| `Models.ValidateFile` | web/models.py:17-26 | a file over 5 MiB fails with `FileTooLarge`, whatever its name; a type rejection implies the size bound holds; no other error exists |
| `Models.ValidateFileTypeRejection` | web/models.py:21-26 | a type rejection happens iff the size is within the bound and the lower-cased extension is one of `.json .py .js .sh .bat .cmd` |
| `Models.ValidateFileAccepts` | web/models.py:18-26 | a file of size at most 5 MiB whose lower-cased extension is not blacklisted passes |
| `Models.NoExtensionNeverDisallowed` | web/models.py:24-26 | a name without a dot is never rejected on type grounds |
| `Models.UpperCaseExtensionRejected` | web/models.py:24-26 | `NAME.PY` is rejected as a disallowed type |
| `Models.FileAtSizeBoundAccepted` | web/models.py:18-22 | a permitted file of exactly 5·1024·1024 bytes passes |
| `Models.DotFileAccepted` | web/models.py:24-26 | `uploads/.py` passes, because a leading dot does not start an extension |
| `Models.BareDotFileAccepted` | web/models.py:24-26 | the bare upload name `.py` passes, because a leading dot does not start an extension |
| `Models.NestedScriptRejected` | web/models.py:24-26 | `contacts/run.SH` is rejected, because only the final component's extension counts and case is ignored |
| `PyText.StartsWith` | web/models.py:32-38 | `str.startswith`: the prefix is no longer than the string and equals its first characters |
| `PyText.RFind` | web/models.py:24 | the `rfind` inside `splitext`: -1 or an index holding the character, with no later occurrence |
| `PyText.Lower` | web/models.py:24 | `str.lower` on ASCII: same length, each character lower-cased |
| `PyText.SplitExt` | web/models.py:24 | root plus extension is the name; the extension is empty or a `.` followed by characters that are neither `.` nor `/` |
| `PyText.ExtensionLower` | web/models.py:24 | the extension of the lower-cased name is the lower-cased extension |
| `PyText.LeadingDotsNoExtension` | web/models.py:24 | a final component made of one or more leading dots and then a dot-free name (`.py`, `.bashrc`, `dir/..py`), with or without a directory in front, has no extension |
| `PyText.ExtensionOfStem` | web/models.py:24 | a path whose final component is a stem that is not all dots, then `.e` with `e` free of dots and separators, has extension `.e`, with or without a directory in front |
| `Models.CleanPhone` | web/models.py:56-71 | an empty phone is skipped and kept; any error is one of `InvalidPhoneFormat`, `UnparsablePhone`, `NotKyrgyzNumber` |
| `Models.CleanPhoneAcceptsExactly` | web/models.py:58-66 | a non-empty phone is accepted iff normalisation and parsing succeed and the number is valid with country code 996; the new value is then the library's international form of that number |
| `Models.CleanPhoneErrors` | web/models.py:59-71 | each step's failure decides the error; only parse and validity errors are keyed to the phone field |
| `Models.CleanPhoneSeesOnlyNormalized` | web/models.py:60-66 | two non-empty phones that normalise alike are cleaned alike |
| `Models.TrunkAndInternationalAgree` | web/models.py:60-66 | `"0"` plus nine or more clean characters and `"+996"` plus the same characters get the same gate result, for every library (e.g. `"0700123456"` and `"+996700123456"`) |
| `Models.Contact.constructor` | web/models.py:44-50 | a contact holds the given name, email, message, file and phone |
| `Models.Contact.Clean` | web/models.py:56-71 | passes iff `CleanPhone` succeeds and then stores its value in `phone`; otherwise returns its error and leaves `phone` as it was; changes nothing but `phone` |
| `Models.ContactVacancy.constructor` | web/models.py:240-246 | a vacancy application holds the given name, email, phone, link and file |
| `Models.ContactVacancy.Clean` | web/models.py:252-267 | the same gate as `Contact.Clean`, on the vacancy application's `phone` |

## Left out

- The internals of `phonenumbers`: which numbers are valid or assigned, and
  how the international form is spaced. This is foreign code, so
  `PhoneNumbers.Library` keeps `parse`, `is_valid_number`, `country_code` and
  `format_number` uninterpreted. Every gate property holds for any such
  library. Whether a number such as `+996000000000` is rejected depends on
  the library's data and is not modelled.
- Python's `\d` beyond ASCII is left abstract (`isDigit`). The model does
  not decide which non-ASCII characters are decimal digits.
- `PyText.Lower`: does not model Unicode case mapping beyond ASCII letters.
  That mapping can change a string's length. The blacklisted extensions
  are ASCII.
- `PyText.SplitExt` is the POSIX `os.path.splitext`. The Windows variant,
  which also splits on `\` and drive letters, is not modelled.
- Django's model machinery. This covers `full_clean` and `save`, and the
  field checks that `clean_fields` makes before `clean` runs:
  `max_length=20` on the raw phone, `blank=False`, `EmailField`, `URLField`.
  It also covers persistence, `auto_now_add` for `created_at`, and file
  storage. `super().clean()` is Django's default and does nothing, so it is
  omitted. `validate_file` runs as a field validator and is modelled on its
  own.
- The error message texts, including the size in MB that `FileTooLarge`'s
  message prints. Errors are datatype constructors; `FileTooLarge` keeps the
  size in bytes.
- `web/views.py`, `web/utils.py`, the Celery notification hand-off and the
  Telegram HTTP calls. These are framework plumbing and network I/O.
- Settings, URL routing, admin registration, serializers and the migration.
  They are declarative and hold no logic.
