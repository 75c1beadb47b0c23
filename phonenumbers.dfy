/**
 * The interface of the third-party `phonenumbers` library that the lead forms
 * call. Its rules (which numbers are valid or assigned, how the international
 * form is spaced) are not modelled: each call is an uninterpreted function
 * value, and every property proved holds for any library of this shape.
 */
module PhoneNumbers {
  import opened Wrappers

  /**
   * `N` is the library's parsed PhoneNumber object.
   *  - parse:         `phonenumbers.parse(s, None)`; None when it raises NumberParseException
   *  - isValidNumber: `phonenumbers.is_valid_number(n)`
   *  - countryCode:   the `country_code` attribute of `n`
   *  - formatInternational: `phonenumbers.format_number(n, PhoneNumberFormat.INTERNATIONAL)`
   */
  datatype Library<!N> = Library(
    parse: string -> Option<N>,
    isValidNumber: N -> bool,
    countryCode: N -> int,
    formatInternational: N -> string)

  /** The calling code of Kyrgyzstan, the only country the lead forms accept. */
  const KyrgyzCountryCode: int := 996
}
