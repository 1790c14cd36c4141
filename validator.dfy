/** Input validators (validator/validator.go). Go measures strings with
    len, which counts UTF-8 bytes, and its regular expressions match runes;
    a Dafny `string` is a sequence of Unicode scalar values, so the byte
    length is computed from the runes by Utf8Len. */
module Validator {
  import opened Wrappers

  /** Bytes in the UTF-8 encoding of one rune. */
  function RuneLen(c: char): (n: nat)
    ensures 1 <= n <= 4
    ensures n == 1 <==> c as int < 0x80
  {
    if c as int < 0x80 then 1
    else if c as int < 0x800 then 2
    else if c as int < 0x1_0000 then 3
    else 4
  }

  /** Go's len of a string: its UTF-8 byte count. */
  function Utf8Len(s: string): (n: nat)
    ensures |s| <= n <= 4 * |s|
    ensures (forall i :: 0 <= i < |s| ==> s[i] as int < 0x80) ==> n == |s|
  {
    if s == [] then 0 else RuneLen(s[0]) + Utf8Len(s[1..])
  }

  // Character classes of the patterns

  predicate IsAsciiLetter(c: char) { 'a' <= c <= 'z' || 'A' <= c <= 'Z' }
  predicate IsDigit(c: char) { '0' <= c <= '9' }
  predicate IsLower(c: char) { 'a' <= c <= 'z' }
  predicate IsUpper(c: char) { 'A' <= c <= 'Z' }
  /** RE2's `\s`: tab, newline, form feed, carriage return and space. */
  predicate IsSpace(c: char) { c == '\t' || c == '\n' || c == '\U{000C}' || c == '\r' || c == ' ' }
  /** `[a-zA-Z0-9_]` */
  predicate IsUsernameChar(c: char) { IsAsciiLetter(c) || IsDigit(c) || c == '_' }
  /** `[a-zA-Z\s]` */
  predicate IsFullNameChar(c: char) { IsAsciiLetter(c) || IsSpace(c) }
  /** `[\W_]`: the non-word runes together with the underscore, that is,
      every rune that is not an ASCII letter or digit. */
  predicate IsSpecial(c: char) { !(IsAsciiLetter(c) || IsDigit(c)) }

  /** RE2's `\w`: `[0-9A-Za-z_]`. */
  predicate IsWordChar(c: char) { IsDigit(c) || 'A' <= c <= 'Z' || 'a' <= c <= 'z' || c == '_' }

  /** The username class is exactly `\w`, and `[\W_]` is the complement of
      `\w` together with the underscore. */
  lemma ClassesAgainstWord(c: char)
    ensures IsUsernameChar(c) <==> IsWordChar(c)
    ensures IsSpecial(c) <==> !IsWordChar(c) || c == '_'
    ensures IsLower(c) || IsUpper(c) <==> IsAsciiLetter(c)
  {
  }

  /** Every rune of s is in the class. */
  function AllIn(s: string, cls: char -> bool): (r: bool)
    ensures r <==> forall i :: 0 <= i < |s| ==> cls(s[i])
  {
    if s == [] then true else cls(s[0]) && AllIn(s[1..], cls)
  }

  /** Some rune of s is in the class. */
  function SomeIn(s: string, cls: char -> bool): (r: bool)
    ensures r <==> exists i :: 0 <= i < |s| && cls(s[i])
  {
    if s == [] then false
    else if cls(s[0]) then true
    else
      var r := SomeIn(s[1..], cls);
      assert forall i :: 1 <= i < |s| ==> s[i] == s[1..][i - 1];
      r
  }

  /** MatchString of `^[cls]+$`: a non-empty string made only of cls. */
  predicate FullMatch(s: string, cls: char -> bool)
  {
    |s| > 0 && AllIn(s, cls)
  }

  /** The errors the validators return. */
  datatype ValidationError =
    | LengthOutOfRange(minLength: int, maxLength: int)
    | UsernameCharset
    | FullNameCharset
    | PasswordRule
    | InvalidEmailAddress
    | NotPositive

  /** Decimal digits of a natural number, as %d prints it. */
  function Decimal(n: nat): (s: string)
    ensures |s| > 0 && forall i :: 0 <= i < |s| ==> IsDigit(s[i])
    decreases n
  {
    var d := ['0' + (n % 10) as char];
    if n < 10 then d else Decimal(n / 10) + d
  }

  /** %d of an int. */
  function FormatInt(n: int): string
  {
    if n < 0 then "-" + Decimal(-n) else Decimal(n)
  }

  /** The error's text, which the handlers put into a field violation. */
  function Message(e: ValidationError): string
  {
    match e
    case LengthOutOfRange(lo, hi) => "must contain from " + FormatInt(lo) + " to " + FormatInt(hi) + " characters"
    case UsernameCharset => "must contain only letters, numbers, or underscores"
    case FullNameCharset => "must contain only letters or spaces"
    case PasswordRule => "password must be between 8 and 30 characters long, contain at least one digit, one lowercase letter, one uppercase letter, and one special character"
    case InvalidEmailAddress => "is not a valid email address"
    case NotPositive => "must be a positive integer"
  }

  /** ValidateString: rejects a value shorter than minLength bytes. The
      maximum appears only in the message; it is never compared. */
  function ValidateString(value: string, minLength: int, maxLength: int): (r: Option<ValidationError>)
    ensures r.None? <==> Utf8Len(value) >= minLength
    ensures r.Some? ==> r.value == LengthOutOfRange(minLength, maxLength)
  {
    if Utf8Len(value) < minLength then Some(LengthOutOfRange(minLength, maxLength)) else None
  }

  function ValidateUsername(value: string): (r: Option<ValidationError>)
    ensures Utf8Len(value) < 3 ==> r == Some(LengthOutOfRange(3, 25))
    ensures Utf8Len(value) >= 3 ==>
              (r.None? <==> forall i :: 0 <= i < |value| ==> IsUsernameChar(value[i]))
    ensures Utf8Len(value) >= 3 && r.Some? ==> r.value == UsernameCharset
  {
    var e := ValidateString(value, 3, 25);
    if e.Some? then e
    else if !FullMatch(value, IsUsernameChar) then Some(UsernameCharset)
    else None
  }

  /** ValidatePassword: one error, PasswordRule, for every broken rule. */
  function ValidatePassword(password: string): (r: Option<ValidationError>)
    ensures r.None? <==>
              && 8 <= Utf8Len(password) <= 30
              && (exists i :: 0 <= i < |password| && IsDigit(password[i]))
              && (exists i :: 0 <= i < |password| && IsLower(password[i]))
              && (exists i :: 0 <= i < |password| && IsUpper(password[i]))
              && (exists i :: 0 <= i < |password| && IsSpecial(password[i]))
    ensures r.Some? ==> r.value == PasswordRule
  {
    var n := Utf8Len(password);
    if n < 8 || n > 30 then Some(PasswordRule)
    else if !SomeIn(password, IsDigit) then Some(PasswordRule)
    else if !SomeIn(password, IsLower) then Some(PasswordRule)
    else if !SomeIn(password, IsUpper) then Some(PasswordRule)
    else if !SomeIn(password, IsSpecial) then Some(PasswordRule)
    else None
  }

  /** ValidateEmail; `parsesAsAddress` stands for mail.ParseAddress
      succeeding on the value. */
  function ValidateEmail(value: string, parsesAsAddress: string -> bool): (r: Option<ValidationError>)
    ensures Utf8Len(value) < 6 ==> r == Some(LengthOutOfRange(6, 200))
    ensures Utf8Len(value) >= 6 ==>
              r == (if parsesAsAddress(value) then None else Some(InvalidEmailAddress))
  {
    var e := ValidateString(value, 6, 200);
    if e.Some? then e
    else if !parsesAsAddress(value) then Some(InvalidEmailAddress)
    else None
  }

  function ValidateFullName(value: string): (r: Option<ValidationError>)
    ensures Utf8Len(value) < 3 ==> r == Some(LengthOutOfRange(3, 100))
    ensures Utf8Len(value) >= 3 ==>
              (r.None? <==> forall i :: 0 <= i < |value| ==> IsFullNameChar(value[i]))
    ensures Utf8Len(value) >= 3 && r.Some? ==> r.value == FullNameCharset
  {
    var e := ValidateString(value, 3, 100);
    if e.Some? then e
    else if !FullMatch(value, IsFullNameChar) then Some(FullNameCharset)
    else None
  }

  function ValidateEmailID(value: int): (r: Option<ValidationError>)
    ensures r.None? <==> value > 0
    ensures r.Some? ==> r.value == NotPositive
  {
    if value <= 0 then Some(NotPositive) else None
  }

  function ValidateSecretCode(value: string): (r: Option<ValidationError>)
    ensures r.None? <==> Utf8Len(value) >= 32
    ensures r.Some? ==> r.value == LengthOutOfRange(32, 128)
  {
    ValidateString(value, 32, 128)
  }

  /** n copies of one rune. */
  function Repeat(c: char, n: nat): (s: string)
    ensures |s| == n && forall i :: 0 <= i < n ==> s[i] == c
  {
    if n == 0 then [] else [c] + Repeat(c, n - 1)
  }

  /** The bound passed as maxLength never changes ValidateString's verdict. */
  lemma MaxLengthIgnored(value: string, minLength: int, max1: int, max2: int)
    ensures ValidateString(value, minLength, max1).None? == ValidateString(value, minLength, max2).None?
  {
  }

  /** ValidateString as its message describes it: the byte length must lie
      between minLength and maxLength inclusive. */
  function ValidateStringIntended(value: string, minLength: int, maxLength: int): (r: Option<ValidationError>)
    ensures r.None? <==> minLength <= Utf8Len(value) <= maxLength
    ensures r.Some? ==> r.value == LengthOutOfRange(minLength, maxLength)
  {
    var n := Utf8Len(value);
    if n < minLength || n > maxLength then Some(LengthOutOfRange(minLength, maxLength)) else None
  }

  /** A 26-letter username passes ValidateString(value, 3, 25) although the
      message names 25 as the most allowed; the intended check refuses it. */
  lemma UsernameAboveMaximumAccepted()
    ensures ValidateString(Repeat('a', 26), 3, 25).None?
    ensures ValidateUsername(Repeat('a', 26)).None?
    ensures ValidateStringIntended(Repeat('a', 26), 3, 25) == Some(LengthOutOfRange(3, 25))
  {
    LongValuesAccepted(26, s => true);
    var s := Repeat('a', 26);
    assert forall i :: 0 <= i < |s| ==> s[i] as int < 0x80;
  }

  /** No upper length is enforced: a username, full name or secret code of
      any length at or above its minimum, here n copies of 'a', is
      accepted, and so is an email of any such length exactly when the
      address parser accepts it. */
  lemma {:induction false} LongValuesAccepted(n: nat, parsesAsAddress: string -> bool)
    ensures n >= 3 ==> ValidateUsername(Repeat('a', n)).None?
    ensures n >= 3 ==> ValidateFullName(Repeat('a', n)).None?
    ensures n >= 32 ==> ValidateSecretCode(Repeat('a', n)).None?
    ensures n >= 6 ==> (ValidateEmail(Repeat('a', n), parsesAsAddress).None? <==> parsesAsAddress(Repeat('a', n)))
  {
    var s := Repeat('a', n);
    assert forall i :: 0 <= i < |s| ==> s[i] as int < 0x80;
    assert Utf8Len(s) == n;
    assert forall i :: 0 <= i < |s| ==> IsUsernameChar(s[i]) && IsFullNameChar(s[i]);
  }

  /** A too-short username is reported as too short whatever its
      characters are: the length check comes first. */
  lemma UsernameLengthFirst(value: string)
    requires Utf8Len(value) < 3
    requires exists i :: 0 <= i < |value| && !IsUsernameChar(value[i])
    ensures ValidateUsername(value) == Some(LengthOutOfRange(3, 25))
  {
  }
}
