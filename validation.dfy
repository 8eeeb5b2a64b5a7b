/**
 * The request payload as the controllers' `$request->validate([...])` sees it, and
 * the validation rules they use. The framework trims every string except `password` and
 * `password_confirmation`, and turns the empty strings left over into null; `Str("")` is
 * therefore handled like `Null`, and only the two password fields can arrive blank.
 */
module Validation {
  import opened Text

  /** A payload value: a JSON string, a JSON number, or null. */
  datatype Value = Str(s: string) | Num(n: int) | Null

  /** A request payload: field name to value. */
  type Input = map<string, Value>

  /** The `max:255` bound used for every string column. */
  const MaxString: nat := 255

  /** `required`: the field is present and neither null nor empty. */
  predicate Filled(input: Input, key: string)
  {
    key in input && input[key] != Null && input[key] != Str("")
  }

  /** `required|string` on a present, already trimmed value: a non-empty string of any length. */
  predicate FilledString(v: Value)
  {
    v.Str? && v.s != ""
  }

  /** A character PHP's `trim` removes: space, tab, newline, carriage return, NUL, vertical tab. */
  predicate IsTrimChar(c: char)
  {
    c == ' ' || c == '\t' || c == '\n' || c == '\r' || c == '\0' || c == '\U{000B}'
  }

  /** What `trim` leaves non-empty: some character outside the trim set. */
  predicate NonBlank(s: string)
  {
    exists i :: 0 <= i < |s| && !IsTrimChar(s[i])
  }

  /**
   * `required|string` on a present value that was not trimmed (the password fields):
   * `required` trims before its emptiness test, so a string of only blanks fails.
   */
  predicate FilledUntrimmed(v: Value)
  {
    v.Str? && NonBlank(v.s)
  }

  /** `string|max:n` on a present value. */
  predicate StringUpTo(v: Value, max: nat)
  {
    v.Str? && v.s != "" && |v.s| <= max
  }

  /** `required|string|max:n`. */
  predicate RequiredString(input: Input, key: string, max: nat)
  {
    key in input && StringUpTo(input[key], max)
  }

  /** `sometimes|string|max:n`: checked only when the field is present. */
  predicate OptionalString(input: Input, key: string, max: nat)
  {
    key !in input || StringUpTo(input[key], max)
  }

  /** `string|in:...`: a string from the listed domain. */
  predicate StringIn(v: Value, domain: set<string>)
  {
    v.Str? && v.s != "" && v.s in domain
  }

  /** A decimal digit. */
  predicate IsDigit(c: char)
  {
    '0' <= c <= '9'
  }

  /** A non-empty run of decimal digits, the whole-number strings a form sends. */
  predicate IsDigits(s: string)
  {
    s != [] && forall i :: 0 <= i < |s| ==> IsDigit(s[i])
  }

  /** The number a run of decimal digits denotes, most significant digit first. */
  function DigitsValue(s: string): nat
    requires forall i :: 0 <= i < |s| ==> IsDigit(s[i])
  {
    if s == [] then 0
    else
      assert IsDigit(s[|s| - 1]);
      DigitsValue(s[..|s| - 1]) * 10 + (s[|s| - 1] as int - '0' as int)
  }

  /** The shortest decimal rendering of `n`. */
  function Decimal(n: nat): (s: string)
    ensures IsDigits(s)
  {
    var d := [(n % 10 + '0' as int) as char];
    if n < 10 then d else Decimal(n / 10) + d
  }

  /** Reading back the decimal rendering of a number gives the number. */
  lemma {:induction false} DecimalRoundTrip(n: nat)
    ensures DigitsValue(Decimal(n)) == n
  {
    var s := Decimal(n);
    var d := (n % 10 + '0' as int) as char;
    if n >= 10 {
      DecimalRoundTrip(n / 10);
      assert s[..|s| - 1] == Decimal(n / 10);
    }
    assert s[|s| - 1] == d;
  }

  /** A leading zero does not change the value of a digit run. */
  lemma {:induction false} LeadingZeroIgnored(s: string)
    requires forall i :: 0 <= i < |s| ==> IsDigit(s[i])
    ensures DigitsValue("0" + s) == DigitsValue(s)
  {
    if s != [] {
      var t := "0" + s;
      assert t[..|t| - 1] == "0" + s[..|s| - 1];
      assert t[|t| - 1] == s[|s| - 1];
      LeadingZeroIgnored(s[..|s| - 1]);
    }
  }

  /**
   * `numeric|min:0` for whole numbers: a JSON number at least 0, or a string of decimal
   * digits (form and query values always arrive as strings).
   */
  predicate NonNegativeNumber(v: Value)
  {
    (v.Num? && v.n >= 0) || (v.Str? && IsDigits(v.s))
  }

  /** The whole number an accepted `numeric|min:0` value denotes. */
  function NumberOf(v: Value): (n: nat)
    requires NonNegativeNumber(v)
    ensures v.Num? ==> n == v.n
    ensures v.Str? ==> n == DigitsValue(v.s)
  {
    if v.Num? then v.n else DigitsValue(v.s)
  }

  /** One hexadecimal digit, either case. */
  predicate IsHexDigit(c: char)
  {
    '0' <= c <= '9' || 'a' <= c <= 'f' || 'A' <= c <= 'F'
  }

  /** Positions of the four hyphens in the 8-4-4-4-12 layout. */
  predicate IsHyphenPosition(i: int)
  {
    i == 8 || i == 13 || i == 18 || i == 23
  }

  /** The `uuid` rule: 8-4-4-4-12 hexadecimal digits separated by hyphens. */
  predicate IsUuid(s: string)
  {
    |s| == 36 &&
    forall i :: 0 <= i < 36 ==> if IsHyphenPosition(i) then s[i] == '-' else IsHexDigit(s[i])
  }

  /** `uuid` on a payload value. */
  predicate UuidValue(v: Value)
  {
    v.Str? && IsUuid(v.s)
  }
}
