/** Shared vocabulary of the storefront controllers: optional values, request
    payloads, the validation rules they use, PHP truthiness and the outcome of
    a request. */
module Base {

  datatype Option<T> = None | Some(value: T)

  /** One request field as the controllers see it: absent or null, a string
      (numeric strings included, as forms send them), or a JSON number. */
  datatype Value = Null | Text(s: string) | Number(n: real)

  /** A request payload: field name to value. */
  type Request = map<string, Value>

  /** What a controller action answers when it does not render a page. */
  datatype Outcome =
    | Done                          // redirect with a success message
    | NotFound                      // 404: route-model binding found no row
    | Forbidden                     // 403: the caller does not own the row
    | Invalid(fields: set<string>)  // validation failed on these fields
    | EmptyCart                     // redirect to the shop: the cart is empty
    | Failed                        // redirect back with an error message
    | ServerError                   // an uncaught exception: HTTP 500

  /** A page is either rendered or refused with an outcome. */
  datatype Response<T> = Shown(view: T) | Refused(why: Outcome)

  /** `$request->input(key)`: null when the key was not sent. */
  function Input(req: Request, key: string): (v: Value)
    ensures key !in req ==> v == Null
    ensures key in req ==> v == req[key]
  {
    if key in req then req[key] else Null
  }

  /** The characters PHP's `trim` strips. */
  predicate Trimmable(c: char) {
    c == ' ' || c == '\t' || c == '\n' || c == '\r' || c as int == 0 || c as int == 11
  }

  /** A string that `trim` reduces to "". */
  predicate Blank(s: string) {
    forall i :: 0 <= i < |s| ==> Trimmable(s[i])
  }

  /** The `required` rule: not null, not a blank string. */
  predicate Required(v: Value) {
    match v
    case Null => false
    case Text(s) => !Blank(s)
    case Number(_) => true
  }

  /** `required|string|max:limit` on a text field. */
  predicate RequiredText(v: Value, limit: nat) {
    Required(v) && v.Text? && |v.s| <= limit
  }

  /** `nullable|string`. */
  predicate NullableText(v: Value) {
    v.Null? || v.Text?
  }

  predicate IsDigit(c: char) { '0' <= c <= '9' }

  /** Zero or more decimal digits. */
  predicate AllDigits(s: string) {
    forall i :: 0 <= i < |s| ==> IsDigit(s[i])
  }

  /** The value of a run of decimal digits. */
  function DigitsValue(s: string): nat
    requires AllDigits(s)
  {
    if s == [] then 0 else DigitsValue(s[..|s| - 1]) * 10 + (s[|s| - 1] as int - '0' as int)
  }

  function Pow10(n: nat): (r: nat)
    ensures r >= 1
  {
    if n == 0 then 1 else 10 * Pow10(n - 1)
  }

  /** The position of the first '.', if any. */
  function DotIndex(s: string): (r: Option<nat>)
    ensures r.Some? ==> r.value < |s| && s[r.value] == '.' && '.' !in s[..r.value]
    ensures r.None? <==> '.' !in s
  {
    if s == [] then None
    else if s[0] == '.' then Some(0)
    else
      var r := DotIndex(s[1..]);
      assert s == [s[0]] + s[1..];
      if r.Some? then
        assert s[..r.value + 1] == [s[0]] + s[1..][..r.value];
        Some(r.value + 1)
      else None
  }

  /** Digits with at most one '.', and at least one digit: "12", "12.50",
      ".5", "5.". */
  predicate UnsignedNumeral(s: string) {
    match DotIndex(s)
    case None => |s| >= 1 && AllDigits(s)
    case Some(i) => |s| >= 2 && AllDigits(s[..i]) && AllDigits(s[i + 1..])
  }

  function UnsignedValue(s: string): (x: real)
    requires UnsignedNumeral(s)
    ensures x >= 0.0
  {
    match DotIndex(s)
    case None => DigitsValue(s) as real
    case Some(i) => DigitsValue(s[..i]) as real + DigitsValue(s[i + 1..]) as real / Pow10(|s| - i - 1) as real
  }

  predicate HasSign(s: string) {
    |s| >= 1 && (s[0] == '-' || s[0] == '+')
  }

  /** The strings the `numeric` rule (`is_numeric`) accepts, as far as this
      model goes: an optional sign and a decimal numeral. */
  predicate NumericText(s: string) {
    if HasSign(s) then UnsignedNumeral(s[1..]) else UnsignedNumeral(s)
  }

  /** The number a numeric string denotes. */
  function NumberOf(s: string): (x: real)
    requires NumericText(s)
    ensures !HasSign(s) ==> x >= 0.0
  {
    if !HasSign(s) then UnsignedValue(s)
    else if s[0] == '-' then -UnsignedValue(s[1..])
    else UnsignedValue(s[1..])
  }

  /** The shape of the strings the `integer` rule (`FILTER_VALIDATE_INT`)
      accepts: an optional sign and digits without a leading zero, or "0"
      itself. Their range is checked by `IsInteger`. */
  predicate IntegerText(s: string) {
    var d := if HasSign(s) then s[1..] else s;
    |d| >= 1 && AllDigits(d) && (d[0] != '0' || |d| == 1)
  }

  /** A value the `numeric` rule accepts: a number, or a numeric string. */
  predicate IsNumeric(v: Value) {
    v.Number? || (v.Text? && NumericText(v.s))
  }

  function NumericValue(v: Value): real
    requires IsNumeric(v)
  {
    if v.Number? then v.n else NumberOf(v.s)
  }

  /** The range of PHP's `int` (64 bits): `FILTER_VALIDATE_INT` refuses
      anything outside it. */
  const Int64Min: int := -0x8000_0000_0000_0000
  const Int64Max: int := 0x7FFF_FFFF_FFFF_FFFF

  predicate InInt64(k: int) { Int64Min <= k <= Int64Max }

  /** Every integer string is a numeric string. */
  lemma IntegerTextIsNumeric(s: string)
    requires IntegerText(s)
    ensures NumericText(s)
  {
    var d := if HasSign(s) then s[1..] else s;
    assert '.' !in d by {
      forall i | 0 <= i < |d| ensures d[i] != '.' {
        assert IsDigit(d[i]);
      }
    }
  }

  /** The integer an integer string denotes; it is the number it denotes. */
  function IntegerTextValue(s: string): (k: int)
    requires IntegerText(s)
    ensures NumericText(s) && k as real == NumberOf(s)
  {
    IntegerTextIsNumeric(s);
    var d := if HasSign(s) then s[1..] else s;
    assert DotIndex(d).None?;
    if HasSign(s) && s[0] == '-' then 0 - DigitsValue(d) as int else DigitsValue(d)
  }

  /** A value the `integer` rule accepts: a whole number, or an integer
      string, within PHP's integer range. */
  predicate IsInteger(v: Value) {
    || (v.Number? && v.n.Floor as real == v.n && InInt64(v.n.Floor))
    || (v.Text? && IntegerText(v.s) && InInt64(IntegerTextValue(v.s)))
  }

  /** The integer an integer value denotes; it is its numeric value. */
  function IntegerValue(v: Value): (k: int)
    requires IsInteger(v)
    ensures IsNumeric(v) && k as real == NumericValue(v) && InInt64(k)
  {
    if v.Number? then v.n.Floor else IntegerTextValue(v.s)
  }

  /** A run of digits not starting with '0' is at least 10 to the power of
      its length less one. */
  lemma {:induction false} DigitsValueAtLeast(s: string)
    requires |s| >= 1 && AllDigits(s) && s[0] != '0'
    ensures DigitsValue(s) >= Pow10(|s| - 1)
  {
    if |s| > 1 {
      var init := s[..|s| - 1];
      assert init[0] == s[0];
      DigitsValueAtLeast(init);
    }
  }

  lemma {:induction false} Pow10Grows(m: nat, n: nat)
    requires m <= n
    ensures Pow10(m) <= Pow10(n)
  {
    if m < n {
      Pow10Grows(m, n - 1);
    }
  }

  /** Twenty or more digits without a leading zero are beyond PHP's integer
      range: such a text is numeric but not an integer. */
  lemma LongDigitTextRefused(s: string)
    requires |s| >= 20 && AllDigits(s) && s[0] != '0'
    ensures IsNumeric(Text(s))
    ensures !IsInteger(Text(s))
  {
    assert !HasSign(s) && IntegerText(s);
    IntegerTextIsNumeric(s);
    assert IntegerTextValue(s) == DigitsValue(s);
    DigitsValueAtLeast(s);
    Pow10Grows(19, |s| - 1);
    assert Pow10(19) > Int64Max by {
      assert Pow10(3) == 1000;
      assert Pow10(6) == 1000 * Pow10(3);
      assert Pow10(9) == 1000 * Pow10(6);
      assert Pow10(12) == 1000 * Pow10(9);
      assert Pow10(15) == 1000 * Pow10(12);
      assert Pow10(18) == 1000 * Pow10(15);
      assert Pow10(19) == 10 * Pow10(18);
    }
  }

  /** `required|numeric|min:least`. */
  predicate RequiredNumber(v: Value, least: real) {
    Required(v) && IsNumeric(v) && NumericValue(v) >= least
  }

  /** `required|integer|min:least`. */
  predicate RequiredInteger(v: Value, least: int) {
    Required(v) && IsInteger(v) && IntegerValue(v) >= least
  }

  /** A string of digits is both text and a number: "12345" passes
      `string|max:10` as well as `numeric`, with the value 12345. */
  lemma DigitStringIsTextAndNumber()
    ensures RequiredText(Text("12345"), 10)
    ensures RequiredNumber(Text("12345"), 0.0) && NumericValue(Text("12345")) == 12345.0
    ensures RequiredInteger(Text("12345"), 1) && IntegerValue(Text("12345")) == 12345
  {
    var s := "12345";
    assert !Trimmable(s[0]) && !HasSign(s);
    assert AllDigits(s);
    assert DigitsValue(s) == 12345 by {
      assert DigitsValue("12") == 12 by {
        assert "12"[..1] == "1";
      }
      assert DigitsValue("1234") == 1234 by {
        assert "1234"[..3] == "123" && "123"[..2] == "12";
      }
      assert s[..4] == "1234";
    }
    assert DotIndex(s).None? by {
      assert '.' !in s;
    }
  }

  /** A decimal string is read with its fraction: "19.99" passes `numeric`
      with the value 19.99. */
  lemma DecimalTextIsNumber()
    ensures RequiredNumber(Text("19.99"), 0.0) && NumericValue(Text("19.99")) == 19.99
  {
    var s := "19.99";
    assert !Trimmable(s[0]) && !HasSign(s);
    assert DotIndex(s) == Some(2) by {
      assert s[..2] == "19" && '.' !in s[..2];
    }
    assert DigitsValue(s[..2]) == 19 by {
      assert s[..2] == "19" && "19"[..1] == "1";
    }
    assert DigitsValue(s[3..]) == 99 by {
      assert s[3..] == "99" && "99"[..1] == "9";
    }
    assert Pow10(2) == 100;
  }

  /** The shape the `email` rule accepts, approximated: one '@' with a
      non-empty part on each side and no blank character. */
  predicate EmailShaped(s: string) {
    && (forall k :: 0 <= k < |s| ==> !Trimmable(s[k]))
    && exists i | 0 < i < |s| - 1 :: s[i] == '@' && '@' !in s[..i] && '@' !in s[i + 1..]
  }

  /** `required|email|max:limit`. */
  predicate RequiredEmail(v: Value, limit: nat) {
    Required(v) && v.Text? && EmailShaped(v.s) && |v.s| <= limit
  }

  /** PHP truthiness of an optional query-string input, as `when(...)` tests
      it: null, "" and "0" are falsy. */
  predicate Falsy(o: Option<string>) {
    o.None? || o.value == "" || o.value == "0"
  }

  /** `needle` occurs in `hay` starting at index `i`. */
  predicate OccursAt(hay: string, needle: string, i: int) {
    0 <= i && i + |needle| <= |hay| && hay[i..i + |needle|] == needle
  }

  /** `column LIKE '%needle%'`, as a plain substring test. */
  predicate Contains(hay: string, needle: string) {
    exists i | 0 <= i <= |hay| - |needle| :: OccursAt(hay, needle, i)
  }
}
