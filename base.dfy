/** Small shared vocabulary: optional values, HTTP status codes, and the
    decimal rendering of a count that the error messages embed. */
module Base {

  datatype Option<+T> = None | Some(value: T)

  const HttpOk := 200
  const HttpCreated := 201
  const HttpNoContent := 204
  const HttpResetContent := 205
  const HttpBadRequest := 400
  const HttpUnauthorized := 401
  const HttpNotFound := 404
  const HttpMethodNotAllowed := 405
  const HttpServerError := 500

  function DigitChar(d: nat): (c: char)
    requires d < 10
    ensures '0' <= c <= '9'
  {
    (48 + d) as char
  }

  /** Python's str() of a non-negative integer: shortest decimal form, digits only. */
  function NatToString(n: nat): (s: string)
    ensures |s| >= 1
    ensures forall i :: 0 <= i < |s| ==> '0' <= s[i] <= '9'
  {
    if n < 10 then [DigitChar(n)] else NatToString(n / 10) + [DigitChar(n % 10)]
  }

  /** Reading the digits back gives the number: the rendering loses nothing. */
  function DigitsValue(s: string): nat
    requires forall i :: 0 <= i < |s| ==> '0' <= s[i] <= '9'
  {
    if s == [] then 0 else DigitsValue(s[..|s| - 1]) * 10 + (s[|s| - 1] as int - 48)
  }

  lemma {:induction false} NatToStringRoundTrip(n: nat)
    ensures DigitsValue(NatToString(n)) == n
  {
    if n >= 10 {
      NatToStringRoundTrip(n / 10);
      var s := NatToString(n);
      assert s[..|s| - 1] == NatToString(n / 10);
    }
  }
}
