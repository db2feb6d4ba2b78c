/**
 * The request-reading helpers of the handlers package, taken over the string
 * already extracted from the route (`c.Param`) or the query string (`c.Query`).
 * `ReadJSON` is not part of this model.
 */
module Helpers {
  import opened Wrappers
  import opened GoText
  import opened Validation

  const InvalidIdMessage := "invalid id parameter"

  /** `ReadIDParam`: a base-10 64-bit integer that is at least 1. */
  function ReadIDParam(param: Bytes): (r: Result<int, string>)
    ensures r.Success? <==> (ParseInt64(param).Some? && ParseInt64(param).value >= 1)
    ensures r.Success? ==> 1 <= r.value <= MaxInt64 && ParseInt64(param) == Some(r.value)
    ensures r.Failure? ==> r.error == InvalidIdMessage
  {
    match ParseInt64(param)
    case Some(id) => if id < 1 then Failure(InvalidIdMessage) else Success(id)
    case None => Failure(InvalidIdMessage)
  }

  /** Every id in range is read back from its decimal rendering. */
  lemma ReadIDParamRoundTrip(n: int)
    requires 1 <= n <= MaxInt64
    ensures ReadIDParam(Ascii(Itoa(n))) == Success(n)
  {
    ParseItoa(n);
  }

  /** "0" and a leading minus sign are rejected. */
  lemma ReadIDParamRejectsNonPositive(digits: Bytes)
    requires AllDigits(digits)
    ensures ReadIDParam(Ascii("0")).Failure?
    ensures ReadIDParam([Minus] + digits).Failure?
  {
    assert Ascii("0") == [48];
    assert ParseInt64(Ascii("0")) == Some(0);
    var s := [Minus] + digits;
    assert s[1..] == digits;
  }

  /** A byte that is not a digit, after the optional sign, is rejected. */
  lemma ReadIDParamRejectsNonDigits(param: Bytes, i: nat)
    requires i < |param| && !IsDigit(param[i])
    requires i == 0 ==> param[0] != Plus && param[0] != Minus
    ensures ReadIDParam(param).Failure?
  {
    if param[0] == Plus || param[0] == Minus {
      assert param[1..][i - 1] == param[i];
    }
  }

  /** Values beyond the signed 64-bit range are rejected. */
  lemma ReadIDParamRejectsOverflow(digits: Bytes)
    requires digits != [] && AllDigits(digits) && DigitsValue(digits) > MaxInt64
    ensures ReadIDParam(digits).Failure?
  {
    assert digits[0] != Plus && digits[0] != Minus by { assert IsDigit(digits[0]); }
  }

  /** `ReadCSV`: the default for an empty value, else the comma-separated pieces. */
  function ReadCSV(value: Bytes, defaultValue: seq<Bytes>): (r: seq<Bytes>)
    ensures value == [] ==> r == defaultValue
    ensures value != [] ==> |r| == Count(value, Comma) + 1
    ensures value != [] ==> Join(r, Comma) == value
    ensures value != [] ==> forall i | 0 <= i < |r| :: Comma !in r[i]
  {
    if value == [] then defaultValue
    else
      SplitProperties(value, Comma);
      Split(value, Comma)
  }

  /**
   * `ReadInt`: the default for an empty value; for a value that is not a
   * 64-bit integer, the default and a "must be an integer value" error under
   * `key`; otherwise the integer.
   */
  method ReadInt(value: Bytes, key: string, defaultValue: int, v: Validator) returns (i: int)
    modifies v
    ensures value == [] ==> i == defaultValue && v.errors == old(v.errors)
    ensures value != [] && ParseInt64(value).None? ==>
      i == defaultValue && v.errors == old(v.errors) + [FieldError(key, "must be an integer value")]
    ensures value != [] && ParseInt64(value).Some? ==>
      i == ParseInt64(value).value && v.errors == old(v.errors)
  {
    if value == [] {
      return defaultValue;
    }
    var parsed := ParseInt64(value);
    if parsed.None? {
      v.AddError(key, "must be an integer value");
      return defaultValue;
    }
    i := parsed.value;
  }

  /** `ReadString`: the default for an empty value, else the value itself. */
  function ReadString(value: Bytes, defaultValue: Bytes): (r: Bytes)
    ensures value == [] ==> r == defaultValue
    ensures value != [] ==> r == value
  {
    if value == [] then defaultValue else value
  }
}
