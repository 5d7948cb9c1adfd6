/** The JavaScript values the stores handle, JavaScript truthiness, and the
    decimal rendering of numbers used in template strings. */
module Js {

  datatype Option<+T> = None | Some(value: T)
  {
    function GetOr(default: T): T
    {
      match this
      case Some(v) => v
      case None => default
    }
  }

  /** The `{ data, error }` shape of a database or service reply. */
  datatype Result<+T> = Ok(value: T) | Err(error: string)

  /** A JavaScript value as produced by JSON.parse or held in a store.
      NaN is not represented. */
  datatype JsValue =
    | Undefined
    | Null
    | Bool(b: bool)
    | Num(n: real)
    | Str(s: string)
    | Arr(items: seq<JsValue>)
    | Obj(fields: map<string, JsValue>)

  /** A plain JavaScript object: its own properties by name. */
  type Fields = map<string, JsValue>

  /** JavaScript truthiness: `false`, `0`, `''`, `null` and `undefined` are falsy. */
  predicate Truthy(v: JsValue)
  {
    match v
    case Undefined => false
    case Null => false
    case Bool(b) => b
    case Num(n) => n != 0.0
    case Str(s) => s != ""
    case Arr(_) => true
    case Obj(_) => true
  }

  /** `v || fallback`. */
  function Or(v: JsValue, fallback: JsValue): (r: JsValue)
    ensures Truthy(v) ==> r == v
    ensures !Truthy(v) ==> r == fallback
  {
    if Truthy(v) then v else fallback
  }

  /** Property read `obj[key]`: a missing key reads as `undefined`. */
  function Get(obj: map<string, JsValue>, key: string): JsValue
  {
    if key in obj then obj[key] else Undefined
  }

  function DigitChar(d: nat): (c: char)
    requires d < 10
    ensures '0' <= c <= '9'
  {
    "0123456789"[d]
  }

  /** Decimal rendering of a natural number, as a template string shows it. */
  function NatToString(n: nat): (s: string)
    ensures |s| >= 1
    ensures forall i :: 0 <= i < |s| ==> '0' <= s[i] <= '9'
    ensures n < 10 <==> |s| == 1
  {
    if n < 10 then [DigitChar(n)] else NatToString(n / 10) + [DigitChar(n % 10)]
  }

  /** Decimal rendering of an integer (a leading '-' for negatives). */
  function IntToString(i: int): string
  {
    if i < 0 then "-" + NatToString(-i) else NatToString(i)
  }

  /** The only number rendered as "1" is 1. */
  lemma NatToStringOne(n: nat)
    ensures NatToString(n) == "1" <==> n == 1
  {
    if n < 10 && NatToString(n) == "1" {
      assert DigitChar(n) == '1';
      assert "0123456789"[n] == '1';
    }
  }

  /** Math.round for the non-negative reals it is applied to here. */
  function Round(x: real): int
  {
    (x + 0.5).Floor
  }

  /** Comparing a quotient with a bound is comparing the dividend with the
      scaled bound. */
  lemma DivCompare(x: real, t: real, y: real)
    requires t > 0.0
    ensures x / t > y <==> x > y * t
    ensures x / t < y <==> x < y * t
  {
    var r := x / t;
    assert r * t == x;
    ScaleCompare(r, y, t);
  }

  lemma ScaleCompare(x: real, y: real, t: real)
    requires t > 0.0
    ensures x < y <==> x * t < y * t
    ensures x > y <==> x * t > y * t
  {
  }
}
