/** The JavaScript values that reach the modelled code through JSON frames,
    payloads and plain objects. Numbers are integers here: NaN, infinities and
    fractions are not modelled. */
module JsValues {

  datatype JsValue =
    | Undefined
    | Null
    | Bool(b: bool)
    | Num(n: int)
    | Str(s: string)
    | Arr(items: seq<JsValue>)
      /** A plain object, as the ordered list that `Object.entries` yields. */
    | Obj(fields: seq<(string, JsValue)>)
      /** A browser `File`, known only by its identity. */
    | File(handle: nat)

  /** JavaScript truthiness (`if (v)`, `!v`, `v || d`). */
  predicate Truthy(v: JsValue) {
    match v
    case Undefined => false
    case Null => false
    case Bool(b) => b
    case Num(n) => n != 0
    case Str(s) => s != ""
    case Arr(_) => true
    case Obj(_) => true
    case File(_) => true
  }

  /** `v === null || v === undefined` */
  predicate Nullish(v: JsValue) {
    v.Undefined? || v.Null?
  }

  /** `key in obj` for an object's own keys. */
  predicate HasKey(fields: seq<(string, JsValue)>, key: string) {
    exists k :: 0 <= k < |fields| && fields[k].0 == key
  }

  /** `obj[key]`: the value stored under `key`, or `undefined`. */
  function Get(fields: seq<(string, JsValue)>, key: string): (v: JsValue)
    ensures !HasKey(fields, key) ==> v == Undefined
    ensures HasKey(fields, key) ==> exists k :: 0 <= k < |fields| && fields[k] == (key, v)
  {
    if fields == [] then Undefined
    else if fields[0].0 == key then fields[0].1
    else
      var v := Get(fields[1..], key);
      assert HasKey(fields, key) ==> HasKey(fields[1..], key) by {
        if HasKey(fields, key) {
          var k :| 0 <= k < |fields| && fields[k].0 == key;
          assert fields[1..][k - 1].0 == key;
        }
      }
      assert HasKey(fields[1..], key) ==> exists k :: 0 <= k < |fields| && fields[k] == (key, v) by {
        if HasKey(fields[1..], key) {
          var k :| 0 <= k < |fields[1..]| && fields[1..][k] == (key, v);
          assert fields[k + 1] == (key, v);
        }
      }
      v
  }

  function DigitChar(d: nat): char
    requires d < 10
  {
    "0123456789"[d]
  }

  /** Decimal notation of a natural number, as `String(n)` writes it. */
  function NatToDecimal(n: nat): (s: string)
    ensures |s| >= 1
    decreases n
  {
    if n < 10 then [DigitChar(n)] else NatToDecimal(n / 10) + [DigitChar(n % 10)]
  }

  /** Every character is a decimal digit. */
  predicate IsDigits(s: string) {
    forall k :: 0 <= k < |s| ==> '0' <= s[k] <= '9'
  }

  /** The number a digit string denotes. */
  function DecimalValue(s: string): nat
    requires IsDigits(s)
  {
    if s == [] then 0 else 10 * DecimalValue(s[..|s| - 1]) + (s[|s| - 1] - '0') as nat
  }

  /** Decimal notation reads back as the number it was made from, and has no
      leading zero except for 0 itself. */
  lemma {:induction false} NatToDecimalValue(n: nat)
    ensures IsDigits(NatToDecimal(n)) && DecimalValue(NatToDecimal(n)) == n
    ensures NatToDecimal(n)[0] == '0' ==> n == 0
  {
    var s := NatToDecimal(n);
    if n >= 10 {
      NatToDecimalValue(n / 10);
      var prefix := NatToDecimal(n / 10);
      assert s == prefix + [DigitChar(n % 10)];
      assert s[..|s| - 1] == prefix;
      assert s[0] == prefix[0];
    }
  }

  /** `String(v)`: arrays are joined with "," and their null or undefined
      items become empty strings, as `Array.prototype.toString` does. A string
      is itself, and a number is its decimal digits, after a '-' when negative. */
  function ToJsString(v: JsValue): (s: string)
    ensures v.Str? ==> s == v.s
    ensures v.Null? ==> s == "null"
    ensures v.Undefined? ==> s == "undefined"
    ensures v.Num? && v.n >= 0 ==> IsDigits(s) && DecimalValue(s) == v.n
    ensures v.Num? && v.n < 0 ==> |s| >= 2 && s[0] == '-' && IsDigits(s[1..]) && DecimalValue(s[1..]) == -v.n
    decreases v
  {
    match v
    case Undefined => "undefined"
    case Null => "null"
    case Bool(b) => if b then "true" else "false"
    case Num(n) =>
      if n < 0 then
        NatToDecimalValue(-n);
        assert ("-" + NatToDecimal(-n))[1..] == NatToDecimal(-n);
        "-" + NatToDecimal(-n)
      else
        NatToDecimalValue(n);
        NatToDecimal(n)
    case Str(s) => s
    case Arr(items) => JoinItems(items, v)
    case Obj(_) => "[object Object]"
    case File(_) => "[object File]"
  }

  /** The items of the array `whole`, each converted by `String` (null and
      undefined items as ""), separated by ",". */
  function JoinItems(items: seq<JsValue>, ghost whole: JsValue): string
    requires forall i :: 0 <= i < |items| ==> items[i] < whole
    decreases whole, |items|
  {
    if items == [] then ""
    else
      var first := if Nullish(items[0]) then "" else ToJsString(items[0]);
      if |items| == 1 then first else first + "," + JoinItems(items[1..], whole)
  }
}
