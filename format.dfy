/** Values as the kiosk receives them from `JSON.parse`, and the `fmt`
    helper that turns one metadata value into display text
    (exhibit-kiosk/src/lib/format.ts). */
module Format {
  import opened Wrappers

  /** A parsed JSON value. `Undefined` stands for a missing property.
      Numbers are integral here; `Object` keeps its entries in the order
      `Object.entries` yields them. */
  datatype JsValue =
    | Undefined
    | Null
    | Bool(b: bool)
    | Number(n: int)
    | Str(s: string)
    | Array(items: seq<JsValue>)
    | Object(entries: seq<(string, JsValue)>)

  /** JavaScript truthiness: every value is truthy except `undefined`,
      `null`, `false`, `0` and the empty string. */
  function Truthy(v: JsValue): (b: bool)
    ensures b <==> v !in {Undefined, Null, Bool(false), Number(0), Str("")}
  {
    match v
    case Undefined => false
    case Null => false
    case Bool(b) => b
    case Number(n) => n != 0
    case Str(s) => s != ""
    case _ => true
  }

  /** `Object.entries(v)` for a value that is not a string: the entries of an
      object, the index/element pairs of an array, none for anything else. */
  function Entries(v: JsValue): (r: seq<(string, JsValue)>)
    requires !v.Str?
    ensures v.Object? ==> r == v.entries
    ensures v.Array? ==> |r| == |v.items| && forall k :: 0 <= k < |r| ==> r[k] == (IntToString(k), v.items[k])
    ensures !v.Object? && !v.Array? ==> r == []
  {
    match v
    case Object(entries) => entries
    case Array(items) => IndexedEntries(items)
    case _ => []
  }

  /** The pairs `(String(k), items[k])`. */
  function IndexedEntries(items: seq<JsValue>): (r: seq<(string, JsValue)>)
    ensures |r| == |items|
    ensures forall k :: 0 <= k < |r| ==> r[k] == (IntToString(k), items[k])
  {
    if items == [] then []
    else IndexedEntries(items[..|items| - 1]) + [(IntToString(|items| - 1), items[|items| - 1])]
  }

  predicate IsDigit(c: char) { '0' <= c <= '9' }

  function DigitChar(d: nat): (c: char)
    requires d < 10
    ensures IsDigit(c) && (c as int) - ('0' as int) == d
  {
    "0123456789"[d]
  }

  /** The decimal digits of `n`, without leading zeros. */
  function NatToDecimal(n: nat): (r: string)
    ensures |r| >= 1
    ensures forall k :: 0 <= k < |r| ==> IsDigit(r[k])
    ensures |r| > 1 ==> r[0] != '0'
    decreases n
  {
    if n < 10 then [DigitChar(n)] else NatToDecimal(n / 10) + [DigitChar(n % 10)]
  }

  /** `String(n)` for an integral JavaScript number. */
  function IntToString(n: int): (r: string)
    ensures |r| >= 1
    ensures r[0] == '-' <==> n < 0
  {
    if n < 0 then "-" + NatToDecimal(-n) else NatToDecimal(n)
  }

  function DigitValue(c: char): nat
    requires IsDigit(c)
  {
    (c as int) - ('0' as int)
  }

  /** The value of a string of decimal digits. */
  function DecimalValue(s: string): nat
    requires forall k :: 0 <= k < |s| ==> IsDigit(s[k])
  {
    if s == [] then 0 else DecimalValue(s[..|s| - 1]) * 10 + DigitValue(s[|s| - 1])
  }

  /** A canonical decimal numeral: digits only, no leading zero. */
  predicate IsCanonicalDecimal(s: string) {
    |s| >= 1 && (forall k :: 0 <= k < |s| ==> IsDigit(s[k])) && (|s| > 1 ==> s[0] != '0')
  }

  /** A canonical numeral's value. */
  function ParseNat(s: string): Option<nat> {
    if IsCanonicalDecimal(s) then Some(DecimalValue(s)) else None
  }

  /** Reads back the text `String(n)` produces for an integer: an optional
      minus sign (never on zero) followed by a canonical numeral. */
  function ParseInt(s: string): Option<int> {
    if s != [] && s[0] == '-' then
      match ParseNat(s[1..])
      case Some(v) => if v == 0 then None else Some(-(v as int))
      case None => None
    else
      match ParseNat(s)
      case Some(v) => Some(v as int)
      case None => None
  }

  lemma {:induction false} DecimalRoundTrip(n: nat)
    ensures DecimalValue(NatToDecimal(n)) == n
    decreases n
  {
    var r := NatToDecimal(n);
    if n >= 10 {
      DecimalRoundTrip(n / 10);
      assert r[..|r| - 1] == NatToDecimal(n / 10);
      assert DigitValue(r[|r| - 1]) == n % 10;
    } else {
      assert r[..0] == [];
    }
  }

  lemma NatRoundTrip(n: nat)
    ensures ParseNat(NatToDecimal(n)) == Some(n)
  {
    DecimalRoundTrip(n);
  }

  /** A canonical numeral without a sign reads back as its value. */
  lemma UnsignedReadBack(d: string, v: nat)
    requires ParseNat(d) == Some(v)
    ensures ParseInt(d) == Some(v as int)
  {
    assert IsDigit(d[0]);
  }

  /** A minus sign before a canonical numeral of a positive value negates it. */
  lemma SignedReadBack(d: string, v: nat)
    requires ParseNat(d) == Some(v) && v > 0
    ensures ParseInt("-" + d) == Some(-(v as int))
  {
    assert ("-" + d)[1..] == d;
  }

  /** `String(n)` is read back as `n`: decimal rendering loses nothing. */
  lemma IntToStringRoundTrip(n: int)
    ensures ParseInt(IntToString(n)) == Some(n)
  {
    if n < 0 {
      NatRoundTrip(-n);
      SignedReadBack(NatToDecimal(-n), -n);
    } else {
      NatRoundTrip(n);
      UnsignedReadBack(NatToDecimal(n), n);
    }
  }

  /** Distinct integers render as distinct strings. */
  lemma IntToStringInjective(a: int, b: int)
    ensures IntToString(a) == IntToString(b) <==> a == b
  {
    IntToStringRoundTrip(a);
    IntToStringRoundTrip(b);
  }

  /** `fmt(v)`: nothing for `null`/`undefined`, `String(v)` for strings,
      numbers and booleans, and `JSON.stringify(v)` for everything else.
      `JSON.stringify` is not modelled; it is the `stringify` parameter. */
  function Fmt(v: JsValue, stringify: JsValue -> string): (r: string)
    ensures v.Undefined? || v.Null? ==> r == ""
    ensures v.Str? ==> r == v.s
    ensures v.Bool? ==> r == (if v.b then "true" else "false")
    ensures v.Number? ==> ParseInt(r) == Some(v.n)
    ensures v.Array? || v.Object? ==> r == stringify(v)
  {
    match v
    case Undefined => ""
    case Null => ""
    case Bool(b) => if b then "true" else "false"
    case Number(n) => IntToStringRoundTrip(n); IntToString(n)
    case Str(s) => s
    case _ => stringify(v)
  }
}
