/** The values found in the dictionaries the automation library returns (`d.info`,
    `el.info`), and the Python operations the tools apply to them: `dict.get` with a
    default, a chained `.get(...).get(...)`, and `str()` of an integer. */
module PyValues {
  import opened Outcomes

  /** A JSON-shaped Python value. */
  datatype Value =
    | Null
    | Bool(b: bool)
    | Int(i: int)
    | Float(f: real)
    | Str(s: string)
    | List(items: seq<Value>)
    | Dict(fields: map<string, Value>)

  /** `type(v).__name__`. */
  function TypeName(v: Value): string {
    match v
    case Null => "NoneType"
    case Bool(_) => "bool"
    case Int(_) => "int"
    case Float(_) => "float"
    case Str(_) => "str"
    case List(_) => "list"
    case Dict(_) => "dict"
  }

  /** The text of the AttributeError raised by reading a missing attribute. */
  function NoAttribute(typeName: string, attr: string): string {
    "'" + typeName + "' object has no attribute '" + attr + "'"
  }

  /** `d.get(key, default)`: the entry when the key is present, the default when it
      is not. */
  function Get(d: map<string, Value>, key: string, default: Value): (r: Value)
    ensures key in d ==> r == d[key]
    ensures key !in d ==> r == default
  {
    if key in d then d[key] else default
  }

  /** `d.get(outer, {}).get(inner, default)`: only a dictionary has `.get`, so a
      present non-dictionary value under `outer` raises AttributeError. */
  function GetNested(d: map<string, Value>, outer: string, inner: string, default: Value): (r: Call<Value>)
    ensures r.Raised? <==> outer in d && !d[outer].Dict?
    ensures outer !in d ==> r == Returned(default)
    ensures outer in d && d[outer].Dict? ==> r == Returned(Get(d[outer].fields, inner, default))
    ensures r.Raised? ==> r.message == NoAttribute(TypeName(d[outer]), "get")
  {
    var o := Get(d, outer, Dict(map[]));
    if o.Dict? then Returned(Get(o.fields, inner, default))
    else Raised(NoAttribute(TypeName(o), "get"))
  }

  function DigitChar(d: nat): char
    requires d < 10
  {
    "0123456789"[d]
  }

  /** The decimal digits of a natural number, most significant first. */
  function Digits(n: nat): (r: string)
    ensures r != []
    ensures forall k :: 0 <= k < |r| ==> '0' <= r[k] <= '9'
    ensures |r| > 1 ==> r[0] != '0'
  {
    if n < 10 then [DigitChar(n)] else Digits(n / 10) + [DigitChar(n % 10)]
  }

  /** `str(n)` for an integer. */
  function Decimal(n: int): (r: string)
    ensures r != [] && 'x' !in r
    ensures n >= 0 ==> r == Digits(n)
    ensures n < 0 ==> r == "-" + Digits(-n)
  {
    if n >= 0 then Digits(n) else "-" + Digits(-n)
  }

  /** The value of a string of decimal digits. */
  function DigitsValue(s: string): nat
    requires forall k :: 0 <= k < |s| ==> '0' <= s[k] <= '9'
  {
    if s == [] then 0 else DigitsValue(s[..|s| - 1]) * 10 + ((s[|s| - 1] as int) - ('0' as int))
  }

  /** Reading the digits back gives the number. */
  lemma {:induction false} DigitsRoundTrip(n: nat)
    ensures DigitsValue(Digits(n)) == n
  {
    if n >= 10 {
      var r := Digits(n);
      assert r[..|r| - 1] == Digits(n / 10);
      DigitsRoundTrip(n / 10);
    }
  }
}
