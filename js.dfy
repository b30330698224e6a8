/** The JavaScript values the client stores and compares, with the three
    language rules it leans on: truthiness, conversion to text in template
    literals, and strict equality. */
module Js {
  import opened Numbers
  import opened Strings

  datatype Prim =
    | Undefined
    | Null
    | Bool(b: bool)
    | Number(n: Num)
    | Str(s: string)

  /** What `if (x)` tests: false for undefined, null, false, 0, NaN and "". */
  predicate Truthy(x: Prim)
  {
    match x
    case Undefined => false
    case Null => false
    case Bool(b) => b
    case Number(n) => n.Int? && n.v != 0
    case Str(s) => |s| > 0
  }

  /** What `${x}` inserts into a template literal. */
  function ToStr(x: Prim): string
  {
    match x
    case Undefined => "undefined"
    case Null => "null"
    case Bool(b) => if b then "true" else "false"
    case Number(n) => NumToString(n)
    case Str(s) => s
  }

  /** `x === y`: same type and same value, except that NaN equals nothing. */
  predicate StrictEq(x: Prim, y: Prim)
  {
    x == y && x != Number(NaN)
  }

  /** How a `Date` was built; the dates themselves depend on the local time
      zone and are not computed. */
  datatype DateSpec =
    | FromParts(parts: seq<string>)       // new Date(y, m - 1, d) from "y-m-d" pieces
    | FromText(text: string)              // new Date(text)
    | FromEpochSeconds(seconds: Num)      // new Date(seconds * 1000)

  /** A value held in an entity's field cache or assigned as a property. */
  datatype Value =
    | P(prim: Prim)
    | Texts(items: seq<string>)
    | Date(spec: DateSpec)
    | Authors(names: seq<string>)         // User objects, by user name
    | SeriesList(ids: seq<string>)        // Series objects, by series id

  /** What `${v}` inserts for a cached value: a primitive as `ToStr` does,
      an array as its items joined by ",".  The client only ever renders
      cached numbers this way; other objects give the empty text here. */
  function Templated(v: Value): string
  {
    match v
    case P(p) => ToStr(p)
    case Texts(items) => Join(items, ",")
    case _ => ""
  }

  /** Objects and arrays are always truthy. */
  predicate TruthyValue(x: Value)
  {
    x.P? ==> Truthy(x.prim)
  }

  // ---------------------------------------------------------------------
  // Properties

  /** A template literal renders a number as `parseInt` reads it back. */
  lemma ToStrOfInteger(v: int)
    ensures ParseIntDecimal(ToStr(Number(Int(v)))) == Int(v)
  {
    ParseIntOfRendering(v, "", false);
    assert IntToString(v) + "" == IntToString(v);
  }
}
