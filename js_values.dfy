/** The JavaScript values a JSON request body can carry in one field,
    reduced to the distinctions the account handlers make: absence,
    `null`, booleans, numbers, strings, and everything else (objects and
    arrays, which are always truthy). JSON cannot carry NaN, so a number is
    an ordinary real. A JavaScript string is a sequence of UTF-16 code
    units; here each `char` stands for one code unit. */
module JsValues {

  datatype JsValue =
    | Undefined          // the body has no such field
    | Null
    | Bool(b: bool)
    | Num(n: real)
    | Str(s: string)
    | Obj                // any object or array

  /** JavaScript truthiness: `undefined`, `null`, `false`, `0` and `""`
      are the falsy values a JSON body can produce. */
  predicate Truthy(v: JsValue)
  {
    match v
    case Undefined => false
    case Null => false
    case Bool(b) => b
    case Num(n) => n != 0.0
    case Str(s) => s != ""
    case Obj => true
  }

  /** `v === null || v === undefined` */
  predicate IsNullish(v: JsValue)
  {
    v.Undefined? || v.Null?
  }

  /** The falsy values exactly: the ones `if (v)` skips. */
  lemma FalsyValues(v: JsValue)
    ensures !Truthy(v) <==> v in {Undefined, Null, Bool(false), Num(0.0), Str("")}
  {
  }
}
