/** The JavaScript values the extraction route handles: whatever
    `JSON.parse` can return, plus `undefined` for a missing property, with
    JavaScript's truthiness and the property reads the route performs. */
module JsValue {
  import opened Wrappers

  datatype Value =
    | Undefined
    | Null
    | Bool(b: bool)
    | Num(n: real)
    | Str(s: string)
    | Arr(elems: seq<Value>)
    | Obj(fields: map<string, Value>)
  {
    /** `null` or `undefined`: reading a property of one throws a
        `TypeError`. */
    predicate Nullish()
    {
      Undefined? || Null?
    }

    /** JavaScript truthiness (`NaN` cannot come out of `JSON.parse`). */
    predicate Truthy()
    {
      match this
      case Undefined => false
      case Null => false
      case Bool(b) => b
      case Num(n) => n != 0.0
      case Str(s) => s != []
      case Arr(_) => true
      case Obj(_) => true
    }

    /** `this[key]` for a non-numeric property name: an object's own
        property, a string's or array's `length`, and `undefined` for
        anything else. */
    function Field(key: string): Value
      requires !Nullish()
    {
      match this
      case Obj(fields) => if key in fields then fields[key] else Undefined
      case Str(s) => if key == "length" then Num(|s| as real) else Undefined
      case Arr(elems) => if key == "length" then Num(|elems| as real) else Undefined
      case _ => Undefined
    }

    /** The number a relational comparison such as `<` turns this value
        into, for the values whose conversion the model covers: a number
        itself, `null` as 0, `false` and `true` as 0 and 1, and `undefined`
        as `NaN` (`None`, which compares false).  Strings, arrays and
        objects also give `None` here. */
    function LooseNumber(): Option<real>
    {
      match this
      case Num(n) => Some(n)
      case Null => Some(0.0)
      case Bool(b) => Some(if b then 1.0 else 0.0)
      case _ => None
    }

    /** `this[0]`: an array's first element, a string's first character,
        an object's property "0", and `undefined` otherwise. */
    function First(): Value
      requires !Nullish()
    {
      match this
      case Arr(elems) => if elems != [] then elems[0] else Undefined
      case Str(s) => if s != [] then Str([s[0]]) else Undefined
      case Obj(fields) => if "0" in fields then fields["0"] else Undefined
      case _ => Undefined
    }
  }
}
