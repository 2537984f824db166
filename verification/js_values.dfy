/**
 The small part of JavaScript's value semantics that the proxy's decision
 logic relies on: truthiness, `||`, `===`, reading past the end of an array,
 and exceptions.
 */
module JsValues {

  /** The values the decision logic handles. Numbers are integers here: no
      arithmetic happens, so NaN never arises. */
  datatype JsValue = Undefined | Null | Str(s: string) | Num(n: int)

  /** A completion: the expression either yields a value or throws. What is
      thrown is never inspected, so it is not recorded. */
  datatype Completion<+T> = Normal(value: T) | Throw

  /** ToBoolean: `undefined`, `null`, `""` and `0` are falsy. */
  predicate Truthy(v: JsValue)
    ensures Truthy(v) <==> v !in {Undefined, Null, Str(""), Num(0)}
  {
    match v
    case Undefined => false
    case Null => false
    case Str(s) => s != ""
    case Num(n) => n != 0
  }

  /** `a || b`: the left operand when it is truthy, the right one otherwise. */
  function Or(a: JsValue, b: JsValue): (r: JsValue)
    ensures r == a || r == b
    ensures Truthy(r) <==> Truthy(a) || Truthy(b)
    ensures Truthy(a) ==> r == a
    ensures !Truthy(a) ==> r == b
  {
    if Truthy(a) then a else b
  }

  /** `a === b`: same kind and same contents. Without NaN it is exactly
      equality of values, so every value is strictly equal to itself. */
  predicate StrictEquals(a: JsValue, b: JsValue)
    ensures StrictEquals(a, b) <==> a == b
  {
    match (a, b)
    case (Undefined, Undefined) => true
    case (Null, Null) => true
    case (Str(x), Str(y)) => x == y
    case (Num(x), Num(y)) => x == y
    case _ => false
  }

  /** `xs[i]` on an array of strings: `undefined` past the end. */
  function At(xs: seq<string>, i: nat): JsValue {
    if i < |xs| then Str(xs[i]) else Undefined
  }

}
