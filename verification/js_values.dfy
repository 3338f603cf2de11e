/**
 * The slice of JavaScript's value semantics that the hook registry relies on:
 * truthiness (`if (!value)`), `typeof … === 'function'` and `'string'`,
 * the array test `{}.toString.call(x) === '[object Array]'`, conversion of a
 * value to a property key (`obj[key]`), and calling a function object.
 */
module JsValues {

  /**
   * The safe integers, the integral JavaScript numbers of magnitude at most
   * 2^53 - 1: each is represented exactly, and `String(n)` writes it in
   * plain decimal (JavaScript switches to exponent form only from 10^21).
   */
  newtype SafeInt = n: int | -0x1F_FFFF_FFFF_FFFF <= n <= 0x1F_FFFF_FFFF_FFFF

  /**
   * A JavaScript value. Numbers are the safe integers; `Object` stands for a
   * plain object with the default `toString`, opaque and known by identity.
   */
  datatype Value =
    | Undefined
    | Null
    | Bool(b: bool)
    | Number(n: SafeInt)
    | Str(s: string)
    | Array(elems: seq<Value>)
    | Object(id: nat)
    | Fn(f: Func)

  /**
   * A function object: what a call does, the value of its `globalHookName`
   * property (`Undefined` when the property was never set) and the text
   * `Function.prototype.toString` yields for it.
   */
  datatype Func = Func(body: Body, hookName: Value, source: string)

  /** What calling a function does. */
  datatype Body =
    /** Code outside the model, identified by `code`; its results come from an `Oracle`. */
    | Native(code: nat)
    /** `(...args) => target(...args)`: passes every argument on and returns the target's result. */
    | Forward(target: Func)

  /**
   * The results of code outside the model: the value native code `code`
   * returns when called with `args`.
   */
  type Oracle = (nat, seq<Value>) -> Value

  /** JavaScript truthiness: `false`, `0`, `""`, `null` and `undefined` are falsy. */
  predicate Truthy(v: Value) {
    match v
    case Undefined => false
    case Null => false
    case Bool(b) => b
    case Number(n) => n != 0
    case Str(s) => s != ""
    case _ => true
  }

  /** The native code a call of `f` ends up running, after every forwarding step. */
  function NativeCode(f: Func): nat
    decreases f
  {
    match f.body
    case Native(code) => code
    case Forward(g) => NativeCode(g)
  }

  /** `f(...args)`. */
  function Invoke(f: Func, args: seq<Value>, oracle: Oracle): (r: Value)
    decreases f
    ensures r == oracle(NativeCode(f), args)
  {
    match f.body
    case Native(code) => oracle(code, args)
    case Forward(g) => Invoke(g, args, oracle)
  }

  /** The decimal digit for `d`. */
  function Digit(d: nat): char
    requires d < 10
  {
    "0123456789"[d]
  }

  /** `String(n)` for a non-negative integer. */
  function NatToDecimal(n: nat): string
    decreases n
  {
    if n < 10 then [Digit(n)] else NatToDecimal(n / 10) + [Digit(n % 10)]
  }

  /** `String(n)` for an integer. */
  function IntToDecimal(n: int): string {
    if n < 0 then "-" + NatToDecimal(-n) else NatToDecimal(n)
  }

  /**
   * The string a value becomes when used as a property key, `obj[v]`:
   * `String(v)` for every value the model has.
   */
  function PropertyKey(v: Value): string
    decreases v, 1
  {
    match v
    case Undefined => "undefined"
    case Null => "null"
    case Bool(b) => if b then "true" else "false"
    case Number(n) => IntToDecimal(n as int)
    case Str(s) => s
    case Array(elems) => JoinKeys(v, elems)
    case Object(_) => "[object Object]"
    case Fn(f) => f.source
  }

  /**
   * `elems.join(",")`, the string form of an array: `null` and `undefined`
   * elements contribute the empty string. `whole` is the array being joined.
   */
  function JoinKeys(whole: Value, elems: seq<Value>): string
    requires forall e | e in elems :: e < whole
    decreases whole, 0, |elems|
  {
    if |elems| == 0 then ""
    else
      assert elems[0] in elems;
      assert forall e | e in elems[1..] :: e in elems;
      var first := if elems[0].Undefined? || elems[0].Null? then "" else PropertyKey(elems[0]);
      if |elems| == 1 then first else first + "," + JoinKeys(whole, elems[1..])
  }
}
