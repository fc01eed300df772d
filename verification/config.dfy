/** The plugin's configuration: the options object, the constructor's validation of
    its argument, and the effective merge threshold. */
module Config {
  import opened Wrappers

  /** What a merge strategy answers for one pair of chunks. */
  datatype Decision = Decision(allowMerge: bool, reason: Option<string>)

  /** A merge strategy: given the non-empty resource paths of the modules of two chunks,
      decide whether they may be merged. */
  type Strategy = (seq<string>, seq<string>) -> Decision

  /** The options object; an absent property is `None`. */
  datatype Options = Options(minSizeReduce: Option<real>, mergeStrategy: Option<Strategy>)

  /** The empty options object `{}`. */
  const Defaults: Options := Options(None, None)

  /** The threshold used when `minSizeReduce` is absent or zero. */
  const DefaultMinSizeReduce: real := 1.5

  const OptionsError: string :=
    "Argument should be an options object. To use defaults, pass in nothing."

  /** The JavaScript values a caller can pass to the constructor, as far as the
      constructor can tell them apart. */
  datatype JsValue =
    | Undefined
    | Null
    | Boolean(b: bool)
    | Number(n: real)
    | Text(s: string)
    | Symbol
    | BigInt(i: int)
    | Function
    | ArrayValue
    | ObjectValue(options: Options)

  /** The JavaScript `typeof` operator; note that `typeof null` and `typeof []` are "object". */
  function TypeOf(v: JsValue): string {
    match v
    case Undefined => "undefined"
    case Null => "object"
    case Boolean(_) => "boolean"
    case Number(_) => "number"
    case Text(_) => "string"
    case Symbol => "symbol"
    case BigInt(_) => "bigint"
    case Function => "function"
    case ArrayValue => "object"
    case ObjectValue(_) => "object"
  }

  /** JavaScript truthiness of a constructor argument. */
  predicate Truthy(v: JsValue) {
    match v
    case Undefined => false
    case Null => false
    case Boolean(b) => b
    case Number(n) => n != 0.0
    case Text(s) => s != ""
    case BigInt(i) => i != 0
    case _ => true
  }

  /** The constructor: rejects a defined argument whose `typeof` is not "object", and
      any array; otherwise stores the argument, or `{}` when it is falsy. */
  function Construct(arg: JsValue): (r: Result<Options, string>)
    ensures r.Failure? <==>
              arg.Boolean? || arg.Number? || arg.Text? || arg.Symbol? || arg.BigInt? || arg.Function? || arg.ArrayValue?
    ensures r.Failure? ==> r.error == OptionsError
    ensures arg.ObjectValue? ==> r == Success(arg.options)
    ensures arg.Undefined? || arg.Null? ==> r == Success(Defaults)
  {
    if (arg != Undefined && TypeOf(arg) != "object") || arg.ArrayValue? then
      Failure(OptionsError)
    else if Truthy(arg) then
      Success(arg.options)
    else
      Success(Defaults)
  }

  /** `options.minSizeReduce || 1.5`: the configured threshold when it is a truthy number. */
  function MinSizeReduce(options: Options): (r: real)
    ensures r != 0.0
    ensures r == DefaultMinSizeReduce || options.minSizeReduce == Some(r)
    ensures options.minSizeReduce == Some(r) || options.minSizeReduce in {None, Some(0.0)}
  {
    if Truthy(Number(options.minSizeReduce.GetOr(0.0))) then options.minSizeReduce.value
    else DefaultMinSizeReduce
  }
}
