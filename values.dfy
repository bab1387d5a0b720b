/** Values shared by the whole model: the JSON values an LLM function call carries as
    arguments, the tokens of a command vector, and the exceptions the Python code raises,
    modelled as the error half of a result. */
module Values {

  datatype Option<+T> = None | Some(value: T)

  /** One constructor per kind of exception the modelled code can raise. */
  datatype Error =
    | SchemaMissing                      // `func_descript` is None and gets subscripted (TypeError)
    | UnknownParameter(name: string)     // `["properties"][arg]` has no such key (KeyError)
    | MissingType(name: string)          // the property has no `"type"` (KeyError)
    | PositionalLookup(command: string)  // the table is indexed with a key it lacks (KeyError)
    | NamelessSchema                     // `func["name"]` on a schema without a name (KeyError)
    | NotIterable                        // `for dir in operation["includeDir"]` on a scalar (TypeError)
    | NotJoinable                        // `" ".join(...)` meets a token that is not a str (TypeError)
    | MalformedLine(line: string)        // `key, value = ....split("=")` gets the wrong count (ValueError)
    | MissingConfigKey(key: string)      // `UsageError("Missing config key: ...")`

  datatype Result<+T> = Ok(value: T) | Err(error: Error) {
    predicate IsFailure() { Err? }
    function PropagateFailure<U>(): Result<U> requires Err? { Err(error) }
    function Extract(): T requires Ok? { value }
  }

  /** A decoded JSON value. `Num` and `Arr` carry the text Python's `str()` gives them, and
      `Num` whether the number is non-zero (its truth value). */
  datatype Value =
    | Null
    | Bool(b: bool)
    | Num(text: string, nonzero: bool)
    | Str(s: string)
    | Arr(items: seq<Value>, text: string)

  /** `str(v)`, which is also what `f'{v}'` produces. */
  function Render(v: Value): string
  {
    match v
    case Null => "None"
    case Bool(b) => if b then "True" else "False"
    case Num(t, _) => t
    case Str(s) => s
    case Arr(_, t) => t
  }

  /** Python truthiness, as `if operation[key]` and `args.get(key)` use it. */
  predicate Truthy(v: Value)
  {
    match v
    case Null => false
    case Bool(b) => b
    case Num(_, nz) => nz
    case Str(s) => s != ""
    case Arr(items, _) => items != []
  }

  /** An element of a Python list that is later handed to `subprocess` or `" ".join`:
      either a str or a value that was inserted without conversion. */
  datatype Token = Text(s: string) | Raw(v: Value)

  /** The token is a Python str. */
  predicate IsStr(t: Token)
  {
    t.Text? || t.v.Str?
  }

  /** `" ".join(tokens)` does not raise: every token is a str. */
  predicate Joinable(tokens: seq<Token>)
  {
    forall i :: 0 <= i < |tokens| ==> IsStr(tokens[i])
  }
}
