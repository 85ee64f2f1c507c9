/** The errors the core raises, and a Result type to carry them. The source
    raises exceptions; the model returns them. */
module Errors {
  import opened Types

  datatype Error =
    // pql TypeError
    | CastNotImplemented(source: Type, target: Type)
    | TooManyColumns(source: Type, target: Type)
    | ElementsNotMatching(source: Type, target: Type)
    | StructHasNoCode
    | OperationNotSupported
    | InlineNotAMap
    | MissingParameterValue(func: string, param: string)
    | PositionalAfterNamed(func: string)
    | TooManyArguments(func: string, expected: nat, received: nat)
    | NoParameterNamed(func: string, name: string)
    // pql AttributeError
    | NoSuchAttribute(name: string)
    // Python errors the source does not catch: a missing attribute of a
    // Python object, a missing dict key, a key a SafeDict already holds, an
    // index into an empty list (of struct members, or of scopes), and `+`
    // between an instance and a string
    | MissingPythonAttribute(name: string)
    | KeyNotFound(key: string)
    | DuplicateKey(key: string)
    | EmptyStruct
    | EmptyScopeStack
    | UnsupportedOperand
    // pql NameNotFound
    | NameNotFound(name: string)
  {
    predicate IsTypeError() {
      CastNotImplemented? || TooManyColumns? || ElementsNotMatching? || StructHasNoCode? ||
      OperationNotSupported? || InlineNotAMap? || MissingParameterValue? ||
      PositionalAfterNamed? || TooManyArguments? || NoParameterNamed?
    }
  }

  datatype Result<+T> = Ok(value: T) | Err(error: Error) {
    predicate IsFailure() {
      Err?
    }

    function PropagateFailure<U>(): Result<U>
      requires Err?
    {
      Err(error)
    }

    function Extract(): T
      requires Ok?
    {
      value
    }
  }

  datatype Option<+T> = None | Some(value: T)
}
