// Values and failures of the Python 2 runtime that the pipeline relies on.
// Attributes of the ORM objects are dynamically typed: a setter may store
// anything, and several operations test the type of their argument before
// using it.  Exceptions the code raises (or triggers by mistake) are named
// explicitly so that every error path is an ordinary result of the model.

module Runtime {

  /** A dynamically typed Python value as far as the pipeline inspects it. */
  datatype Value =
    | NoneValue
    | BoolValue(b: bool)
    | IntValue(i: int)
    | FloatValue(f: real)
    | StrValue(s: string)
    | OtherValue            // any other object (a list, a date, a mapped entity, ...)

  /** `bool` and `int` take part in arithmetic; `float` too. */
  predicate IsNumber(v: Value)
  {
    v.BoolValue? || v.IntValue? || v.FloatValue?
  }

  /** The numeric meaning of a number (True is 1, False is 0). */
  function AsReal(v: Value): real
    requires IsNumber(v)
  {
    match v
    case BoolValue(b) => if b then 1.0 else 0.0
    case IntValue(i) => i as real
    case FloatValue(f) => f
  }

  /** Python exceptions, raised on purpose or by a defect of the code. */
  datatype Error =
    | NameError(name: string)             // a name that is not defined at that point
    | AttributeError(attribute: string)   // an attribute the object does not have
    | TypeError                           // an operation applied to the wrong kind of value
    | IndexError                          // a list or string index out of range
    | KeyError(key: string)               // a missing dictionary key
    | ZeroDivisionError
    | StopIteration                       // next() on an exhausted reader
    | Raised(exceptionClass: string)      // an exception class of the project, raised on purpose

  datatype Result<T> = Ok(value: T) | Err(error: Error)

  /** The result of an operation that returns nothing but may raise. */
  datatype Outcome = Done | Failed(error: Error)

  datatype Option<T> = None | Some(value: T)

  /**
   * The argument of an operation that checks `isinstance` (or `!= None`)
   * before using it: an instance of the expected class, None, or anything else.
   */
  datatype Arg<T> = Instance(obj: T) | NoneArg | OtherArg
}
