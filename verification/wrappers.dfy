/** Failure-carrying wrappers shared by every module of the model. */
module Wrappers {

  /** A value that may be missing: a failed coercion, an optional argument. */
  datatype Option<+T> = None | Some(value: T) {

    predicate IsFailure() {
      None?
    }

    function PropagateFailure<U>(): Option<U>
      requires None?
    {
      None
    }

    function Extract(): T
      requires Some?
    {
      value
    }

    function GetOr(default: T): T {
      match this
      case Some(v) => v
      case None => default
    }
  }

  /** Either a value or the error the reporting tool would raise. */
  datatype Result<+T, +E> = Ok(value: T) | Err(error: E) {

    predicate IsFailure() {
      Err?
    }

    function PropagateFailure<U>(): Result<U, E>
      requires Err?
    {
      Err(error)
    }

    function Extract(): T
      requires Ok?
    {
      value
    }
  }

  /** A check that either passes or raises, carrying no value. */
  datatype Outcome<+E> = Pass | Fail(error: E) {

    predicate IsFailure() {
      Fail?
    }

    function PropagateFailure<U>(): Result<U, E>
      requires Fail?
    {
      Err(error)
    }
  }

  /** The three states of a key in a loosely typed configuration dictionary:
      missing, present with a null value, or present with a value. */
  datatype Field<+T> = Absent | Null | Given(value: T) {

    /** `d.get(k, default)`: the default replaces a missing key only; an
        explicit null stays null. */
    function GetWithDefault(default: T): Option<T> {
      match this
      case Absent => Some(default)
      case Null => None
      case Given(v) => Some(v)
    }

    /** `d.get(k)`: a missing key and a null value both read as None. */
    function Get(): Option<T> {
      match this
      case Given(v) => Some(v)
      case _ => None
    }
  }

  /** Python truthiness of an optional string: None and "" are false. */
  predicate Truthy(s: Option<string>) {
    s.Some? && s.value != ""
  }
}
